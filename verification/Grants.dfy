/** Credits given away: gift codes, event rewards, daily and vote rewards, each
    guarded by a row that can be inserted once. */
module Grants {
  import opened Common
  import opened CreditLedger

  datatype Code = Code(credits: nat, maxUses: nat, usedCount: nat, active: bool)

  datatype Attendance = Registered | Attended | NoShow | Cancelled

  /** A capacity of 0 is no limit; a reward of 0 is none. */
  datatype RealmEvent = RealmEvent(capacity: nat, reward: nat)

  datatype VoteRow = VoteRow(account: Account, credits: nat)

  type CodeUse = (nat, Account)
  type Place = (nat, Account)
  type Claim = (Account, string, nat)

  datatype Grants = Grants(
    codes: map<nat, Code>,
    uses: map<CodeUse, nat>,
    events: map<nat, RealmEvent>,
    registrations: map<Place, Attendance>,
    rewards: map<Place, nat>,
    daily: map<Claim, nat>,
    votes: map<string, VoteRow>)

  datatype Action =
    | CreateCode(code: nat, credits: nat, maxUses: nat)
    | DeactivateCode(code: nat)
    | Redeem(code: nat, account: Account, expired: bool)
    | PutEvent(event: nat, what: RealmEvent)
    | Register(event: nat, account: Account, closed: bool)
    | Cancel(event: nat, account: Account)
    | StaffMark(event: nat, account: Account, status: Attendance)
    | Reward(event: nat, account: Account)
    | ClaimDaily(account: Account, realm: string, date: nat, credits: nat)
    | RewardVote(vote: string, account: Account, credits: nat)

  // ------------------------------------------------------------ transactions
  // None is a refusal or a rollback: nothing is written.

  predicate Redeemable(code: Code, expired: bool) { code.active && !expired && code.usedCount < code.maxUses }

  function DoRedeem(c: Core, g: Grants, id: nat, a: Account, expired: bool): Option<(Core, Grants)> {
    if id !in g.codes || !Redeemable(g.codes[id], expired) || (id, a) in g.uses then None
    else
      var code := g.codes[id];
      match Grant(c, a, code.credits, GiftCode(id))
      case None => None
      case Some(d) =>
        Some((d, g.(uses := g.uses[(id, a) := code.credits],
            codes := g.codes[id := code.(usedCount := code.usedCount + 1)])))
  }

  predicate Active(status: Attendance) { status in {Registered, Attended} }

  function ActivePlaces(g: Grants, event: nat): set<Place> {
    set k | k in g.registrations && k.0 == event && Active(g.registrations[k]) :: k
  }

  predicate Holds(g: Grants, event: nat, a: Account) {
    (event, a) in g.registrations && Active(g.registrations[(event, a)])
  }

  function DoRegister(g: Grants, event: nat, a: Account, closed: bool): Option<Grants> {
    if event !in g.events || closed then None
    else if g.events[event].capacity > 0 && !Holds(g, event, a)
        && |ActivePlaces(g, event)| >= g.events[event].capacity then None
    else Some(g.(registrations := g.registrations[(event, a) := Registered]))
  }

  function DoCancel(g: Grants, event: nat, a: Account): Option<Grants> {
    if (event, a) in g.registrations && g.registrations[(event, a)] == Registered then
      Some(g.(registrations := g.registrations[(event, a) := Cancelled]))
    else None
  }

  function DoMark(g: Grants, event: nat, a: Account, status: Attendance): Option<Grants> {
    if (event, a) in g.registrations then Some(g.(registrations := g.registrations[(event, a) := status])) else None
  }

  function DoReward(c: Core, g: Grants, event: nat, a: Account): Option<(Core, Grants)> {
    if event !in g.events || g.events[event].reward == 0 then None
    else if (event, a) !in g.registrations || g.registrations[(event, a)] != Attended
        || (event, a) in g.rewards then None
    else
      var credits := g.events[event].reward;
      match Grant(c, a, credits, EventReward(event))
      case None => None
      case Some(d) => Some((d, g.(rewards := g.rewards[(event, a) := credits])))
  }

  function DoDaily(c: Core, g: Grants, a: Account, realm: string, date: nat, credits: nat): Option<(Core, Grants)> {
    if (a, realm, date) in g.daily then None
    else
      match Grant(c, a, credits, Daily(realm, date))
      case None => None
      case Some(d) => Some((d, g.(daily := g.daily[(a, realm, date) := credits])))
  }

  function DoVote(c: Core, g: Grants, vote: string, a: Account, credits: nat): Option<(Core, Grants)> {
    if vote in g.votes then None
    else
      match Grant(c, a, credits, Vote(vote))
      case None => None
      case Some(d) => Some((d, g.(votes := g.votes[vote := VoteRow(a, credits)])))
  }

  function Else<T>(r: Option<T>, otherwise: T): T {
    match r
    case None => otherwise
    case Some(value) => value
  }

  /** One committed request; refused ones and, with `commits` false, ones the
      database fails change nothing. */
  function Next(c: Core, g: Grants, action: Action, commits: bool): (Core, Grants) {
    if !commits then (c, g)
    else
      match action
      case CreateCode(id, credits, maxUses) =>
        if id in g.codes || credits == 0 || credits > 1_000_000 || maxUses == 0 || maxUses > 100_000 then (c, g)
        else (c, g.(codes := g.codes[id := Code(credits, maxUses, 0, true)]))
      case DeactivateCode(id) =>
          if id in g.codes then (c, g.(codes := g.codes[id := g.codes[id].(active := false)])) else (c, g)
      case Redeem(id, a, expired) => Else(DoRedeem(c, g, id, a, expired), (c, g))
      case PutEvent(id, what) => (c, g.(events := g.events[id := what]))
      case Register(id, a, closed) => (c, Else(DoRegister(g, id, a, closed), g))
      case Cancel(id, a) => (c, Else(DoCancel(g, id, a), g))
      case StaffMark(id, a, status) => (c, Else(DoMark(g, id, a, status), g))
      case Reward(id, a) => Else(DoReward(c, g, id, a), (c, g))
      case ClaimDaily(a, realm, date, credits) => Else(DoDaily(c, g, a, realm, date, credits), (c, g))
      case RewardVote(vote, a, credits) => Else(DoVote(c, g, vote, a, credits), (c, g))
  }

  // ------------------------------------------------------------ what a request does

  /** A code anyone may make: 1 to 1000000 credits, 1 to 100000 uses. */
  ghost predicate CodeMade(g: Grants, id: nat, credits: nat, maxUses: nat, h: Grants) {
    if id !in g.codes && 1 <= credits <= 1_000_000 && 1 <= maxUses <= 100_000
    then h == g.(codes := g.codes[id := Code(credits, maxUses, 0, true)])
    else h == g
  }

  ghost predicate RedeemDone(c: Core, g: Grants, id: nat, a: Account, expired: bool, d: Core, h: Grants) {
    if && id in g.codes && g.codes[id].active && !expired && g.codes[id].usedCount < g.codes[id].maxUses
       && (id, a) !in g.uses && Fits(c, a, g.codes[id].credits)
    then
      var code := g.codes[id];
      && Posted(c, d, a, code.credits, GiftCode(id))
      && h == g.(uses := g.uses[(id, a) := code.credits],
                 codes := g.codes[id := Code(code.credits, code.maxUses, code.usedCount + 1, true)])
    else d == c && h == g
  }

  ghost predicate RegisterDone(g: Grants, id: nat, a: Account, closed: bool, h: Grants) {
    if && id in g.events && !closed
       && (g.events[id].capacity == 0 || Holds(g, id, a) || |ActivePlaces(g, id)| < g.events[id].capacity)
    then h == g.(registrations := g.registrations[(id, a) := Registered])
    else h == g
  }

  /** An account marked as having attended an event with a reward. */
  predicate Attendee(g: Grants, id: nat, a: Account) {
    && id in g.events && g.events[id].reward > 0
    && (id, a) in g.registrations && g.registrations[(id, a)] == Attended
  }

  ghost predicate RewardDone(c: Core, g: Grants, id: nat, a: Account, d: Core, h: Grants) {
    if Attendee(g, id, a) && (id, a) !in g.rewards && Fits(c, a, g.events[id].reward) then
      && Posted(c, d, a, g.events[id].reward, EventReward(id))
      && h == g.(rewards := g.rewards[(id, a) := g.events[id].reward])
    else d == c && h == g
  }

  ghost predicate DailyDone(c: Core, g: Grants, a: Account, realm: string, date: nat, credits: nat, d: Core,
                            h: Grants) {
    if (a, realm, date) !in g.daily && Fits(c, a, credits) then
      && Posted(c, d, a, credits, Daily(realm, date))
      && h == g.(daily := g.daily[(a, realm, date) := credits])
    else d == c && h == g
  }

  ghost predicate VoteDone(c: Core, g: Grants, vote: string, a: Account, credits: nat, d: Core, h: Grants) {
    if vote !in g.votes && Fits(c, a, credits) then
      && Posted(c, d, a, credits, Vote(vote))
      && h == g.(votes := g.votes[vote := VoteRow(a, credits)])
    else d == c && h == g
  }

  /** Who may have what, request by request: the condition of the tables under
      which a request is granted, the one row it writes, the posting that goes with
      it, and that nothing happens otherwise. */
  ghost predicate RequestDone(c: Core, g: Grants, action: Action, d: Core, h: Grants) {
    match action
    case CreateCode(id, credits, maxUses) => d == c && CodeMade(g, id, credits, maxUses, h)
    case DeactivateCode(id) =>
      && d == c && h == g.(codes := h.codes) && h.codes.Keys == g.codes.Keys
      && forall k :: k in g.codes ==> h.codes[k] == (if k == id then g.codes[k].(active := false) else g.codes[k])
    case Redeem(id, a, expired) => RedeemDone(c, g, id, a, expired, d, h)
    case PutEvent(id, what) => d == c && h == g.(events := g.events[id := what])
    case Register(id, a, closed) => d == c && RegisterDone(g, id, a, closed, h)
    case Cancel(id, a) =>
      && d == c
      && h == (if (id, a) in g.registrations && g.registrations[(id, a)] == Registered
               then g.(registrations := g.registrations[(id, a) := Cancelled]) else g)
    case StaffMark(id, a, status) =>
      && d == c
      && h == (if (id, a) in g.registrations then g.(registrations := g.registrations[(id, a) := status]) else g)
    case Reward(id, a) => RewardDone(c, g, id, a, d, h)
    case ClaimDaily(a, realm, date, credits) => DailyDone(c, g, a, realm, date, credits, d, h)
    case RewardVote(vote, a, credits) => VoteDone(c, g, vote, a, credits, d, h)
  }

  /** Granting is all or nothing, and exactly when the request is good. */
  lemma GrantedIff(c: Core, a: Account, n: nat, cause: Cause)
    requires Typed(c)
    ensures Grant(c, a, n, cause).Some? <==> Fits(c, a, n)
    ensures Fits(c, a, n) ==> Posted(c, Grant(c, a, n, cause).value, a, n, cause)
  {
    GrantsWhatFits(c, a, n, cause);
    if Fits(c, a, n) { GrantPosts(c, a, n, cause); }
  }

  lemma RequestIsDone(c: Core, g: Grants, action: Action)
    requires Typed(c)
    ensures var r := Next(c, g, action, true); RequestDone(c, g, action, r.0, r.1)
    ensures Next(c, g, action, false) == (c, g)
  {
    hide Grant, Fits, Posted, Typed, ActivePlaces;
    match action
    case Redeem(id, a, _) => if id in g.codes { GrantedIff(c, a, g.codes[id].credits, GiftCode(id)); }
    case Reward(id, a) => if id in g.events { GrantedIff(c, a, g.events[id].reward, EventReward(id)); }
    case ClaimDaily(a, realm, date, credits) => GrantedIff(c, a, credits, Daily(realm, date));
    case RewardVote(vote, a, credits) => GrantedIff(c, a, credits, Vote(vote));
    case _ =>
  }

  function Start(): Grants { Grants(map[], map[], map[], map[], map[], map[], map[]) }

  // ------------------------------------------------------------ exactly once

  function UsesOf(g: Grants, id: nat): set<CodeUse> {
    set k | k in g.uses && k.0 == id :: k
  }

  function Get<K, V>(m: map<K, V>, k: K, otherwise: V): V {
    if k in m then m[k] else otherwise
  }

  /** A gift code's counter counts its use rows and stays within its limit; every
      row holds the code's credits. */
  ghost predicate CodeSound(c: Core, g: Grants, id: nat) {
    if id in g.codes then
      var code := g.codes[id];
      && code.usedCount == |UsesOf(g, id)| <= code.maxUses
      && Total(c, GiftCode(id)) == code.usedCount * code.credits
      && (forall a :: (id, a) in g.uses ==> g.uses[(id, a)] == code.credits)
    else
      Total(c, GiftCode(id)) == 0 && forall a :: (id, a) !in g.uses
  }

  /** What the ledger paid an account for a cause is what the once-only row says,
      and nothing where there is no row. */
  ghost predicate PaidOnce(c: Core, g: Grants, a: Account) {
    && (forall id :: Paid(c, a, GiftCode(id)) == Get(g.uses, (id, a), 0))
    && (forall id :: Paid(c, a, EventReward(id)) == Get(g.rewards, (id, a), 0))
    && (forall realm, date :: Paid(c, a, Daily(realm, date)) == Get(g.daily, (a, realm, date), 0))
    && (forall vote :: Paid(c, a, Vote(vote)) == VotedCredits(g, vote, a))
  }

  function VotedCredits(g: Grants, vote: string, a: Account): nat {
    if vote in g.votes && g.votes[vote].account == a then g.votes[vote].credits else 0
  }

  ghost predicate GrantInv(c: Core, g: Grants) {
    && Typed(c)
    && (forall id :: CodeSound(c, g, id))
    && (forall a :: PaidOnce(c, g, a))
  }

  predicate IsGrant(cause: Cause) { cause.GiftCode? || cause.EventReward? || cause.Daily? || cause.Vote? }

  /** What other transactions post does not disturb the grants. */
  lemma GrantsIgnoreOthers(c: Core, d: Core, g: Grants)
    requires GrantInv(c, g) && Typed(d) && forall k :: IsGrant(k) ==> SameFor(c, d, k)
    ensures GrantInv(d, g)
  {
    forall id ensures CodeSound(d, g, id) { assert CodeSound(c, g, id) && SameFor(c, d, GiftCode(id)); }
    forall a ensures PaidOnce(d, g, a) {
      assert PaidOnce(c, g, a);
      forall id ensures Paid(d, a, GiftCode(id)) == Paid(c, a, GiftCode(id)) { assert SameFor(c, d, GiftCode(id)); }
      forall id ensures Paid(d, a, EventReward(id)) == Paid(c, a, EventReward(id)) {
        assert SameFor(c, d, EventReward(id));
      }
      forall r, t ensures Paid(d, a, Daily(r, t)) == Paid(c, a, Daily(r, t)) { assert SameFor(c, d, Daily(r, t)); }
      forall v ensures Paid(d, a, Vote(v)) == Paid(c, a, Vote(v)) { assert SameFor(c, d, Vote(v)); }
    }
  }

  // ------------------------------------------------------------ each step keeps it

  lemma OneMoreUse(g: Grants, h: Grants, id: nat, a: Account, credits: nat, k: nat)
    requires (id, a) !in g.uses && h.uses == g.uses[(id, a) := credits]
    ensures |UsesOf(h, k)| == |UsesOf(g, k)| + (if k == id then 1 else 0)
  {
    if k == id {
      assert UsesOf(h, k) == UsesOf(g, k) + {(id, a)};
    } else {
      assert UsesOf(h, k) == UsesOf(g, k);
    }
  }

  /** Sums of other causes stay; the granted one grows for the granted account. */
  lemma PaidAfter(c: Core, d: Core, g: Grants, h: Grants, a: Account, n: nat, cause: Cause, b: Account)
    requires PaidOnce(c, g, b) && Posted(c, d, a, n, cause)
    requires forall id ::
        Get(h.uses, (id, b), 0) == Get(g.uses, (id, b), 0) + (if b == a && cause == GiftCode(id) then n else 0)
    requires forall id ::
        Get(h.rewards, (id, b), 0) == Get(g.rewards, (id, b), 0) + (if b == a && cause == EventReward(id) then n else 0)
    requires forall r, t ::
        Get(h.daily, (b, r, t), 0) == Get(g.daily, (b, r, t), 0) + (if b == a && cause == Daily(r, t) then n else 0)
    requires forall v :: VotedCredits(h, v, b) == VotedCredits(g, v, b) + (if b == a && cause == Vote(v) then n else 0)
    ensures PaidOnce(d, h, b)
  {
    hide Posted, Paid, Total, Rows;
    forall id ensures Paid(d, b, GiftCode(id)) == Get(h.uses, (id, b), 0) {
      PostedSums(c, d, a, n, cause, b, GiftCode(id));
    }
    forall id ensures Paid(d, b, EventReward(id)) == Get(h.rewards, (id, b), 0) {
      PostedSums(c, d, a, n, cause, b, EventReward(id));
    }
    forall r, t ensures Paid(d, b, Daily(r, t)) == Get(h.daily, (b, r, t), 0) {
      PostedSums(c, d, a, n, cause, b, Daily(r, t));
    }
    forall v ensures Paid(d, b, Vote(v)) == VotedCredits(h, v, b) { PostedSums(c, d, a, n, cause, b, Vote(v)); }
  }

  lemma CodesAfter(c: Core, d: Core, g: Grants, h: Grants, a: Account, n: nat, cause: Cause, id: nat)
    requires CodeSound(c, g, id) && Posted(c, d, a, n, cause) && !cause.GiftCode? && h.codes == g.codes
    requires h.uses == g.uses
    ensures CodeSound(d, h, id)
  {
    hide Posted, Total;
    PostedSums(c, d, a, n, cause, a, GiftCode(id));
    assert UsesOf(h, id) == UsesOf(g, id);
  }

  lemma RedeemKeeps(c: Core, g: Grants, id: nat, a: Account, expired: bool)
    requires GrantInv(c, g) && DoRedeem(c, g, id, a, expired).Some?
    ensures var (d, h) := DoRedeem(c, g, id, a, expired).value; GrantInv(d, h)
  {
    hide Posted, Typed, Grant, Total;
    var (d, h) := DoRedeem(c, g, id, a, expired).value;
    var code := g.codes[id];
    GrantPosts(c, a, code.credits, GiftCode(id));
    PostedConserves(c, d, a, code.credits, GiftCode(id));
    assert CodeSound(c, g, id);
    forall k ensures CodeSound(d, h, k) {
      assert CodeSound(c, g, k);
      PostedSums(c, d, a, code.credits, GiftCode(id), a, GiftCode(k));
      OneMoreUse(g, h, id, a, code.credits, k);
    }
    forall b ensures PaidOnce(d, h, b) {
      assert PaidOnce(c, g, b);
      PaidAfter(c, d, g, h, a, code.credits, GiftCode(id), b);
    }
  }

  lemma RewardKeeps(c: Core, g: Grants, event: nat, a: Account)
    requires GrantInv(c, g) && DoReward(c, g, event, a).Some?
    ensures var (d, h) := DoReward(c, g, event, a).value; GrantInv(d, h)
  {
    hide Posted, Typed, Grant, CodeSound;
    var (d, h) := DoReward(c, g, event, a).value;
    var n := g.events[event].reward;
    GrantPosts(c, a, n, EventReward(event));
    PostedConserves(c, d, a, n, EventReward(event));
    forall k ensures CodeSound(d, h, k) { CodesAfter(c, d, g, h, a, n, EventReward(event), k); }
    forall b ensures PaidOnce(d, h, b) {
      assert PaidOnce(c, g, b);
      PaidAfter(c, d, g, h, a, n, EventReward(event), b);
    }
  }

  lemma DailyKeeps(c: Core, g: Grants, a: Account, realm: string, date: nat, n: nat)
    requires GrantInv(c, g) && DoDaily(c, g, a, realm, date, n).Some?
    ensures var (d, h) := DoDaily(c, g, a, realm, date, n).value; GrantInv(d, h)
  {
    hide Posted, Typed, Grant, CodeSound;
    var (d, h) := DoDaily(c, g, a, realm, date, n).value;
    GrantPosts(c, a, n, Daily(realm, date));
    PostedConserves(c, d, a, n, Daily(realm, date));
    forall k ensures CodeSound(d, h, k) { CodesAfter(c, d, g, h, a, n, Daily(realm, date), k); }
    forall b ensures PaidOnce(d, h, b) {
      assert PaidOnce(c, g, b);
      PaidAfter(c, d, g, h, a, n, Daily(realm, date), b);
    }
  }

  lemma VoteKeeps(c: Core, g: Grants, vote: string, a: Account, n: nat)
    requires GrantInv(c, g) && DoVote(c, g, vote, a, n).Some?
    ensures var (d, h) := DoVote(c, g, vote, a, n).value; GrantInv(d, h)
  {
    hide Posted, Typed, Grant, CodeSound;
    var (d, h) := DoVote(c, g, vote, a, n).value;
    GrantPosts(c, a, n, Vote(vote));
    PostedConserves(c, d, a, n, Vote(vote));
    forall k ensures CodeSound(d, h, k) { CodesAfter(c, d, g, h, a, n, Vote(vote), k); }
    forall b ensures PaidOnce(d, h, b) {
      assert PaidOnce(c, g, b);
      PaidAfter(c, d, g, h, a, n, Vote(vote), b);
    }
  }

  /** Steps that write no credits. */
  lemma QuietKeeps(c: Core, g: Grants, h: Grants)
    requires GrantInv(c, g) && h.uses == g.uses && h.rewards == g.rewards && h.daily == g.daily && h.votes == g.votes
    requires forall id :: id in g.codes ==> id in h.codes && h.codes[id] == g.codes[id].(active := h.codes[id].active)
    requires forall id :: id in h.codes && id !in g.codes ==> h.codes[id].usedCount == 0
    ensures GrantInv(c, h)
  {
    forall id ensures CodeSound(c, h, id) {
      assert CodeSound(c, g, id);
      assert UsesOf(h, id) == UsesOf(g, id);
      if id !in g.codes { assert UsesOf(g, id) == {}; }
    }
    forall a ensures PaidOnce(c, h, a) { assert PaidOnce(c, g, a); }
  }

  lemma GrantStep(c: Core, g: Grants, action: Action, commits: bool)
    requires GrantInv(c, g)
    ensures var r := Next(c, g, action, commits); GrantInv(r.0, r.1)
  {
    hide GrantInv, DoRedeem, DoReward, DoDaily, DoVote;
    var r := Next(c, g, action, commits);
    match action {
      case Redeem(id, a, expired) => if DoRedeem(c, g, id, a, expired).Some? { RedeemKeeps(c, g, id, a, expired); }
      case Reward(id, a) => if DoReward(c, g, id, a).Some? { RewardKeeps(c, g, id, a); }
      case ClaimDaily(a, realm, date, credits) => if DoDaily(c, g, a, realm, date, credits).Some? {
        DailyKeeps(c, g, a, realm, date, credits);
      }
      case RewardVote(vote, a, credits) => if DoVote(c, g, vote, a, credits).Some? {
        VoteKeeps(c, g, vote, a, credits);
      }
      case _ => QuietKeeps(c, g, r.1);
    }
  }

  /** Once-only rows are never removed or changed. */
  ghost predicate RowsStay(g: Grants, h: Grants) {
    && (forall k :: k in g.uses ==> k in h.uses && h.uses[k] == g.uses[k])
    && (forall k :: k in g.rewards ==> k in h.rewards && h.rewards[k] == g.rewards[k])
    && (forall k :: k in g.daily ==> k in h.daily && h.daily[k] == g.daily[k])
    && (forall k :: k in g.votes ==> k in h.votes && h.votes[k] == g.votes[k])
  }

  lemma StepKeepsRows(c: Core, g: Grants, action: Action, commits: bool)
    ensures RowsStay(g, Next(c, g, action, commits).1)
  {
    hide Grant;
  }

  // ------------------------------------------------------------ capacity

  /** Players' own requests: everything but staff marking attendance or editing
      the event itself. */
  predicate LeavesEventToPlayers(action: Action, event: nat) {
    !(action.StaffMark? && action.event == event) && !(action.PutEvent? && action.event == event)
  }

  lemma PlaceChanged(g: Grants, h: Grants, event: nat, a: Account, status: Attendance, k: nat)
    requires h.registrations == g.registrations[(event, a) := status]
    ensures ActivePlaces(h, k) == if k != event then ActivePlaces(g, k)
                                  else if Active(status) then ActivePlaces(g, k) + {(event, a)}
                                  else ActivePlaces(g, k) - {(event, a)}
  {
  }

  /** Registering and cancelling never push an event over its capacity. */
  lemma PlayersRespectCapacity(c: Core, g: Grants, action: Action, commits: bool, event: nat)
    requires event in g.events && g.events[event].capacity > 0 && LeavesEventToPlayers(action, event)
    ensures var h := Next(c, g, action, commits).1;
            && event in h.events && h.events[event] == g.events[event]
            && (|ActivePlaces(h, event)| <= g.events[event].capacity
                || |ActivePlaces(h, event)| <= |ActivePlaces(g, event)|)
  {
    hide Grant, ActivePlaces;
    var h := Next(c, g, action, commits).1;
    if h.registrations == g.registrations {
      assert ActivePlaces(h, event) == ActivePlaces(g, event) by { SamePlaces(g, h, event); }
    } else {
      match action {
        case Register(id, a, closed) =>
          PlaceChanged(g, h, id, a, Registered, event);
          if id == event && Holds(g, event, a) { HeldPlace(g, event, a); }
        case Cancel(id, a) => PlaceChanged(g, h, id, a, Cancelled, event);
        case StaffMark(id, a, status) => PlaceChanged(g, h, id, a, status, event);
        case _ =>
      }
    }
  }

  lemma SamePlaces(g: Grants, h: Grants, event: nat)
    requires h.registrations == g.registrations
    ensures ActivePlaces(h, event) == ActivePlaces(g, event)
  {
  }

  lemma HeldPlace(g: Grants, event: nat, a: Account)
    ensures Holds(g, event, a) <==> (event, a) in ActivePlaces(g, event)
  {
  }

  /** Staff marking attendance takes a full event over its capacity exactly when
      it makes an inactive registration active. */
  lemma StaffMarkOverfillsIff(g: Grants, event: nat, a: Account, status: Attendance)
    requires event in g.events && g.events[event].capacity > 0 && |ActivePlaces(g, event)| == g.events[event].capacity
    requires DoMark(g, event, a, status).Some?
    ensures |ActivePlaces(DoMark(g, event, a, status).value, event)| > g.events[event].capacity
       <==> Active(status) && !Holds(g, event, a)
  {
    hide ActivePlaces;
    PlaceChanged(g, DoMark(g, event, a, status).value, event, a, status, event);
    HeldPlace(g, event, a);
    if Holds(g, event, a) && Active(status) {
      assert ActivePlaces(g, event) + {(event, a)} == ActivePlaces(g, event);
    }
  }
}
