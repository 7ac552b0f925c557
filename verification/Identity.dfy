/** Master accounts: game accounts grouped under identities, one of them primary.
    A request runs several statements, and other requests fall in between. */
module Identity {

  type Account = nat

  /** A row of portal_identity_accounts; the account is a unique key. */
  datatype Membership = Membership(identity: nat, primary: bool)

  /** What a request still has to do; the identity it carries was read earlier. */
  datatype Request =
    | Ensuring(account: Account)
    | Linking(identity: nat, target: Account)
    | Promoting(identity: nat, target: Account)
    | Unlinking(identity: nat, target: Account)
    | Deleting(identity: nat, target: Account)

  datatype State = State(rows: map<Account, Membership>, identities: set<nat>, requests: map<nat, Request>)

  /** The request that follows once the caller's own identity is known. */
  datatype Purpose = ToLink | ToPromote | ToUnlink

  datatype Action =
    | SignUp(account: Account, newId: nat)
    | Begin(r: nat, account: Account)
    | Create(r: nat, newId: nat)
    | Continue(r: nat, purpose: Purpose, target: Account)
    | Link(r: nat)
    | Promote(r: nat)
    | CheckPrimary(r: nat)
    | Delete(r: nat)
    | Abandon(r: nat)

  function Stop(s: State, r: nat): State { s.(requests := s.requests - {r}) }

  function Goto(s: State, r: nat, q: Request): State { s.(requests := s.requests[r := q]) }

  /** A new identity with one, primary, account; the id is an AUTO_INCREMENT. */
  function NewIdentity(s: State, account: Account, newId: nat): State {
    s.(rows := s.rows[account := Membership(newId, true)], identities := s.identities + {newId})
  }

  predicate In(s: State, account: Account, identity: nat) { account in s.rows && s.rows[account].identity == identity }

  /** All rows of one identity re-flagged, with one account primary. */
  function SetPrimary(rows: map<Account, Membership>, identity: nat, target: Account): map<Account, Membership> {
    map a | a in rows :: if rows[a].identity == identity then rows[a].(primary := a == target) else rows[a]
  }

  function Resume(identity: nat, purpose: Purpose, target: Account): Request {
    match purpose
    case ToLink => Linking(identity, target)
    case ToPromote => Promoting(identity, target)
    case ToUnlink => Unlinking(identity, target)
  }

  /** One statement or transaction; one that is not enabled changes nothing. */
  function Next(s: State, action: Action): State {
    match action
    case SignUp(a, newId) => if a in s.rows || newId in s.identities then s else NewIdentity(s, a, newId)
    case Begin(r, a) => if r in s.requests then s else Goto(s, r, Ensuring(a))
    case Create(r, newId) =>
      if r !in s.requests || !s.requests[r].Ensuring? || s.requests[r].account in s.rows || newId in s.identities then s
      else NewIdentity(s, s.requests[r].account, newId)
    case Continue(r, purpose, target) =>
      if r !in s.requests || !s.requests[r].Ensuring? || s.requests[r].account !in s.rows then s
      else if purpose == ToUnlink && target == s.requests[r].account then Stop(s, r)
      else Goto(s, r, Resume(s.rows[s.requests[r].account].identity, purpose, target))
    case Link(r) =>
      if r !in s.requests || !s.requests[r].Linking? then s
      else
        var q := s.requests[r];
        if q.target in s.rows then Stop(s, r)
        else Stop(s, r).(rows := s.rows[q.target := Membership(q.identity, false)])
    case Promote(r) =>
      if r !in s.requests || !s.requests[r].Promoting? then s
      else
        var q := s.requests[r];
        if !In(s, q.target, q.identity) then Stop(s, r)
        else Stop(s, r).(rows := SetPrimary(s.rows, q.identity, q.target))
    case CheckPrimary(r) =>
      if r !in s.requests || !s.requests[r].Unlinking? then s
      else
        var q := s.requests[r];
        if !In(s, q.target, q.identity) || s.rows[q.target].primary then Stop(s, r)
        else Goto(s, r, Deleting(q.identity, q.target))
    case Delete(r) =>
      if r !in s.requests || !s.requests[r].Deleting? then s
      else
        var q := s.requests[r];
        if In(s, q.target, q.identity) && !s.rows[q.target].primary
            then Stop(s, r).(rows := s.rows - {q.target}) else Stop(s, r)
    case Abandon(r) => Stop(s, r)
  }

  /** What the requests mean: whose identity they act in, on which account, and
      that nobody unlinks the account they are signed in with. */
  lemma PurposeIsCarriedOut(s: State, r: nat, account: Account, purpose: Purpose, target: Account)
    requires r in s.requests && s.requests[r] == Ensuring(account) && account in s.rows
    ensures var t, own := Next(s, Continue(r, purpose, target)), s.rows[account].identity;
            && t.rows == s.rows && t.identities == s.identities
            && (purpose == ToLink ==> t.requests == s.requests[r := Linking(own, target)])
            && (purpose == ToPromote ==> t.requests == s.requests[r := Promoting(own, target)])
            && (purpose == ToUnlink && target != account ==> t.requests == s.requests[r := Unlinking(own, target)])
            && (purpose == ToUnlink && target == account ==> t.requests == s.requests - {r})
    ensures Next(s, Abandon(r)) == State(s.rows, s.identities, s.requests - {r})
  {
  }

  /** Signing up opens an identity of its own, with the account primary in it. */
  lemma SignUpOpensAnIdentity(s: State, account: Account, newId: nat)
    requires account !in s.rows && newId !in s.identities
    ensures Next(s, SignUp(account, newId))
         == State(s.rows[account := Membership(newId, true)], s.identities + {newId}, s.requests)
  {
  }

  const EMPTY := State(map[], {}, map[])

  function Play(s: State, run: seq<Action>): State {
    if run == [] then s else Next(Play(s, run[..|run| - 1]), run[|run| - 1])
  }

  // ------------------------------------------------------------ the invariant

  predicate IsPrimary(s: State, a: Account, identity: nat) { In(s, a, identity) && s.rows[a].primary }

  /** The identity has a primary account, and no two. */
  ghost predicate OnePrimary(s: State, identity: nat) {
    && (exists a :: IsPrimary(s, a, identity))
    && (forall a, b :: IsPrimary(s, a, identity) && IsPrimary(s, b, identity) ==> a == b)
  }

  predicate Carries(q: Request, identity: nat) { !q.Ensuring? && q.identity == identity }

  ghost predicate Sound(s: State) {
    && (forall i :: i in s.identities ==> OnePrimary(s, i))
    && (forall a :: a in s.rows ==> s.rows[a].identity in s.identities)
    && (forall r, i :: r in s.requests && Carries(s.requests[r], i) ==> i in s.identities)
  }

  lemma RequestsOnly(s: State, t: State)
    requires Sound(s) && t.rows == s.rows && t.identities == s.identities
    requires forall r, i :: r in t.requests && Carries(t.requests[r], i) ==> i in t.identities
    ensures Sound(t)
  {
    forall i | i in t.identities ensures OnePrimary(t, i) {
      var a :| IsPrimary(s, a, i);
      assert IsPrimary(t, a, i);
      forall b, c | IsPrimary(t, b, i) && IsPrimary(t, c, i) ensures b == c {
        assert IsPrimary(s, b, i) && IsPrimary(s, c, i);
      }
    }
  }

  /** The primaries of identity `i` are the same in both states. */
  lemma SamePrimaries(s: State, t: State, i: nat)
    requires OnePrimary(s, i) && forall a :: IsPrimary(t, a, i) <==> IsPrimary(s, a, i)
    ensures OnePrimary(t, i)
  {
    var a :| IsPrimary(s, a, i);
    assert IsPrimary(t, a, i);
  }

  lemma NewIdentityIsSound(s: State, a: Account, newId: nat)
    requires Sound(s) && a !in s.rows && newId !in s.identities
    ensures Sound(NewIdentity(s, a, newId))
  {
    var t := NewIdentity(s, a, newId);
    forall i | i in t.identities ensures OnePrimary(t, i) {
      if i == newId {
        assert IsPrimary(t, a, i);
      } else {
        SamePrimaries(s, t, i);
      }
    }
  }

  lemma LinkIsSound(s: State, r: nat)
    requires Sound(s) && r in s.requests && s.requests[r].Linking? && s.requests[r].target !in s.rows
    ensures Sound(Next(s, Link(r)))
  {
    var t := Next(s, Link(r));
    assert Carries(s.requests[r], s.requests[r].identity);
    forall i | i in t.identities ensures OnePrimary(t, i) { SamePrimaries(s, t, i); }
  }

  lemma PromoteIsSound(s: State, r: nat)
    requires Sound(s) && r in s.requests && s.requests[r].Promoting?
    requires In(s, s.requests[r].target, s.requests[r].identity)
    ensures Sound(Next(s, Promote(r)))
  {
    var t := Next(s, Promote(r));
    var q := s.requests[r];
    forall i | i in t.identities ensures OnePrimary(t, i) {
      if i == q.identity {
        assert IsPrimary(t, q.target, i);
      } else {
        SamePrimaries(s, t, i);
      }
    }
  }

  lemma DeleteIsSound(s: State, r: nat)
    requires Sound(s) && r in s.requests && s.requests[r].Deleting?
    ensures Sound(Next(s, Delete(r)))
  {
    var t := Next(s, Delete(r));
    forall i | i in t.identities ensures OnePrimary(t, i) { SamePrimaries(s, t, i); }
  }

  lemma StepIsSound(s: State, action: Action)
    requires Sound(s)
    ensures Sound(Next(s, action))
  {
    hide Sound;
    var t := Next(s, action);
    match action {
      case SignUp(a, newId) => if t != s { NewIdentityIsSound(s, a, newId); }
      case Create(r, newId) => if t != s { NewIdentityIsSound(s, s.requests[r].account, newId); }
      case Link(r) => if t.rows != s.rows { LinkIsSound(s, r); } else { QuietStep(s, action); }
      case Promote(r) =>
        if r in s.requests && s.requests[r].Promoting? && In(s, s.requests[r].target, s.requests[r].identity) {
          PromoteIsSound(s, r);
        }
        else { QuietStep(s, action); }
      case Delete(r) => if r in s.requests && s.requests[r].Deleting? { DeleteIsSound(s, r); }
          else { QuietStep(s, action); }
      case _ => QuietStep(s, action);
    }
  }

  /** Steps that only move a request along. */
  lemma QuietStep(s: State, action: Action)
    requires Sound(s) && Next(s, action).rows == s.rows && Next(s, action).identities == s.identities
    ensures Sound(Next(s, action))
  {
    var t := Next(s, action);
    forall r, i | r in t.requests && Carries(t.requests[r], i) ensures i in t.identities {
      if r in s.requests && !s.requests[r].Ensuring? { assert Carries(s.requests[r], s.requests[r].identity); }
    }
    RequestsOnly(s, t);
  }

  /** In every run, with any interleaving of requests, every identity ever made
      keeps exactly one primary account (so it is never empty), and every linked
      account is in an identity that exists. */
  lemma {:induction false} IdentitiesStaySound(run: seq<Action>)
    ensures Sound(Play(EMPTY, run))
  {
    hide Next, Sound;
    if run == [] {
      EmptyIsSound();
    } else {
      IdentitiesStaySound(run[..|run| - 1]);
      StepIsSound(Play(EMPTY, run[..|run| - 1]), run[|run| - 1]);
    }
  }

  lemma EmptyIsSound()
    ensures Sound(EMPTY)
  {
  }

  // ------------------------------------------------------------ the store

  /** The handlers' statements on the tables, one method a statement or
      transaction; each leaves the state the step function says. */
  class Store {
    var rows: map<Account, Membership>
    var identities: set<nat>
    var requests: map<nat, Request>

    constructor ()
      ensures Snapshot() == EMPTY
    {
      rows, identities, requests := map[], {}, map[];
    }

    function Snapshot(): State
      reads this
    {
      State(rows, identities, requests)
    }

    /** ensureIdentity for a request whose account is `requests[r].account`. */
    method EnsureIdentity(r: nat, newId: nat) returns (identity: nat)
      requires r in requests && requests[r].Ensuring? && newId !in identities
      modifies this`rows, this`identities
      ensures Snapshot() == Next(old(Snapshot()), Create(r, newId))
      ensures In(Snapshot(), requests[r].account, identity)
      ensures var account := requests[r].account;
              if account in old(rows) then
                rows == old(rows) && identities == old(identities) && identity == rows[account].identity
              else
                && rows == old(rows)[account := Membership(newId, true)] && identities == old(identities) + {newId}
                && identity == newId
    {
      var account := requests[r].account;
      if account in rows {
        return rows[account].identity;
      }
      identities := identities + {newId};
      rows := rows[account := Membership(newId, true)];
      return newId;
    }

    method LinkAccount(r: nat) returns (linked: bool)
      requires r in requests && requests[r].Linking?
      modifies this`rows, this`requests
      ensures Snapshot() == Next(old(Snapshot()), Link(r))
      ensures linked <==> old(requests[r].target !in rows)
      ensures var q := old(requests[r]);
              && requests == old(requests) - {r}
              && rows == if linked then old(rows)[q.target := Membership(q.identity, false)] else old(rows)
    {
      var q := requests[r];
      requests := requests - {r};
      if q.target in rows {
        return false;
      }
      rows := rows[q.target := Membership(q.identity, false)];
      return true;
    }

    method PromoteAccount(r: nat) returns (promoted: bool)
      requires r in requests && requests[r].Promoting?
      modifies this`rows, this`requests
      ensures Snapshot() == Next(old(Snapshot()), Action.Promote(r))
      ensures promoted <==> old(In(Snapshot(), requests[r].target, requests[r].identity))
      ensures requests == old(requests) - {r} && rows.Keys == old(rows).Keys
      ensures var q := old(requests[r]);
              forall a :: a in rows ==>
                && rows[a].identity == old(rows)[a].identity
                && (rows[a].primary <==> if promoted && rows[a].identity == q.identity then a == q.target
                                         else old(rows)[a].primary)
    {
      var q := requests[r];
      requests := requests - {r};
      if q.target !in rows || rows[q.target].identity != q.identity {
        return false;
      }
      rows := SetPrimary(rows, q.identity, q.target);
      return true;
    }

    /** The check before an unlink, and the guarded DELETE. */
    method CheckUnlink(r: nat) returns (proceed: bool)
      requires r in requests && requests[r].Unlinking?
      modifies this`requests
      ensures Snapshot() == Next(old(Snapshot()), CheckPrimary(r))
      ensures var q := old(requests[r]);
              && (proceed <==> && q.target in rows && rows[q.target].identity == q.identity
                               && !rows[q.target].primary)
              && requests == if proceed then old(requests)[r := Deleting(q.identity, q.target)] else old(requests) - {r}
    {
      var q := requests[r];
      if q.target !in rows || rows[q.target].identity != q.identity || rows[q.target].primary {
        requests := requests - {r};
        return false;
      }
      requests := requests[r := Deleting(q.identity, q.target)];
      return true;
    }

    method UnlinkAccount(r: nat) returns (unlinked: bool)
      requires r in requests && requests[r].Deleting?
      modifies this`rows, this`requests
      ensures Snapshot() == Next(old(Snapshot()), Action.Delete(r))
      ensures unlinked <==> old(In(Snapshot(), requests[r].target, requests[r].identity)
          && !rows[requests[r].target].primary)
      ensures requests == old(requests) - {r}
      ensures rows == if unlinked then old(rows) - {old(requests[r]).target} else old(rows)
    {
      var q := requests[r];
      requests := requests - {r};
      if q.target !in rows || rows[q.target].identity != q.identity || rows[q.target].primary {
        return false;
      }
      rows := rows - {q.target};
      return true;
    }
  }

  // ------------------------------------------------------------ the guard

  /** The guard in the DELETE is what the invariant rests on: after the check, the
      account can have become primary, and deleting it then would leave its
      identity without one. */
  lemma UnguardedDeleteBreaksIff(s: State, r: nat)
    requires Sound(s) && r in s.requests && s.requests[r].Deleting?
    requires In(s, s.requests[r].target, s.requests[r].identity)
    ensures Sound(Stop(s, r).(rows := s.rows - {s.requests[r].target})) <==> !s.rows[s.requests[r].target].primary
  {
    var q := s.requests[r];
    var t := Stop(s, r).(rows := s.rows - {q.target});
    if s.rows[q.target].primary {
      assert IsPrimary(s, q.target, q.identity) && q.identity in t.identities;
      forall a ensures !IsPrimary(t, a, q.identity) {
        if IsPrimary(t, a, q.identity) { assert IsPrimary(s, a, q.identity); }
      }
      assert !OnePrimary(t, q.identity);
    } else {
      DeleteIsSound(s, r);
    }
  }

  lemma Then(run: seq<Action>, action: Action)
    ensures Play(EMPTY, run + [action]) == Next(Play(EMPTY, run), action)
  {
    assert (run + [action])[..|run|] == run;
  }

  /** And that happens: a run after which the account is primary and a request is
      about to delete it. */
  lemma PromotionCanOvertakeUnlink() returns (run: seq<Action>)
    ensures var s := Play(EMPTY, run);
            && 2 in s.requests && s.requests[2] == Deleting(7, 2)
            && 2 in s.rows && s.rows[2] == Membership(7, true)
  {
    hide Play;
    run := LinkedRun();
    var s := Play(EMPTY, run);
    Then(run, Begin(2, 1));
    var r1 := run + [Begin(2, 1)];
    Then(r1, Continue(2, ToUnlink, 2));
    var r2 := r1 + [Continue(2, ToUnlink, 2)];
    Then(r2, CheckPrimary(2));
    var r3 := r2 + [CheckPrimary(2)];
    assert Play(EMPTY, r3) == s.(requests := map[2 := Deleting(7, 2)]);
    Then(r3, Begin(3, 1));
    var r4 := r3 + [Begin(3, 1)];
    Then(r4, Continue(3, ToPromote, 2));
    var r5 := r4 + [Continue(3, ToPromote, 2)];
    Then(r5, Promote(3));
    run := r5 + [Promote(3)];
  }

  lemma LinkedRun() returns (run: seq<Action>)
    ensures Play(EMPTY, run).rows == map[1 := Membership(7, true), 2 := Membership(7, false)]
    ensures Play(EMPTY, run).requests == map[]
  {
    var r0: seq<Action> := [];
    Then(r0, SignUp(1, 7));
    var r1 := r0 + [SignUp(1, 7)];
    Then(r1, Begin(1, 1));
    var r2 := r1 + [Begin(1, 1)];
    Then(r2, Continue(1, ToLink, 2));
    var r3 := r2 + [Continue(1, ToLink, 2)];
    Then(r3, Link(1));
    run := r3 + [Link(1)];
  }
}
