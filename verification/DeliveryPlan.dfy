/** What one order turns into: consolidated items, item stacks, mails of at most
    twelve stacks, and the keyed steps the worker runs. */
module DeliveryPlan {
  import opened Common

  const UINT32: nat := 0x1_0000_0000
  const STACKS_PER_MAIL: nat := 12

  /** A row of an order or of a bundle: `quantity` is an unsigned 32-bit column. */
  datatype Item = Item(id: nat, quantity: nat)

  /** One attachment, `id:count` in the realm's command syntax. */
  datatype Stack = Stack(item: nat, count: nat)

  // ---------------------------------------------------------------- consolidation

  /** The quantity asked for `id`, without any wrap-around. */
  function TotalOf(items: seq<Item>, id: nat): nat {
    if items == [] then 0
    else TotalOf(items[..|items| - 1], id) + (if items[|items| - 1].id == id then items[|items| - 1].quantity else 0)
  }

  ghost predicate UniqueIds(items: seq<Item>) {
    forall i, j :: 0 <= i < j < |items| ==> items[i].id != items[j].id
  }

  /** The ids named by `items`, each once, in order of first appearance. */
  function FirstIds(items: seq<Item>): (ids: seq<nat>) {
    if items == [] then []
    else
      var ids := FirstIds(items[..|items| - 1]);
      var id := items[|items| - 1].id;
      if id in ids then ids else ids + [id]
  }

  /** Unsigned 32-bit addition of two values that each fit 32 bits. */
  function Add32(a: nat, b: nat): nat {
    if a + b < UINT32 then a + b else a + b - UINT32
  }

  /** The quantity of `id` as the 32-bit accumulator sees it. */
  function AccumulatedOf(items: seq<Item>, id: nat): nat {
    if items == [] then 0
    else
      var sum := AccumulatedOf(items[..|items| - 1], id);
      if items[|items| - 1].id == id then Add32(sum, items[|items| - 1].quantity) else sum
  }

  ghost predicate Fits32(items: seq<Item>) {
    forall i :: 0 <= i < |items| ==> items[i].quantity < UINT32
  }

  /** The accumulator holds the true total reduced modulo 2^32. */
  lemma {:induction false} AccumulatedIsTotalMod32(items: seq<Item>, id: nat)
    requires Fits32(items)
    ensures AccumulatedOf(items, id) < UINT32
    ensures exists wraps: nat {:trigger wraps * UINT32} ::
        TotalOf(items, id) == AccumulatedOf(items, id) + wraps * UINT32
  {
    if items == [] {
      assert TotalOf(items, id) == AccumulatedOf(items, id) + 0 * UINT32;
    } else {
      var init := items[..|items| - 1];
      AccumulatedIsTotalMod32(init, id);
      var wraps: nat :| TotalOf(init, id) == AccumulatedOf(init, id) + wraps * UINT32;
      assert (wraps + 1) * UINT32 == wraps * UINT32 + UINT32;
    }
  }

  /** One row per id, carrying what the accumulator holds for it. */
  function Consolidated(items: seq<Item>): (out: seq<Item>)
    ensures |out| == |FirstIds(items)|
  {
    var ids := FirstIds(items);
    seq(|ids|, i requires 0 <= i < |ids| => Item(ids[i], AccumulatedOf(items, ids[i])))
  }

  lemma {:induction false} FirstIdsShape(items: seq<Item>)
    ensures var ids := FirstIds(items);
            && (forall i, j :: 0 <= i < j < |ids| ==> ids[i] != ids[j])
            && (forall k :: 0 <= k < |items| ==> items[k].id in ids)
            && |ids| <= |items|
  {
    if items != [] {
      var init := items[..|items| - 1];
      FirstIdsShape(init);
      assert forall k :: 0 <= k < |init| ==> items[k] == init[k];
    }
  }

  /** Merging repeated ids into the first row that names them, in place. The
      running quantity is a 32-bit unsigned addition. */
  method ConsolidateBundleItems(items: seq<Item>) returns (out: seq<Item>)
    requires Fits32(items)
    ensures out == Consolidated(items)
    ensures UniqueIds(out) && forall id :: Named(out, id) <==> Named(items, id)
    ensures forall i :: 0 <= i < |out| ==> out[i].quantity == TotalOf(items, out[i].id) % 0x1_0000_0000
    ensures forall i, j :: 0 <= i < j < |out| ==> NamedBefore(items, out[i].id, out[j].id)
  {
    ConsolidatedIs(items);
    out := [];
    var positions: map<nat, nat> := map[];
    for n := 0 to |items|
      invariant out == Consolidated(items[..n])
      invariant forall id :: id in positions <==> id in FirstIds(items[..n])
      invariant forall id :: id in positions ==> positions[id] < |out| && out[positions[id]].id == id
    {
      var item := items[n];
      ghost var before, after := items[..n], items[..n + 1];
      assert after == before + [item];
      if item.id in positions {
        var index := positions[item.id];
        assert FirstIds(before)[index] == item.id;
        MergeStep(before, item, index);
        out := out[index := Item(item.id, Add32(out[index].quantity, item.quantity))];
      } else {
        AppendStep(before, item);
        positions := positions[item.id := |out|];
        out := out + [item];
      }
    }
    assert items[..|items|] == items;
  }

  predicate Named(items: seq<Item>, id: nat) {
    exists k :: 0 <= k < |items| && items[k].id == id
  }

  /** `one` is named, and `two` not up to there. */
  predicate NamedBefore(items: seq<Item>, one: nat, two: nat) {
    exists k :: 0 <= k < |items| && items[k].id == one && forall j :: 0 <= j <= k ==> items[j].id != two
  }

  lemma NamedSnoc(items: seq<Item>, item: Item, id: nat, other: nat)
    ensures Named(items + [item], id) <==> Named(items, id) || item.id == id
    ensures NamedBefore(items, id, other) ==> NamedBefore(items + [item], id, other)
    ensures Named(items, id) && !Named(items, other) ==> NamedBefore(items + [item], id, other)
  {
    var longer := items + [item];
    assert longer[|items|] == item && forall k :: 0 <= k < |items| ==> longer[k] == items[k];
  }

  /** Each id named is there, once, in the order in which they are first named. */
  lemma {:induction false} FirstIdsOrder(items: seq<Item>)
    ensures forall id :: id in FirstIds(items) <==> Named(items, id)
    ensures forall i, j :: 0 <= i < j < |FirstIds(items)| ==>
              NamedBefore(items, FirstIds(items)[i], FirstIds(items)[j])
  {
    hide Named, NamedBefore;
    if items == [] {
      assert forall id :: !Named(items, id) by { NothingNamed(); }
    } else {
      var init, last := items[..|items| - 1], items[|items| - 1];
      FirstIdsOrder(init);
      assert items == init + [last];
      forall id ensures id in FirstIds(items) <==> Named(items, id) { NamedSnoc(init, last, id, 0); }
      var was, ids := FirstIds(init), FirstIds(items);
      forall i, j | 0 <= i < j < |ids| ensures NamedBefore(items, ids[i], ids[j]) {
        NamedSnoc(init, last, ids[i], ids[j]);
        assert ids[i] == was[i] && ids[i] in was;
        if j < |was| {
          assert ids[j] == was[j] && NamedBefore(init, was[i], was[j]);
        } else {
          assert ids[j] !in was;
        }
      }
    }
  }

  lemma NothingNamed()
    ensures forall id :: !Named([], id)
  {
  }

  lemma ConsolidatedIs(items: seq<Item>)
    requires Fits32(items)
    ensures var out := Consolidated(items);
            && UniqueIds(out) && (forall id :: Named(out, id) <==> Named(items, id))
            && (forall i :: 0 <= i < |out| ==> out[i].quantity == TotalOf(items, out[i].id) % 0x1_0000_0000)
            && (forall i, j :: 0 <= i < j < |out| ==> NamedBefore(items, out[i].id, out[j].id))
  {
    hide NamedBefore;
    var out, ids := Consolidated(items), FirstIds(items);
    FirstIdsShape(items);
    FirstIdsOrder(items);
    forall id ensures Named(out, id) <==> id in ids {
      if id in ids {
        var i :| 0 <= i < |ids| && ids[i] == id;
        assert out[i].id == id;
      }
    }
    forall i | 0 <= i < |out| ensures out[i].quantity == TotalOf(items, out[i].id) % 0x1_0000_0000 {
      AccumulatedIsTotalMod32(items, out[i].id);
    }
  }

  lemma MergeStep(before: seq<Item>, item: Item, index: nat)
    requires index < |FirstIds(before)| && FirstIds(before)[index] == item.id
    ensures FirstIds(before + [item]) == FirstIds(before)
    ensures Consolidated(before + [item])
         == Consolidated(before)[index := Item(item.id, Add32(Consolidated(before)[index].quantity, item.quantity))]
  {
    FirstIdsShape(before);
    var after := before + [item];
    assert after[..|after| - 1] == before;
    var ids := FirstIds(before);
    assert FirstIds(after) == ids;
    var was, now := Consolidated(before), Consolidated(after);
    forall i | 0 <= i < |ids| && i != index
      ensures now[i] == was[i]
    {
      assert ids[i] != ids[index];
    }
  }

  lemma AppendStep(before: seq<Item>, item: Item)
    requires item.id !in FirstIds(before) && item.quantity < UINT32
    ensures FirstIds(before + [item]) == FirstIds(before) + [item.id]
    ensures Consolidated(before + [item]) == Consolidated(before) + [item]
  {
    FirstIdsShape(before);
    var after := before + [item];
    assert after[..|after| - 1] == before;
    forall i | 0 <= i < |FirstIds(after)|
      ensures Consolidated(after)[i] == (Consolidated(before) + [item])[i]
    {
      var id := FirstIds(after)[i];
      if item.id == id { AccumulatedOfAbsent(before, id); }
    }
  }

  /** Exactly when merging keeps what was ordered: the true total of every id
      still fits the 32-bit column. Ids stay unique either way. */
  lemma ConsolidationKeepsTotals(items: seq<Item>)
    requires Fits32(items)
    ensures UniqueIds(Consolidated(items))
    ensures (forall id :: TotalOf(Consolidated(items), id) == TotalOf(items, id))
       <==> (forall id :: TotalOf(items, id) < UINT32)
  {
    var ids, out := FirstIds(items), Consolidated(items);
    FirstIdsShape(items);
    forall id
      ensures TotalOf(out, id) == TotalOf(items, id) <==> TotalOf(items, id) < UINT32
    {
      AccumulatedIsTotalMod32(items, id);
      if id in ids {
        var i :| 0 <= i < |ids| && ids[i] == id;
        TotalOfUnique(out, i);
      } else {
        TotalOfAbsent(out, id);
        TotalOfAbsent(items, id);
      }
    }
  }

  lemma {:induction false} AccumulatedOfAbsent(items: seq<Item>, id: nat)
    requires id !in FirstIds(items)
    ensures AccumulatedOf(items, id) == 0
  {
    if items != [] {
      AccumulatedOfAbsent(items[..|items| - 1], id);
    }
  }

  lemma {:induction false} TotalOfAbsent(items: seq<Item>, id: nat)
    requires forall i :: 0 <= i < |items| ==> items[i].id != id
    ensures TotalOf(items, id) == 0
  {
    if items != [] {
      TotalOfAbsent(items[..|items| - 1], id);
    }
  }

  lemma {:induction false} TotalOfUnique(items: seq<Item>, i: nat)
    requires UniqueIds(items) && i < |items|
    ensures TotalOf(items, items[i].id) == items[i].quantity
  {
    var last := |items| - 1;
    if i == last {
      TotalOfAbsent(items[..last], items[i].id);
    } else {
      assert items[..last][i] == items[i];
      TotalOfUnique(items[..last], i);
    }
  }

  // ---------------------------------------------------------------- stacks

  function MaxStack(stackable: int): (m: nat)
    ensures m >= 1
  {
    if stackable < 1 then 1 else stackable
  }

  function SplitStacks(id: nat, quantity: nat, maxStack: nat): (stacks: seq<Stack>)
    requires maxStack >= 1
    decreases quantity
  {
    if quantity == 0 then []
    else
      var count := if quantity > maxStack then maxStack else quantity;
      [Stack(id, count)] + SplitStacks(id, quantity - count, maxStack)
  }

  function CountOf(stacks: seq<Stack>, id: nat): nat {
    if stacks == [] then 0
    else (if stacks[0].item == id then stacks[0].count else 0) + CountOf(stacks[1..], id)
  }

  lemma {:induction false} CountOfConcat(a: seq<Stack>, b: seq<Stack>, id: nat)
    ensures CountOf(a + b, id) == CountOf(a, id) + CountOf(b, id)
  {
    if a == [] {
      assert a + b == b;
    } else {
      assert (a + b)[0] == a[0] && (a + b)[1..] == a[1..] + b;
      CountOfConcat(a[1..], b, id);
    }
  }

  lemma OneMore(n: int, k: nat)
    ensures (n + 1) * k == n * k + k
  {
  }

  /** The first stack and the rest. */
  lemma SplitFirst(id: nat, quantity: nat, maxStack: nat) returns (count: nat, rest: seq<Stack>)
    requires maxStack >= 1 && quantity > 0
    ensures count == (if quantity > maxStack then maxStack else quantity) && 1 <= count <= maxStack
    ensures rest == SplitStacks(id, quantity - count, maxStack)
    ensures var s := SplitStacks(id, quantity, maxStack); s == [Stack(id, count)] + rest && s[1..] == rest
  {
    count := if quantity > maxStack then maxStack else quantity;
    rest := SplitStacks(id, quantity - count, maxStack);
  }

  /** The shape of a split: full stacks of `maxStack` followed by one rest of
      1..maxStack, adding up to the quantity, in exactly ceil(quantity/maxStack)
      stacks. */
  lemma {:induction false} SplitShape(id: nat, quantity: nat, maxStack: nat)
    requires maxStack >= 1
    ensures var s := SplitStacks(id, quantity, maxStack);
            && (forall i :: 0 <= i < |s| ==> s[i].item == id && 1 <= s[i].count <= maxStack)
            && (forall i :: 0 <= i < |s| - 1 ==> s[i].count == maxStack)
            && (|s| - 1) * maxStack < quantity <= |s| * maxStack
            && CountOf(s, id) == quantity
            && forall other :: other != id ==> CountOf(s, other) == 0
    decreases quantity
  {
    SplitLength(id, quantity, maxStack);
    if quantity > 0 {
      hide SplitStacks;
      var count, rest := SplitFirst(id, quantity, maxStack);
      SplitShape(id, quantity - count, maxStack);
      SplitEmpty(id, quantity - count, maxStack);
    }
  }

  lemma SplitEmpty(id: nat, quantity: nat, maxStack: nat)
    requires maxStack >= 1
    ensures SplitStacks(id, quantity, maxStack) == [] <==> quantity == 0
  {
  }

  lemma {:induction false} SplitLength(id: nat, quantity: nat, maxStack: nat)
    requires maxStack >= 1
    ensures var n := |SplitStacks(id, quantity, maxStack)|; (n - 1) * maxStack < quantity <= n * maxStack
    decreases quantity
  {
    if quantity == 0 {
      assert (0 - 1) * maxStack < 0;
    } else {
      hide SplitStacks;
      var count, rest := SplitFirst(id, quantity, maxStack);
      SplitLength(id, quantity - count, maxStack);
      SplitEmpty(id, quantity - count, maxStack);
      OneMore(|rest|, maxStack);
      OneMore(|rest| - 1, maxStack);
    }
  }

  /** A quantity in stacks of the `stackable` column's size, which counts as 1
      when it is below: all full but the last. */
  ghost predicate InStacks(stacks: seq<Stack>, id: nat, quantity: nat, stackable: int) {
    var size := if stackable < 1 then 1 else stackable;
    && CountOf(stacks, id) == quantity
    && (forall i :: 0 <= i < |stacks| ==> stacks[i].item == id && 1 <= stacks[i].count <= size)
    && (forall i :: 0 <= i < |stacks| - 1 ==> stacks[i].count == size)
  }

  lemma SplitIsInStacks(id: nat, quantity: nat, stackable: int)
    ensures InStacks(SplitStacks(id, quantity, MaxStack(stackable)), id, quantity, stackable)
  {
    SplitShape(id, quantity, MaxStack(stackable));
  }

  method SplitItemStacks(id: nat, quantity: nat, stackable: int) returns (stacks: seq<Stack>)
    ensures stacks == SplitStacks(id, quantity, MaxStack(stackable))
    ensures InStacks(stacks, id, quantity, stackable)
  {
    hide InStacks;
    SplitIsInStacks(id, quantity, stackable);
    if quantity == 0 {
      return [];
    }
    var limit := stackable;
    if limit < 1 {
      limit := 1;
    }
    var maxStack: nat := limit;
    var remaining := quantity;
    stacks := [];
    while remaining > 0
      invariant remaining >= 0
      invariant stacks + SplitStacks(id, remaining, maxStack) == SplitStacks(id, quantity, maxStack)
    {
      var count := remaining;
      if count > maxStack {
        count := maxStack;
      }
      assert stacks + SplitStacks(id, remaining, maxStack)
          == (stacks + [Stack(id, count)]) + SplitStacks(id, remaining - count, maxStack);
      stacks := stacks + [Stack(id, count)];
      remaining := remaining - count;
    }
  }

  // ---------------------------------------------------------------- mails

  function Chunk(stacks: seq<Stack>): (mails: seq<seq<Stack>>) {
    if stacks == [] then []
    else
      var end := if |stacks| < STACKS_PER_MAIL then |stacks| else STACKS_PER_MAIL;
      [stacks[..end]] + Chunk(stacks[end..])
  }

  function Flatten(mails: seq<seq<Stack>>): seq<Stack> {
    if mails == [] then [] else mails[0] + Flatten(mails[1..])
  }

  /** Chunking loses, repeats and reorders nothing; every mail carries 1 to 12
      stacks and only the last may be short. */
  lemma {:induction false} ChunkShape(stacks: seq<Stack>)
    ensures var mails := Chunk(stacks);
            && Flatten(mails) == stacks
            && (forall i :: 0 <= i < |mails| ==> 1 <= |mails[i]| <= 12)
            && (forall i :: 0 <= i < |mails| - 1 ==> |mails[i]| == 12)
            && |mails| == (|stacks| + 11) / 12
    decreases |stacks|
  {
    if stacks != [] {
      var end := if |stacks| < STACKS_PER_MAIL then |stacks| else STACKS_PER_MAIL;
      ChunkShape(stacks[end..]);
      var mails := Chunk(stacks);
      assert mails[0] == stacks[..end] && mails[1..] == Chunk(stacks[end..]);
      assert stacks[..end] + stacks[end..] == stacks;
    }
  }

  method ChunkMailStacks(stacks: seq<Stack>) returns (messages: seq<seq<Stack>>)
    ensures messages == Chunk(stacks)
  {
    messages := [];
    var start := 0;
    while start < |stacks|
      invariant 0 <= start
      invariant messages + Chunk(if start < |stacks| then stacks[start..] else []) == Chunk(stacks)
    {
      var end := start + 12;
      if end > |stacks| {
        end := |stacks|;
      }
      ghost var left := stacks[start..];
      assert left[..end - start] == stacks[start..end] && left[end - start..] == stacks[end..];
      assert Chunk(left) == [stacks[start..end]] + Chunk(stacks[end..]);
      messages := messages + [stacks[start..end]];
      start := start + 12;
    }
  }

  // ---------------------------------------------------------------- step keys

  function Digit(d: nat): (c: char)
    requires d < 10
  {
    ['0', '1', '2', '3', '4', '5', '6', '7', '8', '9'][d]
  }

  function Decimal(n: nat): (s: string)
    ensures |s| >= 1
  {
    if n < 10 then [Digit(n)] else Decimal(n / 10) + [Digit(n % 10)]
  }

  function DigitValue(c: char): nat {
    if '0' <= c <= '9' then c as nat - '0' as nat else 0
  }

  function DecimalValue(s: string): nat {
    if s == "" then 0 else 10 * DecimalValue(s[..|s| - 1]) + DigitValue(s[|s| - 1])
  }

  /** Reading back what `%d` printed. */
  lemma {:induction false} DecimalRoundTrip(n: nat)
    ensures DecimalValue(Decimal(n)) == n
  {
    var s := Decimal(n);
    if n < 10 {
      assert s[..0] == [];
    } else {
      DecimalRoundTrip(n / 10);
      assert s[..|s| - 1] == Decimal(n / 10);
    }
  }

  lemma {:induction false} LeadingZero(s: string)
    ensures DecimalValue(['0'] + s) == DecimalValue(s)
  {
    var padded := ['0'] + s;
    if s == [] {
      assert padded[..0] == [];
    } else {
      LeadingZero(s[..|s| - 1]);
      assert padded[..|padded| - 1] == ['0'] + s[..|s| - 1];
    }
  }

  /** `%02d` */
  function TwoDigits(number: nat): string {
    if number < 10 then ['0'] + Decimal(number) else Decimal(number)
  }

  function ItemsKey(number: nat): string {
    "items-" + TwoDigits(number)
  }

  lemma ItemsKeyInjective(m: nat, n: nat)
    ensures ItemsKey(m) == ItemsKey(n) ==> m == n
  {
    DecimalRoundTrip(m);
    DecimalRoundTrip(n);
    LeadingZero(Decimal(m));
    LeadingZero(Decimal(n));
    assert ItemsKey(m)[6..] == TwoDigits(m) && ItemsKey(n)[6..] == TwoDigits(n);
  }

  /** A mail's key is "items-" and its number, in two digits at least. */
  lemma ItemsKeyReadsBack(number: nat)
    ensures var key := ItemsKey(number);
            |key| >= 8 && key[..6] == "items-" && DecimalValue(key[6..]) == number && (number < 100 ==> |key| == 8)
  {
    DecimalRoundTrip(number);
    LeadingZero(Decimal(number));
    assert ItemsKey(number)[6..] == TwoDigits(number);
    if number >= 10 { TwoPlaces(number); }
  }

  lemma TwoPlaces(number: nat)
    requires number >= 10
    ensures |Decimal(number)| >= 2 && (number < 100 ==> |Decimal(number)| == 2)
  {
    if number < 100 { assert number / 10 < 10; }
  }

  predicate KeyChar(c: char) {
    'a' <= c <= 'z' || '0' <= c <= '9' || c == '-'
  }

  /** The keys the reconciliation endpoint accepts. */
  predicate ValidOrderStepKey(key: string) {
    0 < |key| <= 64 && forall i :: 0 <= i < |key| ==> KeyChar(key[i])
  }

  lemma {:induction false} DecimalShape(n: nat, width: nat)
    requires n < Pow10(width) && width >= 1
    ensures |Decimal(n)| <= width && forall i :: 0 <= i < |Decimal(n)| ==> '0' <= Decimal(n)[i] <= '9'
    decreases width
  {
    if n >= 10 {
      assert Pow10(1) == 10;
      assert n / 10 < Pow10(width - 1);
      DecimalShape(n / 10, width - 1);
    }
  }

  lemma {:induction false} PowPositive(k: nat)
    ensures Pow10(k) >= 1
  {
    if k > 0 { PowPositive(k - 1); }
  }

  function Pow10(k: nat): nat { if k == 0 then 1 else 10 * Pow10(k - 1) }

  // ---------------------------------------------------------------- the plan

  datatype Command =
    | ItemMail(stacks: seq<Stack>)
    | CharacterLevel(level: nat)
    | MoneyMail(copper: nat)
    | RaceChange
    | FactionChange
    | Level80Training

  datatype PlanStep = PlanStep(key: string, kind: string, command: Command)

  datatype Service = NoService | Supported(command: Command) | Unsupported

  /** What an order promises, as it was snapshotted at purchase. `items` is in
      the order the worker reads it back, by item id. */
  datatype Goods = Goods(items: seq<Item>, level: nat, gold: nat, service: string)

  /** The `stackable` column of the world's item table. */
  type StackTable = map<nat, int>

  function ServiceCommand(action: string): Service {
    if action == "" then NoService
    else if action == "race_change" then Supported(RaceChange)
    else if action == "faction_change" then Supported(FactionChange)
    else Unsupported
  }

  function Attachments(items: seq<Item>, table: StackTable): seq<Stack>
    requires forall i :: 0 <= i < |items| ==> items[i].id in table
  {
    if items == [] then []
    else
      var last := items[|items| - 1];
      Attachments(items[..|items| - 1], table) + SplitStacks(last.id, last.quantity, MaxStack(table[last.id]))
  }

  function MailSteps(mails: seq<seq<Stack>>): (steps: seq<PlanStep>)
    ensures |steps| == |mails|
  {
    seq(|mails|, i requires 0 <= i < |mails| => PlanStep(ItemsKey(i + 1), "item_mail", ItemMail(mails[i])))
  }

  function LevelSteps(goods: Goods): seq<PlanStep> {
    if goods.level > 0 then [PlanStep("level", "character_level", CharacterLevel(goods.level))] else []
  }

  function MoneySteps(goods: Goods): seq<PlanStep> {
    if goods.gold > 0 then [PlanStep("money", "money_mail", MoneyMail(goods.gold * 10000))] else []
  }

  function ServiceSteps(goods: Goods): seq<PlanStep> {
    match ServiceCommand(goods.service)
    case Supported(command) => [PlanStep("service", "character_service", command)]
    case _ => []
  }

  function TrainingSteps(goods: Goods): seq<PlanStep> {
    if goods.level == 80 then [PlanStep("training", "level_80_training", Level80Training)] else []
  }

  /** The steps after the mails. */
  function TailSteps(goods: Goods): seq<PlanStep> {
    LevelSteps(goods) + MoneySteps(goods) + ServiceSteps(goods) + TrainingSteps(goods)
  }

  /** Where a tail step stands among the four fixed keys. */
  function TailRank(key: string): nat {
    if key == "level" then 1 else if key == "money" then 2 else if key == "service" then 3
    else if key == "training" then 4 else 0
  }

  lemma TailShape(goods: Goods)
    ensures var tail := TailSteps(goods);
            && |tail| <= 4
            && (forall i :: 0 <= i < |tail| ==> TailRank(tail[i].key) > 0 && !tail[i].command.ItemMail?)
            && (forall i, j :: 0 <= i < j < |tail| ==> TailRank(tail[i].key) < TailRank(tail[j].key))
  {
    var l, m, v, t := LevelSteps(goods), MoneySteps(goods), ServiceSteps(goods), TrainingSteps(goods);
    assert forall i :: 0 <= i < |l| ==> TailRank(l[i].key) == 1;
    assert forall i :: 0 <= i < |m| ==> TailRank(m[i].key) == 2;
    assert forall i :: 0 <= i < |v| ==> TailRank(v[i].key) == 3;
    assert forall i :: 0 <= i < |t| ==> TailRank(t[i].key) == 4;
  }

  lemma TailKeyShape(key: string)
    requires TailRank(key) > 0
    ensures ValidOrderStepKey(key) && forall n :: key != ItemsKey(n)
  {
    forall n ensures key != ItemsKey(n) {
      assert ItemsKey(n)[0] == 'i' && key[0] != 'i';
    }
  }

  /** The steps of one delivery, or None when the worker refuses to plan it. */
  function PlanFor(goods: Goods, table: StackTable): Option<seq<PlanStep>> {
    if exists i :: 0 <= i < |goods.items| && goods.items[i].id !in table then None
    else if ServiceCommand(goods.service) == Unsupported then None
    else Some(MailSteps(Chunk(Attachments(goods.items, table))) + TailSteps(goods))
  }

  method ReadAttachments(items: seq<Item>, table: StackTable) returns (attachments: Option<seq<Stack>>)
    ensures attachments.None? <==> exists i :: 0 <= i < |items| && items[i].id !in table
    ensures attachments.Some? ==> attachments.value == Attachments(items, table)
  {
    var all := [];
    for row := 0 to |items|
      invariant forall i :: 0 <= i < row ==> items[i].id in table
      invariant all == Attachments(items[..row], table)
    {
      var item := items[row];
      if item.id !in table {
        return None;
      }
      var stacks := SplitItemStacks(item.id, item.quantity, table[item.id]);
      assert items[..row + 1][..row] == items[..row];
      all := all + stacks;
    }
    assert items[..|items|] == items;
    return Some(all);
  }

  method MailCommands(mails: seq<seq<Stack>>) returns (commands: seq<PlanStep>)
    ensures commands == MailSteps(mails)
  {
    commands := [];
    for index := 0 to |mails|
      invariant commands == MailSteps(mails)[..index]
    {
      commands := commands + [PlanStep(ItemsKey(index + 1), "item_mail", ItemMail(mails[index]))];
    }
  }

  /** Appending a step only when the order asks for it. */
  method AppendIf(commands: seq<PlanStep>, wanted: bool, step: PlanStep) returns (extended: seq<PlanStep>)
    ensures extended == commands + if wanted then [step] else []
  {
    extended := commands;
    if wanted {
      extended := extended + [step];
    }
  }

  /** Everything after the mails; None for an unknown service. */
  method TailCommands(goods: Goods) returns (commands: Option<seq<PlanStep>>)
    ensures commands == if ServiceCommand(goods.service).Unsupported? then None else Some(TailSteps(goods))
    ensures commands == None
        <==> goods.service != "" && goods.service != "race_change" && goods.service != "faction_change"
    ensures commands.Some? ==>
              && Copper(commands.value) == goods.gold * 10000
              && forall command: Command ::
                  !command.ItemMail? ==> Times(commands.value, command) == Wanted(goods, command)
  {
    hide Wanted, Times, Copper;
    var level := AppendIf([], goods.level > 0, PlanStep("level", "character_level", CharacterLevel(goods.level)));
    var money := AppendIf([], goods.gold > 0, PlanStep("money", "money_mail", MoneyMail(goods.gold * 10000)));
    var service := ServiceCommand(goods.service);
    if service.Unsupported? {
      return None;
    }
    var extra := if service.Supported? then [PlanStep("service", "character_service", service.command)] else [];
    var training := AppendIf([], goods.level == 80, PlanStep("training", "level_80_training", Level80Training));
    forall command: Command | !command.ItemMail? ensures Times(TailSteps(goods), command) == Wanted(goods, command) {
      TailRuns(goods, command);
    }
    TailRuns(goods, RaceChange);
    assert level == LevelSteps(goods) && money == MoneySteps(goods) && extra == ServiceSteps(goods)
        && training == TrainingSteps(goods);
    return Some(level + money + extra + training);
  }

  method BuildPlan(goods: Goods, table: StackTable) returns (plan: Option<seq<PlanStep>>)
    ensures plan == PlanFor(goods, table)
    ensures plan == None
       <==> (exists item :: item in goods.items && item.id !in table)
            || (goods.service != "" && goods.service != "race_change" && goods.service != "faction_change")
    ensures plan.Some? ==>
              && (forall id :: MailedTotal(plan.value, id) == TotalOf(goods.items, id))
              && (forall command: Command ::
                  !command.ItemMail? ==> Times(plan.value, command) == Wanted(goods, command))
  {
    PlanIsRefusedIff(goods, table);
    PromiseKept(goods, table);
    hide Wanted, Times, MailedTotal, TotalOf;
    var attachments := ReadAttachments(goods.items, table);
    if attachments.None? {
      return None;
    }
    var mails := ChunkMailStacks(attachments.value);
    var commands := MailCommands(mails);
    var tail := TailCommands(goods);
    if tail.None? {
      return None;
    }
    return Some(commands + tail.value);
  }

  ghost predicate DistinctKeys(plan: seq<PlanStep>) {
    forall i, j :: 0 <= i < j < |plan| ==> plan[i].key != plan[j].key
  }

  /** No two steps of one plan share a row of portal_order_steps. */
  lemma PlanKeysDistinct(goods: Goods, table: StackTable)
    requires PlanFor(goods, table).Some?
    ensures DistinctKeys(PlanFor(goods, table).value)
  {
    var mails, tail := Chunk(Attachments(goods.items, table)), TailSteps(goods);
    TailShape(goods);
    forall i | 0 <= i < |tail| ensures forall n :: tail[i].key != ItemsKey(n) {
      TailKeyShape(tail[i].key);
    }
    assert DistinctKeys(tail);
    AssembledKeysDistinct(mails, tail);
  }

  lemma AssembledKeysDistinct(mails: seq<seq<Stack>>, tail: seq<PlanStep>)
    requires DistinctKeys(tail)
    requires forall i, n :: 0 <= i < |tail| ==> tail[i].key != ItemsKey(n)
    ensures DistinctKeys(MailSteps(mails) + tail)
  {
    var plan := MailSteps(mails) + tail;
    forall i, j | 0 <= i < j < |plan|
      ensures plan[i].key != plan[j].key
    {
      if j < |mails| {
        ItemsKeyInjective(i + 1, j + 1);
      }
    }
  }

  lemma ItemsKeyReconcilable(number: nat)
    requires number <= Pow10(19)
    ensures ValidOrderStepKey(ItemsKey(number))
  {
    assert Pow10(20) == 10 * Pow10(19);
    PowPositive(19);
    DecimalShape(number, 20);
    PrefixedReconcilable(TwoDigits(number));
  }

  lemma PrefixedReconcilable(digits: string)
    requires |digits| <= 21 && forall i :: 0 <= i < |digits| ==> KeyChar(digits[i])
    ensures ValidOrderStepKey("items-" + digits)
  {
    var prefix := "items-";
    assert KeyChar('i') && KeyChar('t') && KeyChar('e') && KeyChar('m') && KeyChar('s') && KeyChar('-');
    assert forall i :: 0 <= i < |prefix| ==> KeyChar(prefix[i]);
    forall i | 0 <= i < |prefix + digits| ensures KeyChar((prefix + digits)[i]) {
      if i >= |prefix| { assert (prefix + digits)[i] == digits[i - |prefix|]; }
    }
  }

  /** Staff can address every step a plan creates: its key passes the
      reconciliation endpoint's own check (mail numbers are 64-bit ints). */
  lemma PlanKeysReconcilable(goods: Goods, table: StackTable)
    requires PlanFor(goods, table).Some? && |PlanFor(goods, table).value| < Pow10(19)
    ensures forall i :: 0 <= i < |PlanFor(goods, table).value| ==> ValidOrderStepKey(PlanFor(goods, table).value[i].key)
  {
    hide Decimal, TwoDigits, ItemsKey, ValidOrderStepKey;
    var mails, tail := MailSteps(Chunk(Attachments(goods.items, table))), TailSteps(goods);
    TailShape(goods);
    forall i | 0 <= i < |mails| ensures ValidOrderStepKey(mails[i].key) {
      ItemsKeyReconcilable(i + 1);
    }
    forall i | 0 <= i < |tail| ensures ValidOrderStepKey(tail[i].key) {
      TailKeyShape(tail[i].key);
    }
  }

  // ---------------------------------------------------------------- totals

  function MailedBy(command: Command, id: nat): nat {
    if command.ItemMail? then CountOf(command.stacks, id) else 0
  }

  /** How many pieces of `id` the steps of a plan put into the mail. */
  function MailedTotal(plan: seq<PlanStep>, id: nat): nat {
    if plan == [] then 0 else MailedBy(plan[0].command, id) + MailedTotal(plan[1..], id)
  }

  lemma {:induction false} MailedTotalConcat(a: seq<PlanStep>, b: seq<PlanStep>, id: nat)
    ensures MailedTotal(a + b, id) == MailedTotal(a, id) + MailedTotal(b, id)
  {
    if a == [] {
      assert a + b == b;
    } else {
      assert (a + b)[0] == a[0] && (a + b)[1..] == a[1..] + b;
      MailedTotalConcat(a[1..], b, id);
    }
  }

  lemma {:induction false} AttachmentsTotal(items: seq<Item>, table: StackTable, id: nat)
    requires forall i :: 0 <= i < |items| ==> items[i].id in table
    ensures CountOf(Attachments(items, table), id) == TotalOf(items, id)
  {
    if items != [] {
      var init, last := items[..|items| - 1], items[|items| - 1];
      AttachmentsTotal(init, table, id);
      SplitShape(last.id, last.quantity, MaxStack(table[last.id]));
      CountOfConcat(Attachments(init, table), SplitStacks(last.id, last.quantity, MaxStack(table[last.id])), id);
    }
  }

  lemma {:induction false} MailStepsTotal(mails: seq<seq<Stack>>, k: nat, id: nat)
    requires k <= |mails|
    ensures MailedTotal(MailSteps(mails)[k..], id) == CountOf(Flatten(mails[k..]), id)
    decreases |mails| - k
  {
    var steps := MailSteps(mails);
    if k < |mails| {
      MailStepsTotal(mails, k + 1, id);
      assert steps[k..][1..] == steps[k + 1..] && mails[k..][1..] == mails[k + 1..];
      CountOfConcat(mails[k], Flatten(mails[k + 1..]), id);
    }
  }

  /** Splitting and chunking change nothing a player can count: the mails of a
      plan carry exactly the ordered quantity of every item. */
  lemma PlanMailsWhatWasOrdered(goods: Goods, table: StackTable, id: nat)
    requires PlanFor(goods, table).Some?
    ensures MailedTotal(PlanFor(goods, table).value, id) == TotalOf(goods.items, id)
  {
    var stacks := Attachments(goods.items, table);
    var mails := Chunk(stacks);
    MailedTotalConcat(MailSteps(mails), TailSteps(goods), id);
    assert MailSteps(mails)[0..] == MailSteps(mails) && mails[0..] == mails;
    MailStepsTotal(mails, 0, id);
    ChunkShape(stacks);
    AttachmentsTotal(goods.items, table, id);
    TailShape(goods);
    TailMailsNothing(TailSteps(goods), id);
  }

  lemma {:induction false} TailMailsNothing(steps: seq<PlanStep>, id: nat)
    requires forall i :: 0 <= i < |steps| ==> !steps[i].command.ItemMail?
    ensures MailedTotal(steps, id) == 0
  {
    if steps != [] {
      TailMailsNothing(steps[1..], id);
    }
  }

  // ------------------------------------------------------------ what a plan promises

  /** How many steps run `command`. */
  function Times(plan: seq<PlanStep>, command: Command): nat {
    if plan == [] then 0 else (if plan[0].command == command then 1 else 0) + Times(plan[1..], command)
  }

  /** The copper its steps put into the mail. */
  function Copper(plan: seq<PlanStep>): nat {
    if plan == [] then 0
    else (if plan[0].command.MoneyMail? then plan[0].command.copper else 0) + Copper(plan[1..])
  }

  lemma {:induction false} TimesConcat(a: seq<PlanStep>, b: seq<PlanStep>, command: Command)
    ensures Times(a + b, command) == Times(a, command) + Times(b, command)
    ensures Copper(a + b) == Copper(a) + Copper(b)
  {
    if a == [] {
      assert a + b == b;
    } else {
      assert (a + b)[0] == a[0] && (a + b)[1..] == a[1..] + b;
      TimesConcat(a[1..], b, command);
    }
  }

  lemma {:induction false} MailsOnly(steps: seq<PlanStep>, command: Command)
    requires forall i :: 0 <= i < |steps| ==> steps[i].command.ItemMail?
    requires !command.ItemMail?
    ensures Times(steps, command) == 0 && Copper(steps) == 0
  {
    if steps != [] { MailsOnly(steps[1..], command); }
  }

  /** The commands other than item mails that an order asks for, and how often. */
  function Wanted(goods: Goods, command: Command): nat {
    match command
    case CharacterLevel(n) => if n == goods.level && goods.level > 0 then 1 else 0
    case MoneyMail(copper) => if copper == goods.gold * 10000 && goods.gold > 0 then 1 else 0
    case RaceChange => if goods.service == "race_change" then 1 else 0
    case FactionChange => if goods.service == "faction_change" then 1 else 0
    case Level80Training => if goods.level == 80 then 1 else 0
    case ItemMail(_) => 0
  }

  /** A plan runs every command the order asks for and no other: the level once
      and only the ordered one, the gold once and in full, the service asked for,
      and the training exactly for level 80. */
  lemma PlanRunsWhatWasOrdered(goods: Goods, table: StackTable, command: Command)
    requires PlanFor(goods, table).Some? && !command.ItemMail?
    ensures Times(PlanFor(goods, table).value, command) == Wanted(goods, command)
    ensures Copper(PlanFor(goods, table).value) == goods.gold * 10000
  {
    var mails := MailSteps(Chunk(Attachments(goods.items, table)));
    TimesConcat(mails, TailSteps(goods), command);
    MailsOnly(mails, command);
    TailRuns(goods, command);
  }

  lemma TailRuns(goods: Goods, command: Command)
    requires ServiceCommand(goods.service) != Unsupported && !command.ItemMail?
    ensures Times(TailSteps(goods), command) == Wanted(goods, command)
    ensures Copper(TailSteps(goods)) == goods.gold * 10000
  {
    var l, m, v, t := LevelSteps(goods), MoneySteps(goods), ServiceSteps(goods), TrainingSteps(goods);
    TimesConcat(l + m + v, t, command);
    TimesConcat(l + m, v, command);
    TimesConcat(l, m, command);
    PartRuns(goods, command);
  }

  lemma PartRuns(goods: Goods, command: Command)
    requires ServiceCommand(goods.service) != Unsupported && !command.ItemMail?
    ensures Times(LevelSteps(goods), command) + Times(MoneySteps(goods), command) + Times(ServiceSteps(goods), command)
            + Times(TrainingSteps(goods), command) == Wanted(goods, command)
    ensures Copper(MoneySteps(goods)) == goods.gold * 10000
    ensures Copper(LevelSteps(goods)) == Copper(ServiceSteps(goods)) == Copper(TrainingSteps(goods)) == 0
  {
    hide Times, Copper;
    OneStep(LevelSteps(goods), command);
    OneStep(MoneySteps(goods), command);
    OneStep(ServiceSteps(goods), command);
    OneStep(TrainingSteps(goods), command);
  }

  lemma OneStep(steps: seq<PlanStep>, command: Command)
    requires |steps| <= 1
    ensures Times(steps, command) == if |steps| == 1 && steps[0].command == command then 1 else 0
    ensures Copper(steps) == if |steps| == 1 && steps[0].command.MoneyMail? then steps[0].command.copper else 0
  {
    if |steps| == 1 { assert steps[1..] == []; }
  }

  lemma PromiseKept(goods: Goods, table: StackTable)
    ensures var plan := PlanFor(goods, table);
            plan.Some? ==>
              && (forall id :: MailedTotal(plan.value, id) == TotalOf(goods.items, id))
              && (forall command: Command ::
                  !command.ItemMail? ==> Times(plan.value, command) == Wanted(goods, command))
  {
    hide PlanFor, Wanted, Times, MailedTotal, TotalOf;
    if PlanFor(goods, table).Some? {
      forall id ensures MailedTotal(PlanFor(goods, table).value, id) == TotalOf(goods.items, id) {
        PlanMailsWhatWasOrdered(goods, table, id);
      }
      forall command: Command | !command.ItemMail?
        ensures Times(PlanFor(goods, table).value, command) == Wanted(goods, command)
      {
        PlanRunsWhatWasOrdered(goods, table, command);
      }
    }
  }

  /** The worker refuses to plan exactly an order with an item the world does not
      have or a service it does not know. */
  lemma PlanIsRefusedIff(goods: Goods, table: StackTable)
    ensures PlanFor(goods, table) == None
       <==> (exists item :: item in goods.items && item.id !in table)
            || (goods.service != "" && goods.service != "race_change" && goods.service != "faction_change")
  {
    if i: int :| 0 <= i < |goods.items| && goods.items[i].id !in table { assert goods.items[i] in goods.items; }
  }

  /** Where a command stands in a plan. */
  function Place(command: Command): nat {
    match command
    case ItemMail(_) => 0
    case CharacterLevel(_) => 1
    case MoneyMail(_) => 2
    case RaceChange => 3
    case FactionChange => 3
    case Level80Training => 4
  }

  /** The kind a step's row is labelled with. */
  function Label(command: Command): string {
    match command
    case ItemMail(_) => "item_mail"
    case CharacterLevel(_) => "character_level"
    case MoneyMail(_) => "money_mail"
    case RaceChange => "character_service"
    case FactionChange => "character_service"
    case Level80Training => "level_80_training"
  }

  /** The key of a step that is no mail. */
  function FixedKey(command: Command): string {
    match command
    case ItemMail(_) => ""
    case CharacterLevel(_) => "level"
    case MoneyMail(_) => "money"
    case RaceChange => "service"
    case FactionChange => "service"
    case Level80Training => "training"
  }

  predicate Labelled(step: PlanStep) {
    !step.command.ItemMail? && step.kind == Label(step.command) && step.key == FixedKey(step.command)
  }

  /** Mails first, numbered from 1, then level, money, service and training, each
      labelled with its kind. */
  lemma PlanOrder(goods: Goods, table: StackTable)
    requires PlanFor(goods, table).Some?
    ensures var plan := PlanFor(goods, table).value;
            && (forall i :: 0 <= i < |plan| ==> plan[i].kind == Label(plan[i].command))
            && (forall i :: 0 <= i < |plan| && plan[i].command.ItemMail? ==> plan[i].key == ItemsKey(i + 1))
            && (forall i :: 0 <= i < |plan| && !plan[i].command.ItemMail? ==> plan[i].key == FixedKey(plan[i].command))
            && (forall i, j :: 0 <= i < j < |plan| ==>
                  Place(plan[i].command) < Place(plan[j].command)
                      || Place(plan[i].command) == Place(plan[j].command) == 0)
  {
    hide Attachments, Chunk, TailSteps, Place, Label, FixedKey, ItemsKey;
    TailOrder(goods);
    var mails, tail := Chunk(Attachments(goods.items, table)), TailSteps(goods);
    assert forall i :: 0 <= i < |tail| ==> tail[i].key == FixedKey(tail[i].command);
    AssembledOrder(mails, tail);
  }

  lemma AssembledOrder(mails: seq<seq<Stack>>, tail: seq<PlanStep>)
    requires forall i :: 0 <= i < |tail| ==> Labelled(tail[i])
    requires forall i, j :: 0 <= i < j < |tail| ==> Place(tail[i].command) < Place(tail[j].command)
    ensures var plan := MailSteps(mails) + tail;
            && (forall i :: 0 <= i < |plan| ==> plan[i].kind == Label(plan[i].command))
            && (forall i :: 0 <= i < |plan| && plan[i].command.ItemMail? ==> plan[i].key == ItemsKey(i + 1))
            && (forall i :: 0 <= i < |plan| && !plan[i].command.ItemMail? ==> plan[i].key == FixedKey(plan[i].command))
            && (forall i, j :: 0 <= i < j < |plan| ==>
                  Place(plan[i].command) < Place(plan[j].command)
                      || Place(plan[i].command) == Place(plan[j].command) == 0)
  {
    hide ItemsKey, FixedKey;
    var plan := MailSteps(mails) + tail;
    forall i | 0 <= i < |plan|
      ensures if i < |mails| then plan[i] == PlanStep(ItemsKey(i + 1), "item_mail", ItemMail(mails[i]))
              else plan[i] == tail[i - |mails|] && Labelled(plan[i])
    {
    }
  }

  lemma PartOrder(goods: Goods)
    ensures forall step :: step in LevelSteps(goods) ==> Labelled(step) && Place(step.command) == 1
    ensures forall step :: step in MoneySteps(goods) ==> Labelled(step) && Place(step.command) == 2
    ensures forall step :: step in ServiceSteps(goods) ==> Labelled(step) && Place(step.command) == 3
    ensures forall step :: step in TrainingSteps(goods) ==> Labelled(step) && Place(step.command) == 4
    ensures |LevelSteps(goods)| <= 1 && |MoneySteps(goods)| <= 1 && |ServiceSteps(goods)| <= 1
    ensures |TrainingSteps(goods)| <= 1
  {
  }

  lemma TailOrder(goods: Goods)
    ensures var tail := TailSteps(goods);
            && (forall i :: 0 <= i < |tail| ==> Labelled(tail[i]))
            && (forall i, j :: 0 <= i < j < |tail| ==> Place(tail[i].command) < Place(tail[j].command))
  {
    hide Labelled, Place;
    PartOrder(goods);
    hide LevelSteps, MoneySteps, ServiceSteps, TrainingSteps;
    var l, m, v, t := LevelSteps(goods), MoneySteps(goods), ServiceSteps(goods), TrainingSteps(goods);
    assert forall i :: 0 <= i < |l| ==> l[i] in l;
    assert forall i :: 0 <= i < |m| ==> m[i] in m;
    assert forall i :: 0 <= i < |v| ==> v[i] in v;
    assert forall i :: 0 <= i < |t| ==> t[i] in t;
  }

  /** How many stacks an item takes: as few as its stack size allows, and a stack
      size below 1 counts as 1. */
  predicate FewestStacks(n: nat, quantity: nat, stackable: int) {
    var size := if stackable < 1 then 1 else stackable;
    (n - 1) * size < quantity <= n * size
  }

  function StacksOf(stacks: seq<Stack>, id: nat): nat {
    if stacks == [] then 0 else (if stacks[0].item == id then 1 else 0) + StacksOf(stacks[1..], id)
  }

  lemma {:induction false} StacksOfConcat(a: seq<Stack>, b: seq<Stack>, id: nat)
    ensures StacksOf(a + b, id) == StacksOf(a, id) + StacksOf(b, id)
  {
    if a == [] {
      assert a + b == b;
    } else {
      assert (a + b)[0] == a[0] && (a + b)[1..] == a[1..] + b;
      StacksOfConcat(a[1..], b, id);
    }
  }

  lemma {:induction false} StacksOfOne(stacks: seq<Stack>, item: nat, id: nat)
    requires forall i :: 0 <= i < |stacks| ==> stacks[i].item == item
    ensures StacksOf(stacks, id) == if item == id then |stacks| else 0
  {
    if stacks != [] { StacksOfOne(stacks[1..], item, id); }
  }

  lemma {:induction false} AttachmentsAreFew(items: seq<Item>, table: StackTable, id: nat)
    requires UniqueIds(items) && forall i :: 0 <= i < |items| ==> items[i].id in table
    ensures id in table ==> FewestStacks(StacksOf(Attachments(items, table), id), TotalOf(items, id), table[id])
    ensures (forall i :: 0 <= i < |items| ==> items[i].id != id) ==> StacksOf(Attachments(items, table), id) == 0
    ensures forall i :: 0 <= i < |Attachments(items, table)| ==>
              var stack := Attachments(items, table)[i];
              stack.item in table && 1 <= stack.count && (stack.count <= table[stack.item] || stack.count == 1)
  {
    if items == [] {
      if id in table { NothingIsFew(table[id]); }
    } else {
      var init, last := items[..|items| - 1], items[|items| - 1];
      var stacks := SplitStacks(last.id, last.quantity, MaxStack(table[last.id]));
      AttachmentsAreFew(init, table, id);
      SplitShape(last.id, last.quantity, MaxStack(table[last.id]));
      StacksOfConcat(Attachments(init, table), stacks, id);
      StacksOfOne(stacks, last.id, id);
      if last.id == id { TotalOfAbsent(init, id); }
    }
  }

  lemma NothingIsFew(stackable: int)
    ensures FewestStacks(0, 0, stackable)
  {
  }

  /** The mailed stacks of a plan, in order. */
  function MailedStacks(plan: seq<PlanStep>): seq<Stack> {
    if plan == [] then []
    else (if plan[0].command.ItemMail? then plan[0].command.stacks else []) + MailedStacks(plan[1..])
  }

  lemma {:induction false} MailedStacksConcat(a: seq<PlanStep>, b: seq<PlanStep>)
    ensures MailedStacks(a + b) == MailedStacks(a) + MailedStacks(b)
  {
    if a == [] {
      assert a + b == b;
    } else {
      assert (a + b)[0] == a[0] && (a + b)[1..] == a[1..] + b;
      MailedStacksConcat(a[1..], b);
    }
  }

  lemma {:induction false} MailStepsMail(mails: seq<seq<Stack>>, k: nat)
    requires k <= |mails|
    ensures MailedStacks(MailSteps(mails)[k..]) == Flatten(mails[k..])
    decreases |mails| - k
  {
    if k < |mails| {
      MailStepsMail(mails, k + 1);
      assert MailSteps(mails)[k..][1..] == MailSteps(mails)[k + 1..] && mails[k..][1..] == mails[k + 1..];
    }
  }

  lemma {:induction false} TailMailsNoStack(steps: seq<PlanStep>)
    requires forall i :: 0 <= i < |steps| ==> !steps[i].command.ItemMail?
    ensures MailedStacks(steps) == []
  {
    if steps != [] { TailMailsNoStack(steps[1..]); }
  }

  lemma MailsOfPlan(goods: Goods, table: StackTable)
    requires PlanFor(goods, table).Some?
    ensures MailedStacks(PlanFor(goods, table).value) == Attachments(goods.items, table)
    ensures var plan := PlanFor(goods, table).value;
            && (forall i :: 0 <= i < |plan| && plan[i].command.ItemMail? ==> 1 <= |plan[i].command.stacks| <= 12)
            && (forall i :: 0 <= i < |plan| - 1 && plan[i + 1].command.ItemMail? ==>
                  plan[i].command.ItemMail? && |plan[i].command.stacks| == 12)
  {
    hide Attachments, Chunk, Flatten, TailSteps, MailedStacks;
    var stacks := Attachments(goods.items, table);
    var mails := Chunk(stacks);
    var steps, tail := MailSteps(mails), TailSteps(goods);
    TailOrder(goods);
    ChunkShape(stacks);
    assert steps[0..] == steps && mails[0..] == mails;
    MailStepsMail(mails, 0);
    TailMailsNoStack(tail);
    MailedStacksConcat(steps, tail);
    assert PlanFor(goods, table).value == steps + tail;
  }

  /** Every mailed stack fits the world's stack size, every item takes the fewest
      stacks it can, and every mail but the last is full. */
  lemma PlanMailsFewFullStacks(goods: Goods, table: StackTable, id: nat)
    requires PlanFor(goods, table).Some? && UniqueIds(goods.items)
    ensures var plan := PlanFor(goods, table).value;
            var stacks := MailedStacks(plan);
            && (id in table ==> FewestStacks(StacksOf(stacks, id), TotalOf(goods.items, id), table[id]))
            && (forall i :: 0 <= i < |stacks| ==>
                  stacks[i].item in table && 1 <= stacks[i].count
                  && (stacks[i].count <= table[stacks[i].item] || stacks[i].count == 1))
            && (forall i :: 0 <= i < |plan| && plan[i].command.ItemMail? ==> 1 <= |plan[i].command.stacks| <= 12)
            && (forall i :: 0 <= i < |plan| - 1 && plan[i + 1].command.ItemMail? ==>
                  plan[i].command.ItemMail? && |plan[i].command.stacks| == 12)
  {
    hide Attachments, FewestStacks, MailedStacks, StacksOf;
    MailsOfPlan(goods, table);
    AttachmentsAreFew(goods.items, table, id);
  }
}
