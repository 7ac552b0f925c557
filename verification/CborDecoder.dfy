/** The decoder itself: a cursor over the input, moved in place. */
module CborDecoder {
  import opened Common
  import opened Cbor
  import opened CborProofs

  class Decoder {
    const data: seq<byte>
    var pos: nat

    constructor (data: seq<byte>)
      ensures this.data == data && pos == 0
    {
      this.data := data;
      pos := 0;
    }

    /** The argument of a head, after its initial byte. */
    method Length(additional: nat) returns (r: Option<nat>)
      requires pos <= |data| && additional < 32
      modifies this`pos
      ensures old(pos) <= pos <= |data|
      ensures match ReadArgument(data, old(pos), additional)
              case None => r == None
              case Some((n, next)) => r == Some(n) && pos == next
    {
      if additional < 24 {
        return Some(additional);
      } else if additional == 24 {
        if pos + 1 > |data| {
          return None;
        }
        r := Some(BigEndian(data[pos..pos + 1]));
        pos := pos + 1;
      } else if additional == 25 {
        if pos + 2 > |data| {
          return None;
        }
        r := Some(BigEndian(data[pos..pos + 2]));
        pos := pos + 2;
      } else if additional == 26 {
        if pos + 4 > |data| {
          return None;
        }
        r := Some(BigEndian(data[pos..pos + 4]));
        pos := pos + 4;
      } else if additional == 27 {
        if pos + 8 > |data| {
          return None;
        }
        r := Some(BigEndian(data[pos..pos + 8]));
        pos := pos + 8;
      } else {
        return None;
      }
    }

    /** One value. On success the cursor stands after it, has moved, and has not
        passed the end. */
    method Value(depth: nat) returns (r: Option<Value>)
      requires pos <= |data|
      modifies this`pos
      ensures old(pos) <= pos <= |data|
      ensures match ParseItem(data, old(pos), depth)
              case None => r == None
              case Some((item, end)) => r == Some(Meaning(item)) && pos == end > old(pos)
      decreases MAX_DEPTH + 1 - depth, 0, 1
    {
      hide BigEndian, Entries, Meanings, ParseItems, ParsePairs, ReadHead, ReadArgument;
      ghost var start := pos;
      if depth > 16 || pos >= |data| {
        return None;
      }
      var initial := data[pos];
      pos := pos + 1;
      var major, additional := initial / 32, initial % 32;
      var argument := Length(additional);
      HeadFromArgument(data, start);
      if argument == None {
        return None;
      }
      var length := argument.value;
      if major == 0 {
        return Some(Int(if length < TWO63 then length else length - TWO64));
      } else if major == 1 {
        if length > TWO63 - 1 {
          return None;
        }
        return Some(Int(-1 - length));
      } else if major == 2 || major == 3 {
        if length > |data| - pos || length > MAX_STRING {
          return None;
        }
        var value := data[pos..pos + length];
        pos := pos + length;
        return Some(if major == 3 then Text(value) else Bytes(value));
      } else if major == 4 {
        r := ArrayItems(length, depth);
      } else if major == 5 {
        r := MapEntries(length, depth);
      } else if major == 6 {
        r := Value(depth + 1);
      } else if additional == 20 {
        return Some(Bool(false));
      } else if additional == 21 {
        return Some(Bool(true));
      } else if additional == 22 || additional == 23 {
        return Some(Null);
      } else {
        return None;
      }
    }

    method ArrayItems(length: nat, depth: nat) returns (r: Option<Value>)
      requires pos <= |data| && depth <= MAX_DEPTH
      modifies this`pos
      ensures old(pos) <= pos <= |data|
      ensures length > MAX_ELEMENTS ==> r == None
      ensures length <= MAX_ELEMENTS ==>
              match ParseItems(data, old(pos), length, depth + 1)
              case None => r == None
              case Some((items, end)) => r == Some(Array(Meanings(items))) && pos == end
      decreases MAX_DEPTH + 1 - depth, 0, 0
    {
      hide ParseItem, ParseItems, Meaning, Meanings, ItemsSoFar;
      if length > 1024 {
        return None;
      }
      var items: seq<Value> := [];
      ghost var done: seq<Item> := [];
      ghost var start := pos;
      ItemsStart(data, start, length, depth + 1);
      for i := 0 to length
        invariant start <= pos <= |data| && items == Meanings(done)
        invariant ItemsSoFar(data, start, length, depth + 1, done, pos, i)
      {
        ghost var before := pos;
        var item := Value(depth + 1);
        if item == None {
          ItemsStuck(data, start, length, depth + 1, done, before, i);
          return None;
        }
        ItemsAdvance(data, start, length, depth + 1, done, before, pos, i);
        done := done + [ParseItem(data, before, depth + 1).value.0];
        items := items + [item.value];
      }
      ItemsEnd(data, start, length, depth + 1, done, pos);
      return Some(Array(items));
    }

    method MapEntries(length: nat, depth: nat) returns (r: Option<Value>)
      requires pos <= |data| && depth <= MAX_DEPTH
      modifies this`pos
      ensures old(pos) <= pos <= |data|
      ensures length > MAX_ELEMENTS ==> r == None
      ensures length <= MAX_ELEMENTS ==>
              match ParsePairs(data, old(pos), length, depth + 1)
              case None => r == None
              case Some((items, end)) => r == Some(Map(Entries(Meanings(items)))) && pos == end
      decreases MAX_DEPTH + 1 - depth, 0, 0
    {
      hide ParseItem, ParsePairs, Meaning, Meanings, Entries, PairsSoFar;
      if length > 1024 {
        return None;
      }
      var items: map<Key, Value> := map[];
      ghost var done: seq<Item> := [];
      ghost var start := pos;
      PairsStart(data, start, length, depth + 1);
      for i := 0 to length
        invariant start <= pos <= |data| && items == Entries(Meanings(done))
        invariant PairsSoFar(data, start, length, depth + 1, done, pos, i)
      {
        ghost var before := pos;
        var key := Value(depth + 1);
        if key == None || !IsKey(key.value) {
          PairsStuck(data, start, length, depth + 1, done, before, i);
          return None;
        }
        ghost var middle := pos;
        var value := Value(depth + 1);
        if value == None {
          PairsStuck(data, start, length, depth + 1, done, before, i);
          return None;
        }
        PairsAdvance(data, start, length, depth + 1, done, before, middle, pos, i);
        done := done + [ParseItem(data, before, depth + 1).value.0, ParseItem(data, middle, depth + 1).value.0];
        items := items[ToKey(key.value) := value.value];
      }
      PairsEnd(data, start, length, depth + 1, done, pos);
      return Some(Map(items));
    }
  }

  lemma HeadFromArgument(data: seq<byte>, pos: nat)
    requires pos < |data|
    ensures var initial := data[pos];
            match ReadArgument(data, pos + 1, initial % 32)
            case None => ReadHead(data, pos) == None
            case Some((n, next)) =>
              && WidthOf(initial % 32).Some?
                  && ReadHead(data, pos) == Some(Head(initial / 32, WidthOf(initial % 32).value, n, next))
              && (initial % 32 < 24 ==> n == initial % 32)
  {
    hide BigEndian;
  }

  /** Parsed items put in front of what the rest of the loop will parse. */
  ghost function Prepended(done: seq<Item>, rest: Option<(seq<Item>, nat)>): Option<(seq<Item>, nat)> {
    match rest
    case None => None
    case Some((items, end)) => Some((done + items, end))
  }

  /** After `i` of `length` items the parse from `start` is the items `done` and
      then the parse of the rest from `pos`. */
  ghost predicate ItemsSoFar(data: seq<byte>, start: nat, length: nat, depth: nat, done: seq<Item>, pos: nat, i: nat) {
    && i <= length && start <= pos <= |data| && depth > 0
    && ParseItems(data, start, length, depth) == Prepended(done, ParseItems(data, pos, length - i, depth))
  }

  lemma ItemsStart(data: seq<byte>, start: nat, length: nat, depth: nat)
    requires start <= |data| && depth > 0
    ensures ItemsSoFar(data, start, length, depth, [], start, 0) && Meanings([]) == []
  {
    hide ParseItems;
    PrependedNothing(ParseItems(data, start, length, depth));
  }

  lemma ItemsStuck(data: seq<byte>, start: nat, length: nat, depth: nat, done: seq<Item>, pos: nat, i: nat)
    requires ItemsSoFar(data, start, length, depth, done, pos, i) && i < length && ParseItem(data, pos, depth) == None
    ensures ParseItems(data, start, length, depth) == None
  {
    hide ParseItem;
  }

  lemma ItemsAdvance(data: seq<byte>, start: nat, length: nat, depth: nat, done: seq<Item>, pos: nat, next: nat, i: nat)
    requires ItemsSoFar(data, start, length, depth, done, pos, i) && i < length
    requires ParseItem(data, pos, depth).Some? && ParseItem(data, pos, depth).value.1 == next
    ensures var item := ParseItem(data, pos, depth).value.0;
            && ItemsSoFar(data, start, length, depth, done + [item], next, i + 1)
            && Meanings(done + [item]) == Meanings(done) + [Meaning(item)]
  {
    hide ParseItem, Meaning, Meanings;
    var item := ParseItem(data, pos, depth).value.0;
    MeaningsSnoc(done, item);
    PrependedSnoc(done, item, ParseItems(data, next, length - i - 1, depth));
  }

  lemma ItemsEnd(data: seq<byte>, start: nat, length: nat, depth: nat, done: seq<Item>, pos: nat)
    requires ItemsSoFar(data, start, length, depth, done, pos, length)
    ensures ParseItems(data, start, length, depth) == Some((done, pos))
  {
    assert done + [] == done;
  }

  /** After `i` of `length` pairs the parse from `start` is the items `done` and
      then the parse of the rest from `pos`. */
  ghost predicate PairsSoFar(data: seq<byte>, start: nat, length: nat, depth: nat, done: seq<Item>, pos: nat, i: nat) {
    && i <= length && start <= pos <= |data| && depth > 0
    && ParsePairs(data, start, length, depth) == Prepended(done, ParsePairs(data, pos, length - i, depth))
  }

  lemma PairsStart(data: seq<byte>, start: nat, length: nat, depth: nat)
    requires start <= |data| && depth > 0
    ensures PairsSoFar(data, start, length, depth, [], start, 0) && Entries(Meanings([])) == map[]
  {
    hide ParsePairs;
    PrependedNothing(ParsePairs(data, start, length, depth));
  }

  lemma PairsStuck(data: seq<byte>, start: nat, length: nat, depth: nat, done: seq<Item>, pos: nat, i: nat)
    requires PairsSoFar(data, start, length, depth, done, pos, i) && i < length
    requires var key := ParseItem(data, pos, depth);
             key == None || !IsKey(Meaning(key.value.0)) || ParseItem(data, key.value.1, depth) == None
    ensures ParsePairs(data, start, length, depth) == None
  {
    hide ParseItem, Meaning;
  }

  lemma PairsAdvance(data: seq<byte>, start: nat, length: nat, depth: nat, done: seq<Item>, pos: nat, middle: nat,
                     next: nat, i: nat)
    requires PairsSoFar(data, start, length, depth, done, pos, i) && i < length && middle <= |data|
    requires ParseItem(data, pos, depth).Some? && ParseItem(data, pos, depth).value.1 == middle
    requires IsKey(Meaning(ParseItem(data, pos, depth).value.0))
    requires ParseItem(data, middle, depth).Some? && ParseItem(data, middle, depth).value.1 == next
    ensures var k, v := ParseItem(data, pos, depth).value.0, ParseItem(data, middle, depth).value.0;
            && PairsSoFar(data, start, length, depth, done + [k, v], next, i + 1)
            && Entries(Meanings(done + [k, v])) == Entries(Meanings(done))[ToKey(Meaning(k)) := Meaning(v)]
  {
    hide ParseItem, Meaning, Meanings, Entries;
    var k, v := ParseItem(data, pos, depth).value.0, ParseItem(data, middle, depth).value.0;
    EntriesSnoc(done, k, v);
    PrependedPair(done, k, v, ParsePairs(data, next, length - i - 1, depth));
  }

  lemma PairsEnd(data: seq<byte>, start: nat, length: nat, depth: nat, done: seq<Item>, pos: nat)
    requires PairsSoFar(data, start, length, depth, done, pos, length)
    ensures ParsePairs(data, start, length, depth) == Some((done, pos))
  {
    assert done + [] == done;
  }

  lemma PrependedNothing(rest: Option<(seq<Item>, nat)>)
    ensures Prepended([], rest) == rest
  {
    if rest.Some? { assert [] + rest.value.0 == rest.value.0; }
  }

  lemma PrependedSnoc(done: seq<Item>, item: Item, rest: Option<(seq<Item>, nat)>)
    ensures Prepended(done, Prepended([item], rest)) == Prepended(done + [item], rest)
  {
    if rest.Some? { assert done + ([item] + rest.value.0) == done + [item] + rest.value.0; }
  }

  lemma PrependedPair(done: seq<Item>, k: Item, v: Item, rest: Option<(seq<Item>, nat)>)
    ensures Prepended(done, Prepended([k, v], rest)) == Prepended(done + [k, v], rest)
  {
    if rest.Some? { assert done + ([k, v] + rest.value.0) == done + [k, v] + rest.value.0; }
  }

  lemma {:induction false} MeaningsSnoc(items: seq<Item>, item: Item)
    ensures Meanings(items + [item]) == Meanings(items) + [Meaning(item)]
  {
    if items == [] {
      assert [] + [item] == [item] && [item][1..] == [];
    } else {
      assert (items + [item])[0] == items[0] && (items + [item])[1..] == items[1..] + [item];
      MeaningsSnoc(items[1..], item);
    }
  }

  lemma EntriesSnoc(items: seq<Item>, k: Item, v: Item)
    ensures Entries(Meanings(items + [k, v])) == Entries(Meanings(items))[ToKey(Meaning(k)) := Meaning(v)]
  {
    MeaningsSnoc(items, k);
    MeaningsSnoc(items + [k], v);
    assert items + [k, v] == items + [k] + [v];
    var values := Meanings(items + [k, v]);
    assert values == Meanings(items) + [Meaning(k)] + [Meaning(v)];
    assert values[..|values| - 2] == Meanings(items);
  }

  /** What decodeCBOR returns: the value of the first item and its length. */
  function Decode(data: seq<byte>): Option<(Value, nat)> {
    match ParseItem(data, 0, 0)
    case None => None
    case Some((item, end)) => Some((Meaning(item), end))
  }

  /** An unsigned integer is decoded as itself exactly when it fits a signed
      64-bit integer; from 2^63 on the unchecked conversion makes it negative. */
  lemma UnsignedKeepsItsValueIff(w: Width, n: nat, tail: seq<byte>)
    requires ArgumentFits(w, n)
    ensures Decode(Serialize(Unsigned(w, n)) + tail) == Some((Int(n), |Serialize(Unsigned(w, n))|))
        <==> n < 0x8000_0000_0000_0000
    ensures n >= 0x8000_0000_0000_0000 ==>
              n - 0x1_0000_0000_0000_0000 < 0 && Decode(Serialize(Unsigned(w, n)) + tail)
                  == Some((Int(n - 0x1_0000_0000_0000_0000), |Serialize(Unsigned(w, n))|))
  {
    hide ParseItem, Serialize, ArgumentFits;
    DecodeAfterEncode(Unsigned(w, n), tail);
    ArgumentsAre64Bit(w, n);
  }

  lemma ArgumentsAre64Bit(w: Width, n: nat)
    requires ArgumentFits(w, n)
    ensures n < TWO64
  {
    assert Pow256(2) == 0x1_0000 && Pow256(4) == 0x1_0000_0000;
    assert Pow256(6) == 0x1_0000_0000_0000 && Pow256(8) == TWO64;
  }

  method DecodeCbor(data: seq<byte>) returns (r: Option<(Value, nat)>)
    ensures r == Decode(data)
  {
    var d := new Decoder(data);
    var value := d.Value(0);
    r := if value == None then None else Some((value.value, d.pos));
  }
}
