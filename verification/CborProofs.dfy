/** The decoder and the wire format are inverse to each other. */
module CborProofs {
  import opened Common
  import opened Cbor

  // ------------------------------------------------------------ heads

  lemma HeadSound(data: seq<byte>, pos: nat)
    requires ReadHead(data, pos).Some?
    ensures var h := ReadHead(data, pos).value;
            ArgumentFits(h.w, h.n) && data[pos..h.next] == HeadBytes(h.major, h.w, h.n)
  {
    hide Pow256, BigEndian, ToBigEndian;
    var h := ReadHead(data, pos).value;
    var argument := data[pos + 1..h.next];
    BigEndianRoundTrip(argument);
    assert h.next == pos + 1 + SizeOf(h.w);
    HeadOfByte(data[pos], h.w, h.n);
    FirstByte(data, pos, h.next);
  }

  lemma HeadOfByte(initial: byte, w: Width, n: nat)
    requires WidthOf(initial % 32) == Some(w)
    requires if w == Direct then n == initial % 32 else n < Pow256(SizeOf(w))
    ensures ArgumentFits(w, n) && HeadBytes(initial / 32, w, n) == [initial] + ToBigEndian(n, SizeOf(w))
  {
    hide Pow256, ToBigEndian;
  }

  lemma FirstByte(data: seq<byte>, pos: nat, next: nat)
    requires pos < next <= |data|
    ensures data[pos..next] == [data[pos]] + data[pos + 1..next]
  {
  }

  lemma HeadComplete(data: seq<byte>, pos: nat, major: nat, w: Width, n: nat)
    requires major < 8 && ArgumentFits(w, n)
    requires pos + 1 + SizeOf(w) <= |data| && data[pos..pos + 1 + SizeOf(w)] == HeadBytes(major, w, n)
    ensures ReadHead(data, pos) == Some(Head(major, w, n, pos + 1 + SizeOf(w)))
  {
    var head, size := HeadBytes(major, w, n), SizeOf(w);
    InitialByte(major, w, n);
    assert data[pos] == data[pos..pos + 1 + size][0] == head[0];
    assert data[pos + 1..pos + 1 + size] == data[pos..pos + 1 + size][1..] == ToBigEndian(n, size);
    if w != Direct { ToBigEndianRoundTrip(n, size); }
  }

  lemma InitialByte(major: nat, w: Width, n: nat)
    requires major < 8 && ArgumentFits(w, n)
    ensures var initial := major * 32 + Additional(w, n);
            initial < 256 && initial / 32 == major && initial % 32 == Additional(w, n)
                && WidthOf(initial % 32) == Some(w)
  {
  }

  // ------------------------------------------------------------ soundness

  lemma Slices(data: seq<byte>, a: nat, b: nat, c: nat)
    requires a <= b <= c <= |data|
    ensures data[a..c] == data[a..b] + data[b..c]
  {
  }

  lemma NumberSound(data: seq<byte>, pos: nat, depth: nat, h: Head)
    requires ReadHead(data, pos) == Some(h) && h.major in {0, 1, 7} && ParseItem(data, pos, depth).Some?
    ensures var (item, end) := ParseItem(data, pos, depth).value;
            WellFormed(item) && Supported(item, depth) && data[pos..end] == Serialize(item)
  {
    HeadSound(data, pos);
  }

  lemma StringSound(data: seq<byte>, pos: nat, depth: nat, h: Head)
    requires ReadHead(data, pos) == Some(h) && h.major in {2, 3} && ParseItem(data, pos, depth).Some?
    ensures var (item, end) := ParseItem(data, pos, depth).value;
            WellFormed(item) && Supported(item, depth) && data[pos..end] == Serialize(item)
  {
    HeadSound(data, pos);
    Slices(data, pos, h.next, h.next + h.n);
  }

  lemma {:induction false} ItemSound(data: seq<byte>, pos: nat, depth: nat)
    requires ParseItem(data, pos, depth).Some?
    ensures var (item, end) := ParseItem(data, pos, depth).value;
            WellFormed(item) && Supported(item, depth) && data[pos..end] == Serialize(item)
    decreases MAX_DEPTH + 1 - depth, 0, 1
  {
    var h := ReadHead(data, pos).value;
    if h.major == 4 {
      ArraySound(data, pos, depth, h);
    } else if h.major == 5 {
      MapSound(data, pos, depth, h);
    } else if h.major == 6 {
      TagSound(data, pos, depth, h);
    } else if h.major == 2 || h.major == 3 {
      StringSound(data, pos, depth, h);
    } else {
      NumberSound(data, pos, depth, h);
    }
  }

  lemma {:induction false} ArraySound(data: seq<byte>, pos: nat, depth: nat, h: Head)
    requires ReadHead(data, pos) == Some(h) && h.major == 4 && ParseItem(data, pos, depth).Some?
    ensures var (item, end) := ParseItem(data, pos, depth).value;
            WellFormed(item) && Supported(item, depth) && data[pos..end] == Serialize(item)
    decreases MAX_DEPTH + 1 - depth, 0, 0
  {
    hide ReadHead, ArgumentFits, HeadBytes;
    HeadSound(data, pos);
    ItemsSound(data, h.next, h.n, depth + 1);
    var (items, end) := ParseItems(data, h.next, h.n, depth + 1).value;
    assert ParseItem(data, pos, depth) == Some((ArrayOf(h.w, items), end));
    Slices(data, pos, h.next, end);
  }

  lemma {:induction false} MapSound(data: seq<byte>, pos: nat, depth: nat, h: Head)
    requires ReadHead(data, pos) == Some(h) && h.major == 5 && ParseItem(data, pos, depth).Some?
    ensures var (item, end) := ParseItem(data, pos, depth).value;
            WellFormed(item) && Supported(item, depth) && data[pos..end] == Serialize(item)
    decreases MAX_DEPTH + 1 - depth, 0, 0
  {
    hide ReadHead, ArgumentFits, HeadBytes;
    HeadSound(data, pos);
    PairsSound(data, h.next, h.n, depth + 1);
    var (items, end) := ParsePairs(data, h.next, h.n, depth + 1).value;
    assert ParseItem(data, pos, depth) == Some((MapOf(h.w, items), end));
    assert |items| / 2 == h.n;
    Slices(data, pos, h.next, end);
  }

  lemma {:induction false} TagSound(data: seq<byte>, pos: nat, depth: nat, h: Head)
    requires ReadHead(data, pos) == Some(h) && h.major == 6 && ParseItem(data, pos, depth).Some?
    ensures var (item, end) := ParseItem(data, pos, depth).value;
            WellFormed(item) && Supported(item, depth) && data[pos..end] == Serialize(item)
    decreases MAX_DEPTH + 1 - depth, 0, 0
  {
    hide ReadHead, Serialize, Supported, WellFormed, ArgumentFits, HeadBytes;
    HeadSound(data, pos);
    var r := TagSplit(data, pos, depth, h);
    ItemSound(data, h.next, depth + 1);
    TagJoin(data, pos, depth, h, r.0, r.1);
  }

  lemma {:induction false} TagSplit(data: seq<byte>, pos: nat, depth: nat, h: Head) returns (r: (Item, nat))
    requires ReadHead(data, pos) == Some(h) && h.major == 6 && ParseItem(data, pos, depth).Some?
    ensures ParseItem(data, h.next, depth + 1) == Some(r) && depth <= MAX_DEPTH && h.next < r.1
    ensures ParseItem(data, pos, depth) == Some((Tagged(h.w, h.n, r.0), r.1))
  {
    r := ParseItem(data, h.next, depth + 1).value;
  }

  lemma TagJoin(data: seq<byte>, pos: nat, depth: nat, h: Head, content: Item, end: nat)
    requires depth <= MAX_DEPTH && pos < h.next < end <= |data|
    requires ArgumentFits(h.w, h.n) && data[pos..h.next] == HeadBytes(6, h.w, h.n)
    requires WellFormed(content) && Supported(content, depth + 1) && data[h.next..end] == Serialize(content)
    ensures var item := Tagged(h.w, h.n, content);
            WellFormed(item) && Supported(item, depth) && data[pos..end] == Serialize(item)
  {
    hide ArgumentFits, HeadBytes;
    Slices(data, pos, h.next, end);
  }

  lemma {:induction false} ItemsSound(data: seq<byte>, pos: nat, count: nat, depth: nat)
    requires pos <= |data| && depth > 0 && ParseItems(data, pos, count, depth).Some?
    ensures var (items, end) := ParseItems(data, pos, count, depth).value;
            AllWellFormed(items) && AllSupported(items, depth) && data[pos..end] == SerializeAll(items)
    decreases MAX_DEPTH + 1 - depth, count, 2
  {
    hide ParseItem, Serialize, Supported, WellFormed, Meaning;
    if count > 0 {
      var (items, end) := ParseItems(data, pos, count, depth).value;
      ItemSound(data, pos, depth);
      var (first, next) := ParseItem(data, pos, depth).value;
      ItemsSound(data, next, count - 1, depth);
      assert items[0] == first && items[1..] == ParseItems(data, next, count - 1, depth).value.0;
      assert data[pos..end] == data[pos..next] + data[next..end];
    }
  }

  /** One pair and then the rest, as the parser puts them together. */
  lemma PairsStep(data: seq<byte>, pos: nat, count: nat, depth: nat, key: Item, middle: nat, value: Item, next: nat,
                  rest: seq<Item>, end: nat)
    requires pos < middle < next <= |data| && depth > 0
    requires ParseItem(data, pos, depth) == Some((key, middle)) && IsKey(Meaning(key))
    requires ParseItem(data, middle, depth) == Some((value, next))
    requires ParsePairs(data, next, count, depth) == Some((rest, end))
    ensures ParsePairs(data, pos, count + 1, depth) == Some(([key, value] + rest, end))
  {
  }

  lemma {:induction false} PairsSplit(data: seq<byte>, pos: nat, count: nat, depth: nat)
    returns (key: Item, middle: nat, value: Item, next: nat, rest: seq<Item>, end: nat)
    requires pos <= |data| && depth > 0 && count > 0 && ParsePairs(data, pos, count, depth).Some?
    ensures pos < middle < next <= end <= |data|
    ensures ParseItem(data, pos, depth) == Some((key, middle)) && IsKey(Meaning(key))
    ensures ParseItem(data, middle, depth) == Some((value, next))
    ensures ParsePairs(data, next, count - 1, depth) == Some((rest, end))
    ensures ParsePairs(data, pos, count, depth) == Some(([key, value] + rest, end))
  {
    var first := ParseItem(data, pos, depth).value;
    key, middle := first.0, first.1;
    var second := ParseItem(data, middle, depth).value;
    value, next := second.0, second.1;
    var third := ParsePairs(data, next, count - 1, depth).value;
    rest, end := third.0, third.1;
  }

  /** A serialized pair in front of serialized pairs. */
  lemma PairsJoin(data: seq<byte>, pos: nat, middle: nat, next: nat, end: nat, key: Item, value: Item,
                  rest: seq<Item>, depth: nat)
    requires pos <= middle <= next <= end <= |data|
    requires |rest| % 2 == 0 && WellFormed(key) && WellFormed(value) && AllWellFormed(rest)
    requires Supported(key, depth) && IsKey(Meaning(key)) && Supported(value, depth) && PairsSupported(rest, depth)
    requires data[pos..middle] == Serialize(key) && data[middle..next] == Serialize(value)
    requires data[next..end] == SerializeAll(rest)
    ensures SoundPairs(data, pos, [key, value] + rest, end, depth)
  {
    hide Serialize, Supported, WellFormed, Meaning, PairsSupported, AllWellFormed, SerializeAll;
    PairInFront(key, value, rest, depth);
    Slices(data, pos, middle, end);
    Slices(data, middle, next, end);
    JoinPair(Serialize(key), Serialize(value), SerializeAll(rest));
  }

  ghost predicate SoundPairs(data: seq<byte>, pos: nat, items: seq<Item>, end: nat, depth: nat) {
    && pos <= end <= |data| && |items| % 2 == 0
    && AllWellFormed(items) && PairsSupported(items, depth) && data[pos..end] == SerializeAll(items)
  }

  lemma {:induction false} PairsSound(data: seq<byte>, pos: nat, count: nat, depth: nat)
    requires pos <= |data| && depth > 0 && ParsePairs(data, pos, count, depth).Some?
    ensures var r := ParsePairs(data, pos, count, depth).value; SoundPairs(data, pos, r.0, r.1, depth)
    decreases MAX_DEPTH + 1 - depth, count, 2
  {
    hide ParseItem, Serialize, Supported, WellFormed, Meaning;
    if count > 0 {
      var key, middle, value, next, rest, end := PairsSplit(data, pos, count, depth);
      ItemSound(data, pos, depth);
      ItemSound(data, middle, depth);
      PairsSound(data, next, count - 1, depth);
      PairsJoin(data, pos, middle, next, end, key, value, rest, depth);
    }
  }

  lemma JoinPair(a: seq<byte>, b: seq<byte>, c: seq<byte>)
    ensures a + (b + c) == a + b + c
  {
  }

  lemma PairInFront(key: Item, value: Item, rest: seq<Item>, depth: nat)
    requires |rest| % 2 == 0
    ensures var items := [key, value] + rest;
            && items[0] == key && items[1] == value && items[2..] == rest
            && (AllWellFormed(items) <==> WellFormed(key) && WellFormed(value) && AllWellFormed(rest))
            && (AllWellFormed(items) ==> SerializeAll(items) == Serialize(key) + Serialize(value) + SerializeAll(rest))
            && (PairsSupported(items, depth) <==>
                  Supported(key, depth) && IsKey(Meaning(key)) && Supported(value, depth)
                      && PairsSupported(rest, depth))
  {
    var items := [key, value] + rest;
    var after := items[1..];
    assert items[0] == key && after[0] == value && after[1..] == rest && items[2..] == rest;
    assert AllWellFormed(items) <==> WellFormed(key) && AllWellFormed(after);
    assert AllWellFormed(after) <==> WellFormed(value) && AllWellFormed(rest);
    if AllWellFormed(items) {
      assert SerializeAll(after) == Serialize(value) + SerializeAll(rest);
      assert SerializeAll(items) == Serialize(key) + (Serialize(value) + SerializeAll(rest));
    }
  }

  // ------------------------------------------------------------ completeness

  lemma Subrange(data: seq<byte>, a: nat, b: nat, head: seq<byte>, body: seq<byte>)
    requires a <= b <= |data| && data[a..b] == head + body
    ensures data[a..a + |head|] == head && data[a + |head|..b] == body
  {
    assert data[a..a + |head|] == data[a..b][..|head|];
    assert data[a + |head|..b] == data[a..b][|head|..];
  }

  ghost predicate LiesAt(bytes: seq<byte>, data: seq<byte>, pos: nat) {
    pos + |bytes| <= |data| && data[pos..pos + |bytes|] == bytes
  }

  lemma StringComplete(item: Item, data: seq<byte>, pos: nat, depth: nat)
    requires item.ByteString? || item.TextString?
    requires WellFormed(item) && Supported(item, depth) && LiesAt(Serialize(item), data, pos)
    ensures ParseItem(data, pos, depth) == Some((item, pos + |Serialize(item)|))
  {
    var major := if item.ByteString? then 2 else 3;
    Subrange(data, pos, pos + |Serialize(item)|, HeadBytes(major, item.w, |item.bytes|), item.bytes);
    HeadComplete(data, pos, major, item.w, |item.bytes|);
  }

  lemma NumberComplete(item: Item, data: seq<byte>, pos: nat, depth: nat)
    requires item.Unsigned? || item.Negative? || item.Simple?
    requires WellFormed(item) && Supported(item, depth) && LiesAt(Serialize(item), data, pos)
    ensures ParseItem(data, pos, depth) == Some((item, pos + |Serialize(item)|))
  {
    match item
    case Unsigned(w, n) => HeadComplete(data, pos, 0, w, n);
    case Negative(w, n) => HeadComplete(data, pos, 1, w, n);
    case Simple(code) => HeadComplete(data, pos, 7, Direct, code);
  }

  lemma {:induction false} ItemComplete(item: Item, data: seq<byte>, pos: nat, depth: nat)
    requires WellFormed(item) && Supported(item, depth) && LiesAt(Serialize(item), data, pos)
    ensures ParseItem(data, pos, depth) == Some((item, pos + |Serialize(item)|))
    decreases item, 1
  {
    if item.ByteString? || item.TextString? {
      StringComplete(item, data, pos, depth);
    } else if item.ArrayOf? {
      ArrayComplete(item, data, pos, depth);
    } else if item.MapOf? {
      MapComplete(item, data, pos, depth);
    } else if item.Tagged? {
      TagComplete(item, data, pos, depth);
    } else {
      NumberComplete(item, data, pos, depth);
    }
  }

  /** The head of `item` is read back, and what follows it lies after it. */
  lemma HeadFirst(data: seq<byte>, pos: nat, major: nat, w: Width, n: nat, body: seq<byte>)
    requires major < 8 && ArgumentFits(w, n) && LiesAt(HeadBytes(major, w, n) + body, data, pos)
    ensures ReadHead(data, pos) == Some(Head(major, w, n, pos + 1 + SizeOf(w)))
    ensures LiesAt(body, data, pos + 1 + SizeOf(w))
  {
    var head := HeadBytes(major, w, n);
    Subrange(data, pos, pos + |head + body|, head, body);
    HeadComplete(data, pos, major, w, n);
  }

  lemma {:induction false} TagComplete(item: Item, data: seq<byte>, pos: nat, depth: nat)
    requires item.Tagged? && WellFormed(item) && Supported(item, depth) && LiesAt(Serialize(item), data, pos)
    ensures ParseItem(data, pos, depth) == Some((item, pos + |Serialize(item)|))
    decreases item, 0
  {
    hide ParseItem, Meaning, ReadHead;
    HeadFirst(data, pos, 6, item.w, item.tag, Serialize(item.content));
    var start := pos + 1 + SizeOf(item.w);
    ItemComplete(item.content, data, start, depth + 1);
    TagStep(data, pos, depth, item.w, item.tag, start, item.content, start + |Serialize(item.content)|);
  }

  lemma TagStep(data: seq<byte>, pos: nat, depth: nat, w: Width, tag: nat, start: nat, content: Item, end: nat)
    requires depth <= MAX_DEPTH && ReadHead(data, pos) == Some(Head(6, w, tag, start))
    requires ParseItem(data, start, depth + 1) == Some((content, end))
    ensures ParseItem(data, pos, depth) == Some((Tagged(w, tag, content), end))
  {
    hide Meaning;
  }

  lemma {:induction false} ArrayComplete(item: Item, data: seq<byte>, pos: nat, depth: nat)
    requires item.ArrayOf? && WellFormed(item) && Supported(item, depth) && LiesAt(Serialize(item), data, pos)
    ensures ParseItem(data, pos, depth) == Some((item, pos + |Serialize(item)|))
    decreases item, 0
  {
    hide ParseItem, Meaning, ReadHead;
    HeadFirst(data, pos, 4, item.w, |item.items|, SerializeAll(item.items));
    var start := pos + 1 + SizeOf(item.w);
    ItemsComplete(item.items, data, start, depth + 1);
    ArrayStep(data, pos, depth, item.w, start, item.items, start + |SerializeAll(item.items)|);
  }

  lemma ArrayStep(data: seq<byte>, pos: nat, depth: nat, w: Width, start: nat, items: seq<Item>, end: nat)
    requires depth <= MAX_DEPTH && |items| <= MAX_ELEMENTS && start <= |data|
    requires ReadHead(data, pos) == Some(Head(4, w, |items|, start))
    requires ParseItems(data, start, |items|, depth + 1) == Some((items, end))
    ensures ParseItem(data, pos, depth) == Some((ArrayOf(w, items), end))
  {
    hide Meaning;
  }

  lemma {:induction false} MapComplete(item: Item, data: seq<byte>, pos: nat, depth: nat)
    requires item.MapOf? && WellFormed(item) && Supported(item, depth) && LiesAt(Serialize(item), data, pos)
    ensures ParseItem(data, pos, depth) == Some((item, pos + |Serialize(item)|))
    decreases item, 0
  {
    hide ParseItem, Meaning, ReadHead;
    HeadFirst(data, pos, 5, item.w, |item.items| / 2, SerializeAll(item.items));
    var start := pos + 1 + SizeOf(item.w);
    PairsComplete(item.items, data, start, depth + 1);
    MapStep(data, pos, depth, item.w, start, item.items, start + |SerializeAll(item.items)|);
  }

  lemma MapStep(data: seq<byte>, pos: nat, depth: nat, w: Width, start: nat, items: seq<Item>, end: nat)
    requires depth <= MAX_DEPTH && |items| / 2 <= MAX_ELEMENTS && start <= |data|
    requires ReadHead(data, pos) == Some(Head(5, w, |items| / 2, start))
    requires ParsePairs(data, start, |items| / 2, depth + 1) == Some((items, end))
    ensures ParseItem(data, pos, depth) == Some((MapOf(w, items), end))
  {
  }

  lemma LiesBehind(a: seq<byte>, b: seq<byte>, data: seq<byte>, pos: nat)
    requires LiesAt(a + b, data, pos)
    ensures LiesAt(a, data, pos) && LiesAt(b, data, pos + |a|)
  {
    Subrange(data, pos, pos + |a + b|, a, b);
  }

  lemma {:induction false} ItemsComplete(items: seq<Item>, data: seq<byte>, pos: nat, depth: nat)
    requires AllWellFormed(items) && AllSupported(items, depth) && depth > 0 && LiesAt(SerializeAll(items), data, pos)
    ensures ParseItems(data, pos, |items|, depth) == Some((items, pos + |SerializeAll(items)|))
    decreases items, 0
  {
    hide ParseItem, Serialize, Supported, WellFormed, Meaning;
    if items != [] {
      var first, rest := items[0], items[1..];
      LiesBehind(Serialize(first), SerializeAll(rest), data, pos);
      var next := pos + |Serialize(first)|;
      ItemComplete(first, data, pos, depth);
      ItemsComplete(rest, data, next, depth);
      ItemsStep(data, pos, |rest|, depth, first, next, rest, next + |SerializeAll(rest)|);
      assert items == [first] + rest;
    }
  }

  lemma ItemsStep(data: seq<byte>, pos: nat, count: nat, depth: nat, first: Item, next: nat, rest: seq<Item>, end: nat)
    requires pos < next <= |data| && depth > 0
    requires ParseItem(data, pos, depth) == Some((first, next))
    requires ParseItems(data, next, count, depth) == Some((rest, end))
    ensures ParseItems(data, pos, count + 1, depth) == Some(([first] + rest, end))
  {
  }

  /** Splitting off the first pair, in the items and in the data. */
  lemma {:induction false} PairsFirst(items: seq<Item>, data: seq<byte>, pos: nat, depth: nat)
    returns (key: Item, middle: nat, value: Item, next: nat, rest: seq<Item>, end: nat)
    requires |items| % 2 == 0 && items != [] && AllWellFormed(items) && PairsSupported(items, depth)
    requires LiesAt(SerializeAll(items), data, pos)
    ensures items == [key, value] + rest && key == items[0] && value == items[1] && rest == items[2..]
    ensures WellFormed(key) && WellFormed(value) && AllWellFormed(rest)
    ensures Supported(key, depth) && IsKey(Meaning(key)) && Supported(value, depth)
    ensures |rest| % 2 == 0 && PairsSupported(rest, depth)
    ensures LiesAt(Serialize(key), data, pos) && middle == pos + |Serialize(key)|
    ensures LiesAt(Serialize(value), data, middle) && next == middle + |Serialize(value)|
    ensures LiesAt(SerializeAll(rest), data, next) && end == next + |SerializeAll(rest)| == pos + |SerializeAll(items)|
  {
    hide Serialize, Supported, WellFormed, Meaning;
    key, value, rest := items[0], items[1], items[2..];
    assert items == [key, value] + rest;
    PairInFront(key, value, rest, depth);
    middle := pos + |Serialize(key)|;
    next := middle + |Serialize(value)|;
    end := next + |SerializeAll(rest)|;
    JoinPair(Serialize(key), Serialize(value), SerializeAll(rest));
    LiesBehind(Serialize(key), Serialize(value) + SerializeAll(rest), data, pos);
    LiesBehind(Serialize(value), SerializeAll(rest), data, middle);
  }

  lemma {:induction false} PairsComplete(items: seq<Item>, data: seq<byte>, pos: nat, depth: nat)
    requires |items| % 2 == 0 && AllWellFormed(items) && PairsSupported(items, depth) && depth > 0
    requires LiesAt(SerializeAll(items), data, pos)
    ensures ParsePairs(data, pos, |items| / 2, depth) == Some((items, pos + |SerializeAll(items)|))
    decreases items, 0
  {
    hide ParseItem, Serialize, Supported, WellFormed, Meaning, PairsSupported, AllWellFormed;
    if items != [] {
      var key, middle, value, next, rest, end := PairsFirst(items, data, pos, depth);
      ItemComplete(key, data, pos, depth);
      ItemComplete(value, data, middle, depth);
      PairsComplete(rest, data, next, depth);
      PairsStep(data, pos, |rest| / 2, depth, key, middle, value, next, rest, end);
      assert |rest| / 2 + 1 == |items| / 2;
    }
  }

  // ------------------------------------------------------------ the theorems

  /** Wire item `item` is what `data` starts with. */
  ghost predicate StartsWith(data: seq<byte>, item: Item) {
    WellFormed(item) && Serialize(item) <= data
  }

  /** Decoding an encoded item followed by anything gives back the item and its
      length exactly when the item is within the limits; what follows it is
      never looked at. */
  lemma DecodeAfterEncode(item: Item, tail: seq<byte>)
    requires WellFormed(item)
    ensures ParseItem(Serialize(item) + tail, 0, 0) == Some((item, |Serialize(item)|)) <==> Supported(item, 0)
  {
    var data := Serialize(item) + tail;
    if Supported(item, 0) {
      assert data[0..|Serialize(item)|] == Serialize(item);
      ItemComplete(item, data, 0, 0);
    }
    if ParseItem(data, 0, 0) == Some((item, |Serialize(item)|)) {
      ItemSound(data, 0, 0);
    }
  }

  /** Decoding succeeds with `item` on exactly the inputs that start with an
      encoding of it, for supported items; so the wire format is prefix-free. */
  lemma DecodesIffStartsWith(data: seq<byte>, item: Item, length: nat)
    ensures ParseItem(data, 0, 0) == Some((item, length))
       <==> StartsWith(data, item) && Supported(item, 0) && length == |Serialize(item)|
  {
    hide ParseItem, Serialize, Supported, WellFormed;
    if ParseItem(data, 0, 0) == Some((item, length)) {
      ItemSound(data, 0, 0);
      assert data[0..length] == data[..length];
    }
    if StartsWith(data, item) && Supported(item, 0) && length == |Serialize(item)| {
      assert data[0..length] == Serialize(item);
      ItemComplete(item, data, 0, 0);
    }
  }

  /** The decoder rejects exactly the inputs that start with no supported item. */
  lemma RejectsIffNothingSupported(data: seq<byte>)
    ensures ParseItem(data, 0, 0) == None <==> forall item :: StartsWith(data, item) ==> !Supported(item, 0)
  {
    if ParseItem(data, 0, 0) == None {
      forall item | StartsWith(data, item) ensures !Supported(item, 0) {
        DecodesIffStartsWith(data, item, |Serialize(item)|);
      }
    } else {
      var (item, length) := ParseItem(data, 0, 0).value;
      DecodesIffStartsWith(data, item, length);
    }
  }
}
