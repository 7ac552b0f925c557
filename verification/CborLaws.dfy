/** What bytes denote what value, said on bytes and values alone: the grammar of
    section 3 of RFC 8949 with the decoder's limits in numbers. The decoder
    returns a value and a length exactly when the first bytes denote the value. */
module CborLaws {
  import opened Common
  import opened Cbor
  import opened CborProofs
  import opened CborDecoder

  // ------------------------------------------------------------ the grammar

  /** Major type, argument and length of the head in front of `bytes`. */
  ghost function HeadOf(bytes: seq<byte>): Option<(nat, nat, nat)> {
    if bytes == [] then None
    else
      var major, low := bytes[0] / 32, bytes[0] % 32;
      if low < 24 then Some((major, low, 1))
      else if low == 24 && |bytes| >= 2 then Some((major, BigEndian(bytes[1..2]), 2))
      else if low == 25 && |bytes| >= 3 then Some((major, BigEndian(bytes[1..3]), 3))
      else if low == 26 && |bytes| >= 5 then Some((major, BigEndian(bytes[1..5]), 5))
      else if low == 27 && |bytes| >= 9 then Some((major, BigEndian(bytes[1..9]), 9))
      else None
  }

  ghost function Joined(pieces: seq<seq<byte>>): seq<byte> {
    if pieces == [] then [] else pieces[0] + Joined(pieces[1..])
  }

  ghost predicate Names(v: Value, k: Key) {
    || (v.Int? && k == IntKey(v.i))
    || (v.Text? && k == TextKey(v.t))
  }

  /** Field `i` is the last of the even fields that names `k`. */
  ghost predicate NamesLast(fields: seq<Value>, i: nat, k: Key) {
    && i < |fields| && i % 2 == 0 && Names(fields[i], k)
    && forall j :: i < j < |fields| && j % 2 == 0 ==> !Names(fields[j], k)
  }

  ghost predicate Keyed(fields: seq<Value>) {
    forall i :: 0 <= i < |fields| && i % 2 == 0 ==> fields[i].Int? || fields[i].Text?
  }

  /** The map with these keys and values in turn: a key has the value it was
      given last. */
  ghost predicate IsMapOf(entries: map<Key, Value>, fields: seq<Value>) {
    && |fields| % 2 == 0
    && Keyed(fields)
    && (forall k <- entries :: exists i :: NamesLast(fields, i, k))
    && (forall i, k :: NamesLast(fields, i, k) ==> k in entries && entries[k] == fields[i + 1])
  }

  /** `bytes` are the encoding of `value` and nothing more. */
  ghost predicate Denotes(bytes: seq<byte>, value: Value, depth: nat)
    decreases if depth <= 16 then 17 - depth else 0, 0
  {
    && depth <= 16
    && HeadOf(bytes).Some?
    && var (major, n, size) := HeadOf(bytes).value;
       var body := bytes[size..];
       match major
       case 0 => body == [] && value == Int(if n < 0x8000_0000_0000_0000 then n else n - 0x1_0000_0000_0000_0000)
       case 1 => body == [] && n < 0x8000_0000_0000_0000 && value == Int(-1 - n)
       case 2 => |body| == n <= 1_048_576 && value == Bytes(body)
       case 3 => |body| == n <= 1_048_576 && value == Text(body)
       case 4 =>
         && n <= 1024 && value.Array? && |value.values| == n
         && exists pieces: seq<seq<byte>> ::
              Joined(pieces) == body && DenoteAll(pieces, value.values, depth + 1)
       case 5 =>
         && n <= 1024 && value.Map?
         && exists pieces: seq<seq<byte>>, fields: seq<Value> ::
              Joined(pieces) == body && DenoteAll(pieces, fields, depth + 1)
                  && |fields| == 2 * n && IsMapOf(value.entries, fields)
       case 6 => Denotes(body, value, depth + 1)
       case _ =>
         || (bytes == [0xF4] && value == Bool(false))
         || (bytes == [0xF5] && value == Bool(true))
         || ((bytes == [0xF6] || bytes == [0xF7]) && value == Null)
  }

  ghost predicate DenoteAll(pieces: seq<seq<byte>>, values: seq<Value>, depth: nat)
    decreases if depth <= 16 then 17 - depth else 0, 1
  {
    && |pieces| == |values|
    && forall i :: 0 <= i < |pieces| ==> Denotes(pieces[i], values[i], depth)
  }

  // ------------------------------------------------------------ heads

  lemma HeadIsRead(bytes: seq<byte>)
    ensures HeadOf(bytes).Some? <==> ReadHead(bytes, 0).Some?
    ensures HeadOf(bytes).Some? ==>
              var h := ReadHead(bytes, 0).value;
              HeadOf(bytes) == Some((h.major, h.n, h.next)) && h.next == 1 + SizeOf(h.w)
                  && ArgumentFits(h.w, h.n) && bytes[..h.next] == HeadBytes(h.major, h.w, h.n)
  {
    hide BigEndian, Pow256, HeadBytes;
    if ReadHead(bytes, 0).Some? {
      HeadSound(bytes, 0);
      assert bytes[0..ReadHead(bytes, 0).value.next] == bytes[..ReadHead(bytes, 0).value.next];
    }
  }

  lemma HeadThen(major: nat, w: Width, n: nat, body: seq<byte>)
    requires major < 8 && ArgumentFits(w, n)
    ensures var bytes := HeadBytes(major, w, n) + body;
            HeadOf(bytes) == Some((major, n, 1 + SizeOf(w))) && bytes[1 + SizeOf(w)..] == body
  {
    hide HeadOf, ReadHead, ArgumentFits;
    var bytes := HeadBytes(major, w, n) + body;
    assert bytes[0..|bytes|] == bytes;
    HeadFirst(bytes, 0, major, w, n, body);
    HeadIsRead(bytes);
  }

  // ------------------------------------------------------------ maps

  lemma LastInFront(init: seq<Value>, key: Value, value: Value, i: nat, k: Key)
    requires |init| % 2 == 0
    ensures NamesLast(init + [key, value], i, k)
       <==> if Names(key, k) then i == |init| else NamesLast(init, i, k)
  {
    var fields := init + [key, value];
    assert fields[|init|] == key && forall j :: 0 <= j < |init| ==> fields[j] == init[j];
    if NamesLast(fields, i, k) && !Names(key, k) {
      assert i < |init|;
      assert forall j :: i < j < |init| && j % 2 == 0 ==> !Names(fields[j], k);
    }
    if NamesLast(init, i, k) && !Names(key, k) {
      forall j | i < j < |fields| && j % 2 == 0 ensures !Names(fields[j], k) {
        if j < |init| {
          assert !Names(init[j], k);
        }
      }
    }
    if i == |init| && Names(key, k) {
      assert forall j :: i < j < |fields| && j % 2 == 0 ==> j == i + 1;
    }
  }

  lemma MapStepIs(before: map<Key, Value>, init: seq<Value>, key: Value, value: Value)
    requires IsMapOf(before, init) && (key.Int? || key.Text?)
    ensures IsMapOf(before[ToKey(key) := value], init + [key, value])
  {
    hide NamesLast;
    var fields, after := init + [key, value], before[ToKey(key) := value];
    forall k <- after ensures exists i :: NamesLast(fields, i, k) {
      if k == ToKey(key) {
        LastInFront(init, key, value, |init|, k);
      } else {
        var i :| NamesLast(init, i, k);
        LastInFront(init, key, value, i, k);
      }
    }
    forall i: nat, k | NamesLast(fields, i, k) ensures i + 1 < |fields| && k in after && after[k] == fields[i + 1] {
      LastInFront(init, key, value, i, k);
      LastIsEven(fields, i, k);
      if !Names(key, k) {
        LastIsEven(init, i, k);
      }
    }
  }

  lemma LastIsEven(fields: seq<Value>, i: nat, k: Key)
    requires NamesLast(fields, i, k) && |fields| % 2 == 0
    ensures i + 1 < |fields|
  {
  }

  lemma {:induction false} EntriesAreLast(values: seq<Value>)
    requires |values| % 2 == 0 && Keyed(values)
    ensures IsMapOf(Entries(values), values)
  {
    if values != [] {
      hide IsMapOf;
      var n := |values|;
      var init := values[..n - 2];
      EntriesAreLast(init);
      MapStepIs(Entries(init), init, values[n - 2], values[n - 1]);
      assert values == init + [values[n - 2], values[n - 1]];
    }
  }

  lemma OneMap(a: map<Key, Value>, b: map<Key, Value>, fields: seq<Value>)
    requires IsMapOf(a, fields) && IsMapOf(b, fields)
    ensures a == b
  {
    forall k | k in a || k in b ensures k in a && k in b && a[k] == b[k] {
      var i :| NamesLast(fields, i, k);
    }
  }

  /** Supported pairs are supported items with a key in each even place. */
  lemma {:induction false} PairsAreItems(items: seq<Item>, depth: nat)
    requires |items| % 2 == 0
    ensures PairsSupported(items, depth) <==> AllSupported(items, depth) && Keyed(Meanings(items))
  {
    hide Supported, Meaning, Meanings, Keyed;
    if items == [] {
      NothingIsKeyed();
    } else {
      var second, rest := items[1..], items[2..];
      PairsAreItems(rest, depth);
      assert second[1..] == rest && second[0] == items[1];
      assert AllSupported(items, depth)
        <==> Supported(items[0], depth) && Supported(items[1], depth) && AllSupported(rest, depth);
      MeaningsFirst(items);
      MeaningsFirst(second);
      assert Meanings(items) == [Meaning(items[0]), Meaning(items[1])] + Meanings(rest);
      KeyedInFront(Meaning(items[0]), Meaning(items[1]), Meanings(rest));
    }
  }

  lemma NothingIsKeyed()
    ensures Keyed([]) && Meanings([]) == []
  {
  }

  lemma MeaningsFirst(items: seq<Item>)
    requires items != []
    ensures Meanings(items) == [Meaning(items[0])] + Meanings(items[1..])
  {
  }

  lemma KeyedInFront(key: Value, value: Value, rest: seq<Value>)
    ensures Keyed([key, value] + rest) <==> (key.Int? || key.Text?) && Keyed(rest)
  {
    var fields := [key, value] + rest;
    assert forall i :: 0 <= i < |rest| ==> rest[i] == fields[i + 2];
    assert forall i :: 2 <= i < |fields| ==> fields[i] == rest[i - 2];
    if Keyed(fields) {
      assert fields[0] == key;
      forall i | 0 <= i < |rest| && i % 2 == 0 ensures rest[i].Int? || rest[i].Text? {
        assert fields[i + 2] == rest[i];
      }
    }
    if Keyed(rest) && (key.Int? || key.Text?) {
      forall i | 0 <= i < |fields| && i % 2 == 0 ensures fields[i].Int? || fields[i].Text? {
        if i >= 2 {
          assert fields[i] == rest[i - 2];
        }
      }
    }
  }

  // ------------------------------------------------------------ a supported item denotes its meaning

  lemma {:induction false} ItemDenotes(item: Item, depth: nat)
    requires WellFormed(item) && Supported(item, depth)
    ensures Denotes(Serialize(item), Meaning(item), depth)
    decreases item, 1
  {
    hide HeadOf, HeadBytes, Entries, Meanings, IsMapOf, Joined;
    match item
    case Unsigned(w, n) =>
      HeadThen(0, w, n, []);
      assert Serialize(item) == HeadBytes(0, w, n) + [];
    case Negative(w, n) =>
      HeadThen(1, w, n, []);
      assert Serialize(item) == HeadBytes(1, w, n) + [];
    case ByteString(w, bytes) => HeadThen(2, w, |bytes|, bytes);
    case TextString(w, bytes) => HeadThen(3, w, |bytes|, bytes);
    case ArrayOf(w, items) =>
      HeadThen(4, w, |items|, SerializeAll(items));
      var pieces := ItemsDenote(items, depth + 1);
    case MapOf(w, items) =>
      HeadThen(5, w, |items| / 2, SerializeAll(items));
      PairsAreItems(items, depth + 1);
      var pieces := ItemsDenote(items, depth + 1);
      EntriesAreLast(Meanings(items));
    case Tagged(w, tag, content) =>
      HeadThen(6, w, tag, Serialize(content));
      ItemDenotes(content, depth + 1);
    case Simple(code) =>
      HeadThen(7, Direct, code, []);
      assert Serialize(item) == HeadBytes(7, Direct, code) + [];
      SimpleBytes(code);
  }

  lemma SimpleBytes(code: nat)
    requires code < 24
    ensures HeadBytes(7, Direct, code) == [224 + code]
  {
  }

  lemma {:induction false} ItemsDenote(items: seq<Item>, depth: nat) returns (pieces: seq<seq<byte>>)
    requires AllWellFormed(items) && AllSupported(items, depth)
    ensures Joined(pieces) == SerializeAll(items) && DenoteAll(pieces, Meanings(items), depth)
    decreases items, 0
  {
    hide Serialize, Supported, WellFormed, Meaning, Denotes;
    pieces := [];
    if items != [] {
      var rest := ItemsDenote(items[1..], depth);
      ItemDenotes(items[0], depth);
      pieces := [Serialize(items[0])] + rest;
      assert pieces[1..] == rest;
    }
  }

  // ------------------------------------------------------------ what denotes a value is a supported item

  lemma {:induction false} DenotesItem(bytes: seq<byte>, value: Value, depth: nat) returns (item: Item)
    requires Denotes(bytes, value, depth)
    ensures WellFormed(item) && Supported(item, depth) && Serialize(item) == bytes && Meaning(item) == value
    decreases if depth <= 16 then 17 - depth else 0, 0, 1
  {
    hide HeadOf, ReadHead, HeadBytes, ArgumentFits, Entries, Meanings, IsMapOf, Joined;
    HeadIsRead(bytes);
    var h := ReadHead(bytes, 0).value;
    var w, n, body := h.w, h.n, bytes[h.next..];
    assert bytes == bytes[..h.next] + body;
    if h.major == 0 {
      item := Unsigned(w, n);
    } else if h.major == 1 {
      item := Negative(w, n);
    } else if h.major == 2 {
      item := ByteString(w, body);
    } else if h.major == 3 {
      item := TextString(w, body);
    } else if h.major == 4 {
      item := DenotesArray(bytes, value, depth, h);
    } else if h.major == 5 {
      item := DenotesMap(bytes, value, depth, h);
    } else if h.major == 6 {
      var content := DenotesItem(body, value, depth + 1);
      item := Tagged(w, n, content);
    } else {
      item := Simple(bytes[0] - 224);
      SimpleBytes(bytes[0] - 224);
    }
  }

  /** The head in front of `bytes`, in both forms. */
  ghost predicate HasHead(bytes: seq<byte>, h: Head) {
    && h.next <= |bytes| && h.major < 8 && ArgumentFits(h.w, h.n)
    && HeadOf(bytes) == Some((h.major, h.n, h.next))
    && bytes[..h.next] == HeadBytes(h.major, h.w, h.n)
  }

  lemma {:induction false} DenotesArray(bytes: seq<byte>, value: Value, depth: nat, h: Head) returns (item: Item)
    requires Denotes(bytes, value, depth) && HasHead(bytes, h) && h.major == 4
    ensures WellFormed(item) && Supported(item, depth) && Serialize(item) == bytes && Meaning(item) == value
    decreases if depth <= 16 then 17 - depth else 0, 0, 0
  {
    hide HeadOf, HeadBytes, ArgumentFits, Joined, Meanings, DenoteAll, AllWellFormed, AllSupported, SerializeAll;
    var body := bytes[h.next..];
    var pieces: seq<seq<byte>> :| Joined(pieces) == body && DenoteAll(pieces, value.values, depth + 1);
    hide Denotes;
    var items := DenoteItems(pieces, value.values, depth + 1);
    item := ArrayOf(h.w, items);
    assert bytes == bytes[..h.next] + body;
  }

  lemma {:induction false} DenotesMap(bytes: seq<byte>, value: Value, depth: nat, h: Head) returns (item: Item)
    requires Denotes(bytes, value, depth) && HasHead(bytes, h) && h.major == 5
    ensures WellFormed(item) && Supported(item, depth) && Serialize(item) == bytes && Meaning(item) == value
    decreases if depth <= 16 then 17 - depth else 0, 0, 0
  {
    hide HeadOf, HeadBytes, ArgumentFits, Joined, Meanings, DenoteAll, AllWellFormed, AllSupported, SerializeAll;
    hide Entries, IsMapOf, PairsSupported;
    var body := bytes[h.next..];
    var pieces: seq<seq<byte>>, fields: seq<Value> :|
      Joined(pieces) == body && DenoteAll(pieces, fields, depth + 1)
          && |fields| == 2 * h.n && IsMapOf(value.entries, fields);
    hide Denotes;
    var items := DenoteItems(pieces, fields, depth + 1);
    item := MapOf(h.w, items);
    MapItem(items, depth + 1, value.entries);
    assert bytes == bytes[..h.next] + body;
  }

  lemma MapItem(items: seq<Item>, depth: nat, entries: map<Key, Value>)
    requires IsMapOf(entries, Meanings(items)) && AllSupported(items, depth)
    ensures |items| % 2 == 0 && PairsSupported(items, depth) && Entries(Meanings(items)) == entries
  {
    hide Entries, PairsSupported, AllSupported, Meanings;
    PairsAreItems(items, depth);
    EntriesAreLast(Meanings(items));
    OneMap(entries, Entries(Meanings(items)), Meanings(items));
  }

  lemma {:induction false} DenoteItems(pieces: seq<seq<byte>>, values: seq<Value>, depth: nat)
    returns (items: seq<Item>)
    requires DenoteAll(pieces, values, depth)
    ensures AllWellFormed(items) && AllSupported(items, depth)
    ensures SerializeAll(items) == Joined(pieces) && Meanings(items) == values
    decreases if depth <= 16 then 17 - depth else 0, 1, |pieces|
  {
    hide Serialize, Supported, WellFormed, Meaning, Denotes;
    items := [];
    if pieces != [] {
      var first := DenotesItem(pieces[0], values[0], depth);
      var rest := DenoteItems(pieces[1..], values[1..], depth);
      items := [first] + rest;
      assert items[0] == first && items[1..] == rest && values == [values[0]] + values[1..];
    }
  }

  // ------------------------------------------------------------ the theorem

  /** The decoder returns `value` and `length` exactly when the first `length`
      bytes denote the value. */
  lemma DecodesWhatIsDenoted(data: seq<byte>, value: Value, length: nat)
    ensures Decode(data) == Some((value, length)) <==> length <= |data| && Denotes(data[..length], value, 0)
  {
    hide ParseItem, Serialize, Supported, WellFormed, Meaning, Denotes;
    if Decode(data) == Some((value, length)) {
      var (item, end) := ParseItem(data, 0, 0).value;
      ItemSound(data, 0, 0);
      assert data[0..end] == data[..length];
      ItemDenotes(item, 0);
    }
    if length <= |data| && Denotes(data[..length], value, 0) {
      var item := DenotesItem(data[..length], value, 0);
      assert data[0..length] == data[..length];
      ItemComplete(item, data, 0, 0);
    }
  }

  /** The first byte of an argument is the most significant one. */
  lemma {:induction false} MostSignificantFirst(first: byte, rest: seq<byte>)
    ensures BigEndian([first] + rest) == first * Pow256(|rest|) + BigEndian(rest)
  {
    var bytes := [first] + rest;
    if rest == [] {
      assert bytes[..0] == [];
    } else {
      var init := rest[..|rest| - 1];
      MostSignificantFirst(first, init);
      assert bytes[..|bytes| - 1] == [first] + init;
    }
  }
}
