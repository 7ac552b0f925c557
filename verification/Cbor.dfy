/** The definite-length subset of CBOR (section 3 of RFC 8949) that passkey
    registration reads: a wire format, the values it stands for, and a decoder
    that moves a cursor over the input. */
module Cbor {
  import opened Common

  // ------------------------------------------------------------ big-endian numbers

  function BigEndian(bytes: seq<byte>): nat {
    if bytes == [] then 0 else BigEndian(bytes[..|bytes| - 1]) * 256 + bytes[|bytes| - 1]
  }

  function ToBigEndian(n: nat, size: nat): (bytes: seq<byte>)
    ensures |bytes| == size
  {
    if size == 0 then [] else ToBigEndian(n / 256, size - 1) + [n % 256]
  }

  lemma {:induction false} BigEndianRoundTrip(bytes: seq<byte>)
    ensures BigEndian(bytes) < Pow256(|bytes|) && ToBigEndian(BigEndian(bytes), |bytes|) == bytes
  {
    if bytes != [] {
      var init := bytes[..|bytes| - 1];
      BigEndianRoundTrip(init);
      assert BigEndian(bytes) / 256 == BigEndian(init);
    }
  }

  lemma {:induction false} ToBigEndianRoundTrip(n: nat, size: nat)
    requires n < Pow256(size)
    ensures BigEndian(ToBigEndian(n, size)) == n
  {
    if size > 0 {
      ToBigEndianRoundTrip(n / 256, size - 1);
      var bytes := ToBigEndian(n, size);
      assert bytes[..|bytes| - 1] == ToBigEndian(n / 256, size - 1);
    }
  }

  // ------------------------------------------------------------ the wire

  /** How many bytes of argument follow the initial byte. */
  datatype Width = Direct | One | Two | Four | Eight

  function SizeOf(w: Width): nat {
    match w
    case Direct => 0
    case One => 1
    case Two => 2
    case Four => 4
    case Eight => 8
  }

  /** A data item as it lies on the wire. The argument may be written wider than
      necessary; a map is the flat list of its keys and values. */
  datatype Item =
    | Unsigned(w: Width, n: nat)
    | Negative(w: Width, n: nat)
    | ByteString(w: Width, bytes: seq<byte>)
    | TextString(w: Width, bytes: seq<byte>)
    | ArrayOf(w: Width, items: seq<Item>)
    | MapOf(w: Width, items: seq<Item>)
    | Tagged(w: Width, tag: nat, content: Item)
    | Simple(code: nat)

  predicate ArgumentFits(w: Width, n: nat) {
    if w == Direct then n < 24 else n < Pow256(SizeOf(w))
  }

  function Additional(w: Width, n: nat): (a: nat)
    requires ArgumentFits(w, n)
    ensures a < 28
  {
    match w
    case Direct => n
    case One => 24
    case Two => 25
    case Four => 26
    case Eight => 27
  }

  /** Initial byte and argument, section 3 of RFC 8949. */
  function HeadBytes(major: nat, w: Width, n: nat): seq<byte>
    requires major < 8 && ArgumentFits(w, n)
  {
    [major * 32 + Additional(w, n)] + ToBigEndian(n, SizeOf(w))
  }

  /** Arguments fit their width, throughout. */
  predicate WellFormed(item: Item)
    decreases item, 1
  {
    match item
    case Unsigned(w, n) => ArgumentFits(w, n)
    case Negative(w, n) => ArgumentFits(w, n)
    case ByteString(w, bytes) => ArgumentFits(w, |bytes|)
    case TextString(w, bytes) => ArgumentFits(w, |bytes|)
    case ArrayOf(w, items) => ArgumentFits(w, |items|) && AllWellFormed(items)
    case MapOf(w, items) => |items| % 2 == 0 && ArgumentFits(w, |items| / 2) && AllWellFormed(items)
    case Tagged(w, tag, content) => ArgumentFits(w, tag) && WellFormed(content)
    case Simple(code) => code < 24
  }

  predicate AllWellFormed(items: seq<Item>)
    decreases items, 0
  {
    items == [] || (WellFormed(items[0]) && AllWellFormed(items[1..]))
  }

  function Serialize(item: Item): (bytes: seq<byte>)
    requires WellFormed(item)
    ensures |bytes| >= 1
    decreases item, 1
  {
    match item
    case Unsigned(w, n) => HeadBytes(0, w, n)
    case Negative(w, n) => HeadBytes(1, w, n)
    case ByteString(w, bytes) => HeadBytes(2, w, |bytes|) + bytes
    case TextString(w, bytes) => HeadBytes(3, w, |bytes|) + bytes
    case ArrayOf(w, items) => HeadBytes(4, w, |items|) + SerializeAll(items)
    case MapOf(w, items) => HeadBytes(5, w, |items| / 2) + SerializeAll(items)
    case Tagged(w, tag, content) => HeadBytes(6, w, tag) + Serialize(content)
    case Simple(code) => HeadBytes(7, Direct, code)
  }

  function SerializeAll(items: seq<Item>): seq<byte>
    requires AllWellFormed(items)
    decreases items, 0
  {
    if items == [] then [] else Serialize(items[0]) + SerializeAll(items[1..])
  }

  // ------------------------------------------------------------ values

  datatype Key = IntKey(i: int) | TextKey(t: seq<byte>)

  datatype Value =
    | Int(i: int)
    | Bytes(b: seq<byte>)
    | Text(t: seq<byte>)
    | Array(values: seq<Value>)
    | Map(entries: map<Key, Value>)
    | Bool(flag: bool)
    | Null

  const TWO63: nat := 0x8000_0000_0000_0000
  const TWO64: nat := 0x1_0000_0000_0000_0000

  /** `int64(length)` of an unsigned 64-bit number: no range check. */
  function ToInt64(n: nat): int {
    if n < TWO63 then n else n - TWO64
  }

  predicate IsKey(v: Value) { v.Int? || v.Text? }

  function ToKey(v: Value): Key {
    match v
    case Int(i) => IntKey(i)
    case Text(t) => TextKey(t)
    case _ => TextKey([])
  }

  /** Later duplicates of a key win. */
  function Entries(values: seq<Value>): map<Key, Value> {
    if |values| < 2 then map[]
    else
      var n := |values|;
      Entries(values[..n - 2])[ToKey(values[n - 2]) := values[n - 1]]
  }

  /** Tags carry no meaning here. */
  function Meaning(item: Item): Value
    decreases item, 1
  {
    match item
    case Unsigned(_, n) => Int(ToInt64(n))
    case Negative(_, n) => Int(-1 - n)
    case ByteString(_, bytes) => Bytes(bytes)
    case TextString(_, bytes) => Text(bytes)
    case ArrayOf(_, items) => Array(Meanings(items))
    case MapOf(_, items) => Map(Entries(Meanings(items)))
    case Tagged(_, _, content) => Meaning(content)
    case Simple(code) => if code == 20 then Bool(false) else if code == 21 then Bool(true) else Null
  }

  function Meanings(items: seq<Item>): (values: seq<Value>)
    ensures |values| == |items|
    decreases items, 0
  {
    if items == [] then [] else [Meaning(items[0])] + Meanings(items[1..])
  }

  // ------------------------------------------------------------ limits

  const MAX_DEPTH: nat := 16
  const MAX_ELEMENTS: nat := 1024
  const MAX_STRING: nat := 0x10_0000

  /** What the decoder accepts of a well-formed item met at `depth`. */
  predicate Supported(item: Item, depth: nat)
    decreases item, 1
  {
    && depth <= MAX_DEPTH
    && match item
       case Unsigned(_, _) => true
       case Negative(_, n) => n < TWO63
       case ByteString(_, bytes) => |bytes| <= MAX_STRING
       case TextString(_, bytes) => |bytes| <= MAX_STRING
       case ArrayOf(_, items) => |items| <= MAX_ELEMENTS && AllSupported(items, depth + 1)
       case MapOf(_, items) => |items| % 2 == 0 && |items| / 2 <= MAX_ELEMENTS && PairsSupported(items, depth + 1)
       case Tagged(_, _, content) => Supported(content, depth + 1)
       case Simple(code) => 20 <= code <= 23
  }

  predicate AllSupported(items: seq<Item>, depth: nat)
    decreases items, 0
  {
    items == [] || (Supported(items[0], depth) && AllSupported(items[1..], depth))
  }

  predicate PairsSupported(items: seq<Item>, depth: nat)
    requires |items| % 2 == 0
    decreases items, 0
  {
    items == [] ||
    (&& Supported(items[0], depth) && IsKey(Meaning(items[0]))
     && Supported(items[1], depth)
     && PairsSupported(items[2..], depth))
  }

  // ------------------------------------------------------------ the decoder's function

  datatype Head = Head(major: nat, w: Width, n: nat, next: nat)

  function WidthOf(additional: nat): Option<Width> {
    if additional < 24 then Some(Direct)
    else if additional == 24 then Some(One)
    else if additional == 25 then Some(Two)
    else if additional == 26 then Some(Four)
    else if additional == 27 then Some(Eight)
    else None
  }

  function ReadArgument(data: seq<byte>, pos: nat, additional: nat): Option<(nat, nat)>
    requires pos <= |data|
  {
    match WidthOf(additional)
    case None => None
    case Some(w) =>
      if w == Direct then Some((additional, pos))
      else if pos + SizeOf(w) > |data| then None
      else Some((BigEndian(data[pos..pos + SizeOf(w)]), pos + SizeOf(w)))
  }

  function ReadHead(data: seq<byte>, pos: nat): (h: Option<Head>)
    ensures h.Some? ==> pos < h.value.next <= |data| && h.value.major < 8
  {
    if pos >= |data| then None
    else
      var initial := data[pos];
      match ReadArgument(data, pos + 1, initial % 32)
      case None => None
      case Some((n, next)) => Some(Head(initial / 32, WidthOf(initial % 32).value, n, next))
  }

  /** One data item at `pos`, as a wire item and the position after it. */
  function ParseItem(data: seq<byte>, pos: nat, depth: nat): (r: Option<(Item, nat)>)
    ensures r.Some? ==> pos < r.value.1 <= |data|
    decreases MAX_DEPTH + 1 - depth, 0, 1
  {
    if depth > MAX_DEPTH then None
    else
      match ReadHead(data, pos)
      case None => None
      case Some(Head(major, w, n, next)) =>
        if major == 0 then Some((Unsigned(w, n), next))
        else if major == 1 then
          if n >= TWO63 then None else Some((Negative(w, n), next))
        else if major == 2 || major == 3 then
          if n > |data| - next || n > MAX_STRING then None
          else
            var bytes := data[next..next + n];
            Some((if major == 2 then ByteString(w, bytes) else TextString(w, bytes), next + n))
        else if major == 4 then
          if n > MAX_ELEMENTS then None
          else
            (match ParseItems(data, next, n, depth + 1)
             case None => None
             case Some((items, end)) => Some((ArrayOf(w, items), end)))
        else if major == 5 then
          if n > MAX_ELEMENTS then None
          else
            (match ParsePairs(data, next, n, depth + 1)
             case None => None
             case Some((items, end)) => Some((MapOf(w, items), end)))
        else if major == 6 then
          (match ParseItem(data, next, depth + 1)
           case None => None
           case Some((content, end)) => Some((Tagged(w, n, content), end)))
        else if w == Direct && 20 <= n <= 23 then Some((Simple(n), next))
        else None
  }

  function ParseItems(data: seq<byte>, pos: nat, count: nat, depth: nat): (r: Option<(seq<Item>, nat)>)
    requires pos <= |data| && depth > 0
    ensures r.Some? ==> pos <= r.value.1 <= |data| && |r.value.0| == count
    decreases MAX_DEPTH + 1 - depth, count, 2
  {
    if count == 0 then Some(([], pos))
    else
      match ParseItem(data, pos, depth)
      case None => None
      case Some((first, next)) =>
        match ParseItems(data, next, count - 1, depth)
        case None => None
        case Some((rest, end)) => Some(([first] + rest, end))
  }

  function ParsePairs(data: seq<byte>, pos: nat, count: nat, depth: nat): (r: Option<(seq<Item>, nat)>)
    requires pos <= |data| && depth > 0
    ensures r.Some? ==> pos <= r.value.1 <= |data| && |r.value.0| == 2 * count
    decreases MAX_DEPTH + 1 - depth, count, 2
  {
    if count == 0 then Some(([], pos))
    else
      match ParseItem(data, pos, depth)
      case None => None
      case Some((key, middle)) =>
        if !IsKey(Meaning(key)) then None
        else
          match ParseItem(data, middle, depth)
          case None => None
          case Some((value, next)) =>
            match ParsePairs(data, next, count - 1, depth)
            case None => None
            case Some((rest, end)) => Some(([key, value] + rest, end))
  }
}
