/** Passkey registration: the "none" attestation object of section 8.7 of Web
    Authentication Level 2, its authenticator data (section 6.1) with attested
    credential data (section 6.5.1), and the parser that reads them. */
module Attestation {
  import opened Common
  import opened Cbor
  import opened CborProofs
  import opened CborDecoder

  datatype Credential = Credential(id: seq<byte>, x: seq<byte>, y: seq<byte>, signCount: nat)

  // "fmt", "none", "attStmt" and "authData" in ASCII
  const FMT: seq<byte> := [102, 109, 116]
  const NONE: seq<byte> := [110, 111, 110, 101]
  const ATT_STMT: seq<byte> := [97, 116, 116, 83, 116, 109, 116]
  const AUTH_DATA: seq<byte> := [97, 117, 116, 104, 68, 97, 116, 97]

  function Lookup(m: map<Key, Value>, k: Key): Option<Value> {
    if k in m then Some(m[k]) else None
  }

  /** Bits 0, 2 and 6: user present, user verified, attested credential data
      included; the mask is 0x45. */
  predicate FlagsSet(flags: byte) {
    flags % 2 == 1 && flags / 4 % 2 == 1 && flags / 64 % 2 == 1
  }

  /** The flags are set exactly when masking with 0x45 leaves 0x45. */
  lemma FlagsAreMasked(flags: bv8)
    ensures FlagsSet(flags as byte) <==> flags & 0x45 == 0x45
  {
    LowBits(flags);
    assert flags & 0x45 == 0x45 <==> flags & 1 == 1 && flags & 4 == 4 && flags & 64 == 64;
  }

  lemma LowBits(bits: bv8)
    ensures bits as int % 2 == 1 <==> bits & 1 == 1
    ensures bits as int / 4 % 2 == 1 <==> bits & 4 == 4
    ensures bits as int / 64 % 2 == 1 <==> bits & 64 == 64
  {
    assert bits as int / 4 == (bits >> 2) as int;
    assert bits as int / 64 == (bits >> 6) as int;
  }

  predicate IsAscii(codes: seq<byte>, text: string) {
    |codes| == |text| && forall i :: 0 <= i < |codes| ==> codes[i] == text[i] as int
  }

  lemma FieldNames()
    ensures IsAscii(FMT, "fmt") && IsAscii(NONE, "none")
    ensures IsAscii(ATT_STMT, "attStmt") && IsAscii(AUTH_DATA, "authData")
  {
  }

  // ------------------------------------------------------------ the parser

  type Curve = (seq<byte>, seq<byte>) -> bool

  function ParseNoneAttestation(data: seq<byte>, rpHash: seq<byte>, onCurve: Curve): Option<Credential> {
    match Decode(data)
    case None => None
    case Some((value, _)) =>
      if !value.Map? || Lookup(value.entries, TextKey(FMT)) != Some(Text(NONE)) then None
      else
        match Lookup(value.entries, TextKey(AUTH_DATA))
        case None => None
        case Some(auth) => if auth.Bytes? then ParseAuthenticatorData(auth.b, rpHash, onCurve) else None
  }

  function ParseAuthenticatorData(authData: seq<byte>, rpHash: seq<byte>, onCurve: Curve): Option<Credential> {
    if |authData| < 55 || authData[..32] != rpHash || !FlagsSet(authData[32]) then None
    else
      var signCount := BigEndian(authData[33..37]);
      var length := BigEndian(authData[53..55]);
      if length < 16 || length > 1024 || 55 + length >= |authData| then None
      else
        match ParseKey(authData[55 + length..], onCurve)
        case None => None
        case Some((x, y)) => Some(Credential(authData[55..55 + length], x, y, signCount))
  }

  function ParseKey(bytes: seq<byte>, onCurve: Curve): Option<(seq<byte>, seq<byte>)> {
    match Decode(bytes)
    case None => None
    case Some((value, _)) =>
      if !value.Map? || Lookup(value.entries, IntKey(1)) != Some(Int(2))
         || Lookup(value.entries, IntKey(3)) != Some(Int(-7))
             || Lookup(value.entries, IntKey(-1)) != Some(Int(1)) then None
      else
        match (Lookup(value.entries, IntKey(-2)), Lookup(value.entries, IntKey(-3)))
        case (Some(x), Some(y)) =>
          if x.Bytes? && y.Bytes? && |x.b| == 32 && |y.b| == 32 && onCurve(x.b, y.b) then Some((x.b, y.b)) else None
        case _ => None
  }

  // ------------------------------------------------------------ the layout

  /** Authenticator data with attested credential data; `rest` is the public key
      and whatever extensions follow it. */
  datatype AuthenticatorData =
    AuthenticatorData(rpHash: seq<byte>, flags: byte, signCount: nat, aaguid: seq<byte>, id: seq<byte>, rest: seq<byte>)

  predicate Sized(a: AuthenticatorData) {
    |a.rpHash| == 32 && a.signCount < Pow256(4) && |a.aaguid| == 16 && |a.id| < Pow256(2)
  }

  function Prefix(a: AuthenticatorData): (p: seq<byte>)
    requires |a.rpHash| == 32 && |a.aaguid| == 16
    ensures |p| == 55
  {
    a.rpHash + [a.flags] + ToBigEndian(a.signCount, 4) + a.aaguid + ToBigEndian(|a.id|, 2)
  }

  function LayOut(a: AuthenticatorData): seq<byte>
    requires Sized(a)
  {
    Prefix(a) + a.id + a.rest
  }

  lemma LayOutParts(a: AuthenticatorData)
    requires Sized(a)
    ensures var d := LayOut(a);
            && |d| >= 55 && d[..32] == a.rpHash && d[32] == a.flags
            && BigEndian(d[33..37]) == a.signCount && BigEndian(d[53..55]) == |a.id|
            && |d| == 55 + |a.id| + |a.rest| && d[55..55 + |a.id|] == a.id && d[55 + |a.id|..] == a.rest
  {
    hide BigEndian, ToBigEndian, Pow256;
    var d := LayOut(a);
    ToBigEndianRoundTrip(a.signCount, 4);
    ToBigEndianRoundTrip(|a.id|, 2);
    assert d[33..37] == ToBigEndian(a.signCount, 4);
    assert d[53..55] == ToBigEndian(|a.id|, 2);
    assert d[55..55 + |a.id|] == a.id;
    assert d[55 + |a.id|..] == a.rest;
  }

  /** Every byte string long enough for its own id length is laid out so. */
  lemma AnyBytesAreLaidOut(d: seq<byte>) returns (a: AuthenticatorData)
    requires |d| >= 55 && 55 + BigEndian(d[53..55]) <= |d|
    ensures Sized(a) && LayOut(a) == d
  {
    hide BigEndian, ToBigEndian, Pow256;
    var length := BigEndian(d[53..55]);
    BigEndianRoundTrip(d[33..37]);
    BigEndianRoundTrip(d[53..55]);
    a := AuthenticatorData(d[..32], d[32], BigEndian(d[33..37]), d[37..53], d[55..55 + length], d[55 + length..]);
    assert Prefix(a) == d[..55];
    assert d == d[..55] + d[55..55 + length] + d[55 + length..];
  }

  // ------------------------------------------------------------ what is accepted

  /** An ES256 key in COSE form (section 7 of RFC 9053): key type EC2,
      algorithm ES256, curve P-256, coordinates x and y. */
  ghost predicate IsEs256(value: Value, x: seq<byte>, y: seq<byte>) {
    && value.Map?
    && Lookup(value.entries, IntKey(1)) == Some(Int(2)) && Lookup(value.entries, IntKey(3)) == Some(Int(-7))
    && Lookup(value.entries, IntKey(-1)) == Some(Int(1))
    && Lookup(value.entries, IntKey(-2)) == Some(Bytes(x)) && Lookup(value.entries, IntKey(-3)) == Some(Bytes(y))
    && |x| == 32 && |y| == 32
  }

  ghost predicate IsNoneAttestation(value: Value, authData: seq<byte>) {
    && value.Map?
    && Lookup(value.entries, TextKey(FMT)) == Some(Text(NONE))
    && Lookup(value.entries, TextKey(AUTH_DATA)) == Some(Bytes(authData))
  }

  /** `data` is an attestation object around authenticator data `a` whose public
      key item is `key`, for the relying party and the credential given. */
  ghost predicate Attests(data: seq<byte>, envelope: Item, a: AuthenticatorData, key: Item, rpHash: seq<byte>,
                          c: Credential) {
    && StartsWith(data, envelope) && Supported(envelope, 0)
    && Sized(a) && IsNoneAttestation(Meaning(envelope), LayOut(a))
    && a.rpHash == rpHash && FlagsSet(a.flags) && 16 <= |a.id| <= 1024
    && StartsWith(a.rest, key) && Supported(key, 0) && IsEs256(Meaning(key), c.x, c.y)
    && c.id == a.id && c.signCount == a.signCount
  }

  lemma DecodeOf(data: seq<byte>, item: Item)
    requires StartsWith(data, item) && Supported(item, 0)
    ensures Decode(data) == Some((Meaning(item), |Serialize(item)|))
  {
    hide ParseItem, Supported, Meaning, Serialize, WellFormed;
    DecodesIffStartsWith(data, item, |Serialize(item)|);
  }

  lemma DecodedFrom(data: seq<byte>) returns (item: Item)
    requires Decode(data).Some?
    ensures StartsWith(data, item) && Supported(item, 0) && Decode(data).value.0 == Meaning(item)
  {
    hide Supported, Meaning, Serialize, WellFormed;
    var r := ParseItem(data, 0, 0).value;
    item := r.0;
    DecodesIffStartsWith(data, item, r.1);
  }

  /** Whatever lies in the layout is read back exactly. */
  lemma AttestationAccepted(data: seq<byte>, envelope: Item, a: AuthenticatorData, key: Item, rpHash: seq<byte>,
                            onCurve: Curve, c: Credential)
    requires Attests(data, envelope, a, key, rpHash, c) && onCurve(c.x, c.y)
    ensures ParseNoneAttestation(data, rpHash, onCurve) == Some(c)
  {
    hide ParseItem, Supported, Meaning, Serialize, WellFormed, BigEndian, LayOut, Pow256, Decode, FlagsSet, StartsWith;
    DecodeOf(data, envelope);
    LayOutParts(a);
    KeyAccepted(a.rest, key, onCurve, c.x, c.y);
    LaidOutAccepted(a, rpHash, onCurve, c);
  }

  lemma KeyAccepted(bytes: seq<byte>, key: Item, onCurve: Curve, x: seq<byte>, y: seq<byte>)
    requires StartsWith(bytes, key) && Supported(key, 0) && IsEs256(Meaning(key), x, y) && onCurve(x, y)
    ensures ParseKey(bytes, onCurve) == Some((x, y)) && |bytes| > 0
  {
    hide ParseItem, Supported, Meaning, WellFormed, Decode;
    DecodeOf(bytes, key);
  }

  lemma LaidOutAccepted(a: AuthenticatorData, rpHash: seq<byte>, onCurve: Curve, c: Credential)
    requires Sized(a) && a.rpHash == rpHash && FlagsSet(a.flags) && 16 <= |a.id| <= 1024 && |a.rest| > 0
    requires ParseKey(a.rest, onCurve) == Some((c.x, c.y)) && c.id == a.id && c.signCount == a.signCount
    ensures ParseAuthenticatorData(LayOut(a), rpHash, onCurve) == Some(c)
  {
    hide BigEndian, LayOut, Pow256, FlagsSet, ParseKey;
    LayOutParts(a);
  }

  /** Whatever is accepted lies in the layout, and the key is on the curve. */
  lemma AcceptedAttestation(data: seq<byte>, rpHash: seq<byte>, onCurve: Curve)
    returns (envelope: Item, a: AuthenticatorData, key: Item)
    requires ParseNoneAttestation(data, rpHash, onCurve).Some?
    ensures var c := ParseNoneAttestation(data, rpHash, onCurve).value;
            Attests(data, envelope, a, key, rpHash, c) && onCurve(c.x, c.y)
  {
    hide ParseItem, Supported, Meaning, Serialize, WellFormed, BigEndian, LayOut, Pow256, Decode, FlagsSet, StartsWith;
    envelope := DecodedFrom(data);
    var authData := Lookup(Meaning(envelope).entries, TextKey(AUTH_DATA)).value.b;
    assert IsNoneAttestation(Meaning(envelope), authData);
    a := AnyBytesAreLaidOut(authData);
    LayOutParts(a);
    key := DecodedFrom(a.rest);
  }

  /** A registration is accepted with a credential exactly when the input starts
      with an attestation object, within the decoder's limits and in any
      encoding of it, whose authenticator data is laid out as sections 6.1 and
      6.5.1 say, for this relying party, flags set, and whose key is on the
      curve. */
  lemma AcceptsExactlyTheLayout(data: seq<byte>, rpHash: seq<byte>, onCurve: Curve, c: Credential)
    ensures ParseNoneAttestation(data, rpHash, onCurve) == Some(c)
       <==> onCurve(c.x, c.y) && exists envelope, a, key :: Attests(data, envelope, a, key, rpHash, c)
  {
    hide ParseNoneAttestation, Attests;
    if ParseNoneAttestation(data, rpHash, onCurve) == Some(c) {
      var envelope, a, key := AcceptedAttestation(data, rpHash, onCurve);
      assert Attests(data, envelope, a, key, rpHash, c);
    }
    if onCurve(c.x, c.y) && exists envelope, a, key :: Attests(data, envelope, a, key, rpHash, c) {
      var envelope, a, key :| Attests(data, envelope, a, key, rpHash, c);
      AttestationAccepted(data, envelope, a, key, rpHash, onCurve, c);
    }
  }

  // ------------------------------------------------------------ a registration as a browser sends it

  function Small(n: nat): Item { Unsigned(Direct, n) }

  /** The COSE key: 1 -> 2, 3 -> -7, -1 -> 1, -2 -> x, -3 -> y. */
  function KeyItem(x: seq<byte>, y: seq<byte>): Item {
    MapOf(Direct, [Small(1), Small(2), Small(3), Negative(Direct, 6), Negative(Direct, 0), Small(1),
                   Negative(Direct, 1), ByteString(One, x), Negative(Direct, 2), ByteString(One, y)])
  }

  /** {"fmt": "none", "attStmt": {}, "authData": bytes}. */
  function ObjectItem(authData: seq<byte>): Item {
    MapOf(Direct, [TextString(Direct, FMT), TextString(Direct, NONE),
                   TextString(Direct, ATT_STMT), MapOf(Direct, []),
                   TextString(Direct, AUTH_DATA), ByteString(Four, authData)])
  }

  /** A pair whose parts are within the limits, in front of such pairs. */
  lemma GoodPair(key: Item, value: Item, rest: seq<Item>, depth: nat)
    requires WellFormed(key) && WellFormed(value) && Supported(key, depth) && IsKey(Meaning(key))
    requires Supported(value, depth)
    requires |rest| % 2 == 0 && AllWellFormed(rest) && PairsSupported(rest, depth)
    ensures AllWellFormed([key, value] + rest) && PairsSupported([key, value] + rest, depth)
  {
    hide WellFormed, Supported, Meaning, AllWellFormed, PairsSupported;
    PairInFront(key, value, rest, depth);
  }

  lemma KeyItemIsGood(x: seq<byte>, y: seq<byte>)
    requires |x| == 32 && |y| == 32
    ensures WellFormed(KeyItem(x, y)) && Supported(KeyItem(x, y), 0)
  {
    hide AllWellFormed, PairsSupported, Meanings;
    NothingIsGood(1);
    var y1 := [Negative(Direct, 2), ByteString(One, y)];
    GoodPair(y1[0], y1[1], [], 1);
    assert y1 + [] == y1;
    var x1 := [Negative(Direct, 1), ByteString(One, x)] + y1;
    GoodPair(Negative(Direct, 1), ByteString(One, x), y1, 1);
    var c1 := [Negative(Direct, 0), Small(1)] + x1;
    GoodPair(Negative(Direct, 0), Small(1), x1, 1);
    var a1 := [Small(3), Negative(Direct, 6)] + c1;
    GoodPair(Small(3), Negative(Direct, 6), c1, 1);
    GoodPair(Small(1), Small(2), a1, 1);
    assert KeyItem(x, y).items == [Small(1), Small(2)] + a1;
  }

  lemma NothingIsGood(depth: nat)
    ensures AllWellFormed([]) && PairsSupported([], depth)
  {
  }

  lemma KeyItemMeans(x: seq<byte>, y: seq<byte>)
    requires |x| == 32 && |y| == 32
    ensures IsEs256(Meaning(KeyItem(x, y)), x, y)
  {
    hide Entries, Meanings;
    var kty := [Small(1), Small(2)];
    var alg := kty + [Small(3), Negative(Direct, 6)];
    var crv := alg + [Negative(Direct, 0), Small(1)];
    var xs := crv + [Negative(Direct, 1), ByteString(One, x)];
    assert [] + kty == kty;
    EntriesSnoc([], Small(1), Small(2));
    EntriesSnoc(kty, Small(3), Negative(Direct, 6));
    EntriesSnoc(alg, Negative(Direct, 0), Small(1));
    EntriesSnoc(crv, Negative(Direct, 1), ByteString(One, x));
    EntriesSnoc(xs, Negative(Direct, 2), ByteString(One, y));
    assert KeyItem(x, y).items == xs + [Negative(Direct, 2), ByteString(One, y)];
  }

  lemma ObjectItemIsGood(authData: seq<byte>)
    requires |authData| <= MAX_STRING
    ensures WellFormed(ObjectItem(authData)) && Supported(ObjectItem(authData), 0)
  {
    hide AllWellFormed, PairsSupported, Meanings;
    NothingIsGood(1);
    NothingIsGood(2);
    FourBytesCountStrings(|authData|);
    var auth := [TextString(Direct, AUTH_DATA), ByteString(Four, authData)];
    GoodPair(auth[0], auth[1], [], 1);
    assert auth + [] == auth;
    var stmt := [TextString(Direct, ATT_STMT), MapOf(Direct, [])] + auth;
    GoodPair(TextString(Direct, ATT_STMT), MapOf(Direct, []), auth, 1);
    GoodPair(TextString(Direct, FMT), TextString(Direct, NONE), stmt, 1);
    assert ObjectItem(authData).items == [TextString(Direct, FMT), TextString(Direct, NONE)] + stmt;
  }

  lemma FourBytesCountStrings(n: nat)
    requires n <= MAX_STRING
    ensures ArgumentFits(Four, n)
  {
    assert Pow256(3) == 0x100_0000 by { assert Pow256(2) == 0x1_0000; }
  }

  lemma ObjectItemMeans(authData: seq<byte>)
    ensures IsNoneAttestation(Meaning(ObjectItem(authData)), authData)
  {
    hide Entries, Meanings;
    var fmt := [TextString(Direct, FMT), TextString(Direct, NONE)];
    var stmt := fmt + [TextString(Direct, ATT_STMT), MapOf(Direct, [])];
    assert [] + fmt == fmt;
    EntriesSnoc([], fmt[0], fmt[1]);
    EntriesSnoc(fmt, TextString(Direct, ATT_STMT), MapOf(Direct, []));
    EntriesSnoc(stmt, TextString(Direct, AUTH_DATA), ByteString(Four, authData));
    assert ObjectItem(authData).items == stmt + [TextString(Direct, AUTH_DATA), ByteString(Four, authData)];
    assert |FMT| != |AUTH_DATA| && |ATT_STMT| != |FMT|;
  }

  function KeyBytes(x: seq<byte>, y: seq<byte>): seq<byte>
    requires |x| == 32 && |y| == 32
  {
    KeyItemIsGood(x, y);
    Serialize(KeyItem(x, y))
  }

  function ObjectBytes(authData: seq<byte>): seq<byte>
    requires |authData| <= MAX_STRING
  {
    ObjectItemIsGood(authData);
    Serialize(ObjectItem(authData))
  }

  /** The round trip: any credential id of 16 to 1024 bytes, coordinates on the
      curve and 32-bit counter, laid out with any AAGUID, any flags that include
      the three required ones, any extensions after the key and anything after
      the object, comes back unchanged. */
  lemma RegistrationRoundTrip(a: AuthenticatorData, x: seq<byte>, y: seq<byte>, extensions: seq<byte>, tail: seq<byte>,
                              onCurve: Curve)
    requires |x| == 32 && |y| == 32 && onCurve(x, y) && a.rest == KeyBytes(x, y) + extensions
    requires Sized(a) && FlagsSet(a.flags) && 16 <= |a.id| <= 1024 && |LayOut(a)| <= MAX_STRING
    ensures ParseNoneAttestation(ObjectBytes(LayOut(a)) + tail, a.rpHash, onCurve)
        == Some(Credential(a.id, x, y, a.signCount))
  {
    hide ParseItem, Supported, Meaning, Serialize, WellFormed, BigEndian, LayOut, Pow256, Decode, FlagsSet,
      ParseNoneAttestation, IsEs256, IsNoneAttestation, KeyItem, ObjectItem;
    KeyItemIsGood(x, y);
    KeyItemMeans(x, y);
    ObjectItemIsGood(LayOut(a));
    ObjectItemMeans(LayOut(a));
    var envelope, key := ObjectItem(LayOut(a)), KeyItem(x, y);
    var data := ObjectBytes(LayOut(a)) + tail;
    assert StartsWith(data, envelope) && StartsWith(a.rest, key);
    AttestationAccepted(data, envelope, a, key, a.rpHash, onCurve, Credential(a.id, x, y, a.signCount));
  }
}
