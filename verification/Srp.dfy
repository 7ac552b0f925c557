/** Account verifiers of the game server's SRP6 (section 2.4 of RFC 5054, with
    little-endian bytes): byte-order conversions, registration and checking. The
    hash and the letter-case mapping are parameters. */
module Srp {
  import opened Common

  type Bytes = seq<byte>

  // ------------------------------------------------------------ numbers and bytes

  function ByteOf(n: nat): byte { n % 256 }

  function LittleInt(b: Bytes): nat {
    if b == [] then 0 else b[0] + 256 * LittleInt(b[1..])
  }

  function LittleBytes(n: nat, size: nat): (b: Bytes)
    ensures |b| == size
  {
    if size == 0 then [] else [ByteOf(n)] + LittleBytes(n / 256, size - 1)
  }

  /** big.Int.SetBytes: big-endian. */
  function BigInt(b: Bytes): nat {
    if b == [] then 0 else BigInt(b[..|b| - 1]) * 256 + b[|b| - 1]
  }

  /** big.Int.Bytes: big-endian without leading zeros. */
  function BigBytes(n: nat): Bytes {
    if n == 0 then [] else BigBytes(n / 256) + [ByteOf(n)]
  }

  function Reversed(b: Bytes): (r: Bytes)
    ensures |r| == |b| && forall i :: 0 <= i < |b| ==> r[i] == b[|b| - 1 - i]
  {
    if b == [] then [] else Reversed(b[1..]) + [b[0]]
  }

  /** Bytes to number and back, and number to bytes and back exactly when the
      number fits. */
  lemma {:induction false} BytesRoundTrip(b: Bytes)
    ensures LittleInt(b) < Pow256(|b|) && LittleBytes(LittleInt(b), |b|) == b
  {
    if b != [] {
      var rest := LittleInt(b[1..]);
      BytesRoundTrip(b[1..]);
      Digits(b[0], rest);
      assert LittleInt(b) / 256 == rest && ByteOf(LittleInt(b)) == b[0];
      assert b == [b[0]] + b[1..];
    }
  }

  lemma Digits(x: nat, rest: nat)
    requires x < 256
    ensures (x + 256 * rest) % 256 == x && (x + 256 * rest) / 256 == rest
  {
  }

  lemma {:induction false} NumberRoundTripIff(n: nat, size: nat)
    ensures LittleInt(LittleBytes(n, size)) == n <==> n < Pow256(size)
  {
    var b := LittleBytes(n, size);
    BytesRoundTrip(b);
    if n < Pow256(size) && size > 0 {
      NumberRoundTripIff(n / 256, size - 1);
      assert b[1..] == LittleBytes(n / 256, size - 1) && b[0] == ByteOf(n);
    }
  }

  lemma {:induction false} ReversedReadsLittle(b: Bytes)
    ensures BigInt(Reversed(b)) == LittleInt(b)
  {
    if b != [] {
      ReversedReadsLittle(b[1..]);
      assert Reversed(b)[..|b| - 1] == Reversed(b[1..]);
    }
  }

  /** The minimal big-endian bytes, read from the end, are the little-endian ones. */
  lemma {:induction false} BigBytesAt(n: nat, i: nat, size: nat)
    requires i < size
    ensures LittleBytes(n, size)[i] == if i < |BigBytes(n)| then BigBytes(n)[|BigBytes(n)| - 1 - i] else 0
    decreases i
  {
    if i > 0 {
      BigBytesAt(n / 256, i - 1, size - 1);
      if n == 0 { assert BigBytes(n / 256) == []; }
    }
  }

  /** One more byte at the end is one more most significant byte: the k-th byte
      weighs 256 to the power k. */
  lemma {:induction false} LittleEndian(b: Bytes, last: byte)
    ensures LittleInt(b + [last]) == LittleInt(b) + Pow256(|b|) * last
  {
    if b == [] {
      assert LittleInt([last]) == last;
    } else {
      LittleEndian(b[1..], last);
      assert (b + [last])[1..] == b[1..] + [last];
      assert 256 * (Pow256(|b| - 1) * last) == Pow256(|b|) * last;
    }
  }

  // ------------------------------------------------------------ the byte loops

  method Reverse(b: array<byte>)
    modifies b
    ensures b[..] == Reversed(old(b[..]))
  {
    var i, j := 0, b.Length - 1;
    while i < j
      invariant 0 <= i <= j + 1 && i + j == b.Length - 1
      invariant forall k :: 0 <= k < i ==> b[k] == old(b[b.Length - 1 - k]) && b[b.Length - 1 - k] == old(b[k])
      invariant forall k :: i <= k <= j ==> b[k] == old(b[k])
    {
      b[i], b[j] := b[j], b[i];
      i, j := i + 1, j - 1;
    }
  }

  method ReadLittle(b: Bytes) returns (n: nat)
    ensures n == LittleInt(b)
  {
    var c := new byte[|b|](i requires 0 <= i < |b| => b[i]);
    assert c[..] == b;
    Reverse(c);
    ReversedReadsLittle(b);
    n := BigInt(c[..]);
  }

  method WriteLittle(n: nat, size: nat) returns (out: array<byte>)
    ensures fresh(out) && out[..] == LittleBytes(n, size)
  {
    var b := BigBytes(n);
    out := new byte[size](_ => 0);
    for i := 0 to |b|
      invariant forall k :: 0 <= k < size ==> out[k] == if k < i && k < |b| then b[|b| - 1 - k] else 0
    {
      if i < size {
        out[i] := b[|b| - 1 - i];
      }
    }
    forall k | 0 <= k < size ensures out[k] == LittleBytes(n, size)[k] { BigBytesAt(n, k, size); }
  }

  // ------------------------------------------------------------ bits

  function Power2(k: nat): (p: nat)
    ensures p >= 1
  {
    if k == 0 then 1 else 2 * Power2(k - 1)
  }

  /** Exclusive or of the lowest k bits, bit by bit. */
  function Xor(x: nat, y: nat, k: nat): (z: nat)
    ensures z < Power2(k)
  {
    if k == 0 then 0 else (if x % 2 == y % 2 then 0 else 1) + 2 * Xor(x / 2, y / 2, k - 1)
  }

  /** Inclusive or of the lowest k bits. */
  function Or(x: nat, y: nat, k: nat): (z: nat)
    ensures z < Power2(k)
  {
    if k == 0 then 0 else (if x % 2 == 0 && y % 2 == 0 then 0 else 1) + 2 * Or(x / 2, y / 2, k - 1)
  }

  lemma {:induction false} XorIsZeroIff(x: nat, y: nat, k: nat)
    requires x < Power2(k) && y < Power2(k)
    ensures Xor(x, y, k) == 0 <==> x == y
  {
    if k > 0 { XorIsZeroIff(x / 2, y / 2, k - 1); }
  }

  lemma {:induction false} OrIsZeroIff(x: nat, y: nat, k: nat)
    requires x < Power2(k) && y < Power2(k)
    ensures Or(x, y, k) == 0 <==> x == 0 && y == 0
  {
    if k > 0 { OrIsZeroIff(x / 2, y / 2, k - 1); }
  }

  // ------------------------------------------------------------ verifiers

  type Hash = Bytes -> Bytes
  type Upper = Bytes -> Bytes

  const MODULUS: nat := 0x894B645E89E1535BBDAD5B8B290650530801B18EBFBF5E8FAB3C82872A3E9BB7

  function Pow(b: nat, e: nat): nat {
    if e == 0 then 1 else b * Pow(b, e - 1)
  }

  const COLON: byte := 58

  /** The exponent x of section 2.4, read little-endian. */
  function Exponent(sha1: Hash, username: Bytes, password: Bytes, salt: Bytes): nat {
    LittleInt(sha1(salt + sha1(username + [COLON] + password)))
  }

  /** 7^x mod N. */
  function Residue(sha1: Hash, username: Bytes, password: Bytes, salt: Bytes): (v: nat)
    ensures v < MODULUS
  {
    Pow(7, Exponent(sha1, username, password, salt)) % MODULUS
  }

  /** The verifier: the residue as 32 little-endian bytes. */
  function Calculate(sha1: Hash, username: Bytes, password: Bytes, salt: Bytes): (v: Bytes)
    ensures |v| == 32
  {
    LittleBytes(Residue(sha1, username, password, salt), 32)
  }

  /** 32 bytes hold every residue: the verifier is the number, never a truncation
      of it. */
  lemma VerifierIsExact(sha1: Hash, username: Bytes, password: Bytes, salt: Bytes)
    ensures LittleInt(Calculate(sha1, username, password, salt)) == Residue(sha1, username, password, salt)
  {
    hide Residue, Pow256, LittleInt, LittleBytes;
    ModulusFits();
    NumberRoundTripIff(Residue(sha1, username, password, salt), 32);
  }

  lemma ModulusFits()
    ensures MODULUS <= Pow256(32)
  {
    hide Pow256;
    Pow256Of8();
    PowStep(8, 8);
    PowStep(16, 16);
    assert Pow256(16) == 0x100000000000000000000000000000000;
    assert Pow256(32) == 0x10000000000000000000000000000000000000000000000000000000000000000;
  }

  lemma Pow256Of8()
    ensures Pow256(8) == 0x10000000000000000
  {
    assert Pow256(4) == 0x1_0000_0000;
    PowStep(4, 4);
  }

  lemma {:induction false} PowStep(a: nat, b: nat)
    ensures Pow256(a + b) == Pow256(a) * Pow256(b)
    decreases a
  {
    if a > 0 { PowStep(a - 1, b); }
  }

  /** Powers multiply when exponents add. */
  lemma {:induction false} PowersMultiply(b: nat, m: nat, n: nat)
    ensures Pow(b, m + n) == Pow(b, m) * Pow(b, n) && Pow(b, 0) == 1
  {
    if m > 0 {
      PowersMultiply(b, m - 1, n);
      var x, y := Pow(b, m - 1), Pow(b, n);
      assert Pow(b, m + n) == b * Pow(b, m - 1 + n);
      Associates(b, x, y);
    }
  }

  lemma Associates(b: nat, x: nat, y: nat)
    ensures b * (x * y) == (b * x) * y
  {
  }

  lemma FirstPower(b: nat)
    ensures Pow(b, 1) == b
  {
    assert Pow(b, 0) == 1;
  }

  /** A verifier of section 2.4: 32 bytes that are, little-endian, seven to the
      power of SHA1(salt, SHA1(name, colon, password)), modulo N. */
  ghost predicate IsVerifierOf(verifier: Bytes, sha1: Hash, username: Bytes, password: Bytes, salt: Bytes) {
    && |verifier| == 32
    && LittleInt(verifier) == Pow(7, LittleInt(sha1(salt + sha1(username + [58] + password))))
                              % 0x894B645E89E1535BBDAD5B8B290650530801B18EBFBF5E8FAB3C82872A3E9BB7
  }

  /** There is one verifier, and it is the one calculated. */
  lemma OneVerifier(verifier: Bytes, sha1: Hash, username: Bytes, password: Bytes, salt: Bytes)
    ensures IsVerifierOf(verifier, sha1, username, password, salt)
       <==> verifier == Calculate(sha1, username, password, salt)
  {
    var v := Calculate(sha1, username, password, salt);
    VerifierIsExact(sha1, username, password, salt);
    hide LittleInt, LittleBytes, Calculate, Pow, Pow256;
    if IsVerifierOf(verifier, sha1, username, password, salt) {
      BytesRoundTrip(verifier);
      BytesRoundTrip(v);
    }
  }

  /** Two byte strings on which the hash does not collide. */
  predicate Distinguishes(sha1: Hash, one: Bytes, two: Bytes) {
    |sha1(one)| == |sha1(two)| && (sha1(one) == sha1(two) ==> one == two)
  }

  /** Unless the hash collides on the strings at hand, name, password and salt all
      go into the exponent: it is the same exactly when the salts are and the names
      and passwords joined by a colon are. */
  lemma ExponentTellsApart(sha1: Hash, name: Bytes, word: Bytes, salt: Bytes, name2: Bytes, word2: Bytes, salt2: Bytes)
    requires |salt| == |salt2| && Distinguishes(sha1, name + [58] + word, name2 + [58] + word2)
    requires Distinguishes(sha1, salt + sha1(name + [58] + word), salt2 + sha1(name2 + [58] + word2))
    ensures Exponent(sha1, name, word, salt) == Exponent(sha1, name2, word2, salt2)
       <==> salt == salt2 && name + [58] + word == name2 + [58] + word2
  {
    var inner, inner2 := sha1(name + [58] + word), sha1(name2 + [58] + word2);
    var one, two := salt + inner, salt2 + inner2;
    hide LittleInt;
    if Exponent(sha1, name, word, salt) == Exponent(sha1, name2, word2, salt2) {
      BytesRoundTrip(sha1(one));
      BytesRoundTrip(sha1(two));
      assert one == two;
      assert one[..|salt|] == salt && two[..|salt2|] == salt2;
      assert one[|salt|..] == inner && two[|salt2|..] == inner2;
    }
  }

  /** Names without a colon are told apart from their passwords. */
  lemma {:induction false} ColonSeparates(name: Bytes, word: Bytes, name2: Bytes, word2: Bytes)
    requires 58 !in name && 58 !in name2 && name + [58] + word == name2 + [58] + word2
    ensures name == name2 && word == word2
  {
    var one, two := name + [58] + word, name2 + [58] + word2;
    assert one[|name|] == 58 && two[|name2|] == 58;
    assert one[..|name|] == name && two[..|name2|] == name2;
    assert one[|name| + 1..] == word && two[|name2| + 1..] == word2;
  }

  /** calculate: the verifier by way of the byte-order loops. */
  method ComputeVerifier(sha1: Hash, username: Bytes, password: Bytes, salt: Bytes) returns (verifier: Bytes)
    ensures verifier == Calculate(sha1, username, password, salt)
    ensures IsVerifierOf(verifier, sha1, username, password, salt)
  {
    var x := ReadLittle(sha1(salt + sha1(username + [COLON] + password)));
    var out := WriteLittle(Pow(7, x) % MODULUS, 32);
    verifier := out[..];
    OneVerifier(verifier, sha1, username, password, salt);
  }

  method Register(sha1: Hash, upper: Upper, username: Bytes, password: Bytes, random: Bytes) returns (salt: Bytes,
                  verifier: Bytes)
    requires |random| == 32
    ensures salt == random && verifier == Calculate(sha1, upper(username), upper(password), salt)
    ensures IsVerifierOf(verifier, sha1, upper(username), upper(password), random)
  {
    salt := random;
    verifier := ComputeVerifier(sha1, upper(username), upper(password), salt);
  }

  /** Accepts exactly the verifier of the name and password in upper case; the
      accumulating loop looks at every byte and differs from zero as soon as one
      byte differs. */
  method Verify(sha1: Hash, upper: Upper, username: Bytes, password: Bytes, salt: Bytes,
                verifier: Bytes) returns (ok: bool)
    ensures ok <==> IsVerifierOf(verifier, sha1, upper(username), upper(password), salt)
  {
    hide Calculate, IsVerifierOf;
    OneVerifier(verifier, sha1, upper(username), upper(password), salt);
    var got := ComputeVerifier(sha1, upper(username), upper(password), salt);
    if |got| != |verifier| {
      return false;
    }
    var diff: byte := 0;
    for i := 0 to |got|
      invariant diff == 0 <==> got[..i] == verifier[..i]
    {
      Accumulate(diff, got[i], verifier[i]);
      assert got[..i + 1] == got[..i] + [got[i]] && verifier[..i + 1] == verifier[..i] + [verifier[i]];
      diff := Or(diff, Xor(got[i], verifier[i], 8), 8);
    }
    assert got[..|got|] == got && verifier[..|got|] == verifier;
    return diff == 0;
  }

  lemma Accumulate(diff: byte, x: byte, y: byte)
    ensures Or(diff, Xor(x, y, 8), 8) == 0 <==> diff == 0 && x == y
  {
    XorIsZeroIff(x, y, 8);
    OrIsZeroIff(diff, Xor(x, y, 8), 8);
  }

  /** A stored verifier is accepted for another name and password exactly when
      the residues agree; in particular for every spelling with the same upper
      case. */
  lemma AcceptedIffSameResidue(sha1: Hash, upper: Upper, username: Bytes, password: Bytes, name: Bytes, word: Bytes,
                               salt: Bytes)
    ensures Calculate(sha1, upper(name), upper(word), salt) == Calculate(sha1, upper(username), upper(password), salt)
       <==> Residue(sha1, upper(name), upper(word), salt) == Residue(sha1, upper(username), upper(password), salt)
    ensures upper(name) == upper(username) && upper(word) == upper(password) ==>
              Calculate(sha1, upper(name), upper(word), salt) == Calculate(sha1, upper(username), upper(password), salt)
  {
    hide Residue, LittleInt, LittleBytes;
    VerifierIsExact(sha1, upper(username), upper(password), salt);
    VerifierIsExact(sha1, upper(name), upper(word), salt);
  }
}
