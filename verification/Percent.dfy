/**
 * Percent-encoding of JavaScript strings: encodeURIComponent, the escapes added to it, and a decoder
 * that undoes both. Strings are sequences of UTF-16 code units.
 */
module Percent {
  import opened Options

  type Unit = n: nat | n < 0x1_0000
  type Byte = n: nat | n < 0x100
  type Scalar = n: nat | n < 0xD800 || 0xE000 <= n <= 0x10_FFFF
  type Str = seq<Unit>

  const PERCENT: Unit := 0x25

  // ---- UTF-16 ----

  predicate High(u: Unit) { 0xD800 <= u < 0xDC00 }

  predicate Low(u: Unit) { 0xDC00 <= u < 0xE000 }

  function Prepend<T>(x: T, xs: Option<seq<T>>): Option<seq<T>> {
    if xs.Some? then Some([x] + xs.value) else None
  }

  function Paired(high: int, low: int): (p: int)
    ensures 0xD800 <= high < 0xDC00 && 0xDC00 <= low < 0xE000 ==> 0x1_0000 <= p <= 0x10_FFFF
  {
    0x1_0000 + (high - 0xD800) * 0x400 + (low - 0xDC00)
  }

  /** The Unicode characters of a string, unless a surrogate stands alone. */
  function Scalars(s: Str): Option<seq<Scalar>> {
    if s == [] then Some([])
    else if !High(s[0]) && !Low(s[0]) then Prepend(s[0] as Scalar, Scalars(s[1..]))
    else if High(s[0]) && |s| > 1 && Low(s[1]) then
      Prepend(Paired(s[0], s[1]) as Scalar, Scalars(s[2..]))
    else None
  }

  function UnitsOf(p: Scalar): Str {
    if p < 0x1_0000 then [p]
    else [0xD800 + (p - 0x1_0000) / 0x400, 0xDC00 + (p - 0x1_0000) % 0x400]
  }

  function Utf16(ps: seq<Scalar>): Str {
    if ps == [] then [] else UnitsOf(ps[0]) + Utf16(ps[1..])
  }

  lemma {:induction false} UnitsOfPair(high: Unit, low: Unit)
    requires High(high) && Low(low)
    ensures UnitsOf(Paired(high, low)) == [high, low]
  {}

  lemma {:induction false} Utf16Inverse(s: Str)
    ensures Scalars(s).Some? ==> Utf16(Scalars(s).value) == s
    decreases |s|
  {
    if s == [] {
    } else if !High(s[0]) && !Low(s[0]) {
      Utf16Inverse(s[1..]);
    } else if High(s[0]) && |s| > 1 && Low(s[1]) {
      Utf16Inverse(s[2..]);
      UnitsOfPair(s[0], s[1]);
      assert s == [s[0], s[1]] + s[2..];
    }
  }

  // ---- UTF-8 ----

  function Utf8(p: Scalar): (bytes: seq<Byte>)
    ensures 1 <= |bytes| <= 4
  {
    if p < 0x80 then [p]
    else if p < 0x800 then [0xC0 + p / 0x40, 0x80 + p % 0x40]
    else if p < 0x1_0000 then [0xE0 + p / 0x1000, 0x80 + p / 0x40 % 0x40, 0x80 + p % 0x40]
    else [0xF0 + p / 0x4_0000, 0x80 + p / 0x1000 % 0x40, 0x80 + p / 0x40 % 0x40, 0x80 + p % 0x40]
  }

  function Utf8All(ps: seq<Scalar>): seq<Byte> {
    if ps == [] then [] else Utf8(ps[0]) + Utf8All(ps[1..])
  }

  /** The number the first n bytes stand for, and n. */
  function Lead(bytes: seq<Byte>): (int, nat)
    requires bytes != []
  {
    var b := bytes[0];
    if b < 0x80 then (b, 1)
    else if b < 0xE0 && |bytes| >= 2 then ((b - 0xC0) * 0x40 + (bytes[1] - 0x80), 2)
    else if b < 0xF0 && |bytes| >= 3 then ((b - 0xE0) * 0x1000 + (bytes[1] - 0x80) * 0x40 + (bytes[2] - 0x80), 3)
    else if |bytes| >= 4 then
      ((b - 0xF0) * 0x4_0000 + (bytes[1] - 0x80) * 0x1000 + (bytes[2] - 0x80) * 0x40 + (bytes[3] - 0x80), 4)
    else (-1, 1)
  }

  predicate IsScalar(n: int) { 0 <= n < 0xD800 || 0xE000 <= n <= 0x10_FFFF }

  /** The characters the bytes encode; nothing but their encoding will do. */
  function FromUtf8(bytes: seq<Byte>): Option<seq<Scalar>>
    decreases |bytes|
  {
    if bytes == [] then Some([])
    else
      var (p, n) := Lead(bytes);
      if IsScalar(p) && n <= |bytes| && Utf8(p) == bytes[..n] then Prepend(p as Scalar, FromUtf8(bytes[n..])) else None
  }

  lemma {:induction false} Digits(p: nat)
    ensures p == p / 0x40 * 0x40 + p % 0x40
    ensures p / 0x40 == p / 0x1000 * 0x40 + p / 0x40 % 0x40
    ensures p / 0x1000 == p / 0x4_0000 * 0x40 + p / 0x1000 % 0x40
  {}

  lemma {:induction false} LeadOfShort(p: Scalar, rest: seq<Byte>)
    requires p < 0x800
    ensures Lead(Utf8(p) + rest) == (p as int, |Utf8(p)|)
  {
    Digits(p);
    if p >= 0x80 {
      assert (Utf8(p) + rest)[0] == 0xC0 + p / 0x40 && (Utf8(p) + rest)[1] == 0x80 + p % 0x40;
    }
  }

  lemma {:induction false} LeadOfThree(p: Scalar, rest: seq<Byte>)
    requires 0x800 <= p < 0x1_0000
    ensures Lead(Utf8(p) + rest) == (p as int, |Utf8(p)|)
  {
    Digits(p);
    var a, b, c := p / 0x1000, p / 0x40 % 0x40, p % 0x40;
    assert a < 0x10 && Utf8(p) == [0xE0 + a, 0x80 + b, 0x80 + c];
    LeadIs(Utf8(p) + rest, [0xE0 + a, 0x80 + b, 0x80 + c], rest);
  }

  lemma {:induction false} LeadOfFour(p: Scalar, rest: seq<Byte>)
    requires 0x1_0000 <= p
    ensures Lead(Utf8(p) + rest) == (p as int, |Utf8(p)|)
  {
    Digits(p);
    var a, b, c, d := p / 0x4_0000, p / 0x1000 % 0x40, p / 0x40 % 0x40, p % 0x40;
    assert a < 5 && Utf8(p) == [0xF0 + a, 0x80 + b, 0x80 + c, 0x80 + d];
    LeadIs(Utf8(p) + rest, [0xF0 + a, 0x80 + b, 0x80 + c, 0x80 + d], rest);
  }

  /** A lead byte says how many bytes matter. */
  lemma {:induction false} LeadIs(all: seq<Byte>, bytes: seq<Byte>, rest: seq<Byte>)
    requires all == bytes + rest
    requires (|bytes| == 3 && 0xE0 <= bytes[0] < 0xF0) || (|bytes| == 4 && 0xF0 <= bytes[0])
    ensures Lead(all) == Lead(bytes)
  {
    assert forall i :: 0 <= i < |bytes| ==> all[i] == bytes[i];
  }

  lemma {:induction false} LeadOf(p: Scalar, rest: seq<Byte>)
    ensures Lead(Utf8(p) + rest) == (p as int, |Utf8(p)|)
  {
    hide Lead, Utf8;
    if p < 0x800 {
      LeadOfShort(p, rest);
    } else if p < 0x1_0000 {
      LeadOfThree(p, rest);
    } else {
      LeadOfFour(p, rest);
    }
  }

  lemma {:induction false} Utf8Step(p: Scalar, rest: seq<Byte>)
    ensures FromUtf8(Utf8(p) + rest) == Prepend(p, FromUtf8(rest))
  {
    hide Utf8, Lead;
    LeadOf(p, rest);
    var bytes, n := Utf8(p) + rest, |Utf8(p)|;
    assert bytes[..n] == Utf8(p) && bytes[n..] == rest;
  }

  lemma {:induction false} Utf8Inverse(ps: seq<Scalar>)
    ensures FromUtf8(Utf8All(ps)) == Some(ps)
  {
    if ps != [] {
      hide FromUtf8, Utf8;
      Utf8Inverse(ps[1..]);
      Utf8Step(ps[0], Utf8All(ps[1..]));
      assert [ps[0]] + ps[1..] == ps;
    } else {
      assert FromUtf8([]) == Some([]);
    }
  }

  // ---- percent triplets ----

  /** The characters of section 2.3 of RFC 3986. */
  predicate Unreserved(c: nat) {
    || 0x41 <= c <= 0x5A || 0x61 <= c <= 0x7A || 0x30 <= c <= 0x39
    || c == 0x2D || c == 0x2E || c == 0x5F || c == 0x7E
  }

  /** The five characters ! ' ( ) * that encodeURIComponent lets through. */
  predicate Mark(c: nat) { c == 0x21 || 0x27 <= c <= 0x2A }

  function Hex(n: nat): (u: Unit)
    requires n < 16
    ensures Unreserved(u)
  {
    if n < 10 then 0x30 + n else 0x37 + n
  }

  function FromHex(u: Unit): int {
    if 0x30 <= u <= 0x39 then u - 0x30 else if 0x41 <= u <= 0x46 then u - 0x37 else -1
  }

  function Triplet(b: Byte): (t: Str)
    ensures |t| == 3
  {
    [PERCENT, Hex(b / 16), Hex(b % 16)]
  }

  function Triplets(bytes: seq<Byte>): Str {
    if bytes == [] then [] else Triplet(bytes[0]) + Triplets(bytes[1..])
  }

  /** encodeURIComponent of the characters, and the escapes that come after it. */
  function UriEncoded(ps: seq<Scalar>): Str {
    if ps == [] then []
    else (if Unreserved(ps[0]) || Mark(ps[0]) then [ps[0]] else Triplets(Utf8(ps[0]))) + UriEncoded(ps[1..])
  }

  function Escape(c: Unit): Str {
    if c == 0x21 then [PERCENT, 0x32, 0x31]
    else if c == 0x27 then [PERCENT, 0x32, 0x37]
    else if c == 0x28 then [PERCENT, 0x32, 0x38]
    else if c == 0x29 then [PERCENT, 0x32, 0x39]
    else if c == 0x2A then [PERCENT, 0x32, 0x41]
    else [c]
  }

  function Escaped(t: Str): Str {
    if t == [] then [] else Escape(t[0]) + Escaped(t[1..])
  }

  predicate WellFormed(s: Str) { Scalars(s).Some? }

  /** What `normalize` gives for a well-formed string. */
  function Normal(s: Str): Str {
    match Scalars(s)
    case Some(ps) => Escaped(UriEncoded(ps))
    case None => []
  }

  /** encodeURIComponent throws on a surrogate that stands alone. */
  function Normalize(s: Str): Result<Str> {
    if WellFormed(s) then Ok(Normal(s)) else Raised
  }

  // ---- what comes out ----

  /** Only unreserved characters are left as they are; everything else becomes triplets. */
  function Plain(ps: seq<Scalar>): Str {
    if ps == [] then []
    else (if Unreserved(ps[0]) then [ps[0]] else Triplets(Utf8(ps[0]))) + Plain(ps[1..])
  }

  lemma {:induction false} EscapedConcat(a: Str, b: Str)
    ensures Escaped(a + b) == Escaped(a) + Escaped(b)
  {
    hide Escape;
    if a == [] {
      assert a + b == b;
    } else {
      EscapedConcat(a[1..], b);
      assert (a + b)[1..] == a[1..] + b;
    }
  }

  lemma {:induction false} TripletStays(b: Byte)
    ensures Escaped(Triplet(b)) == Triplet(b)
  {
    var t := Triplet(b);
    assert t[1..][1..] == [t[2]] && t[1..][1..][1..] == [];
    assert Escaped([t[2]]) == [t[2]] + Escaped([]);
    assert t[1..] == [t[1], t[2]];
    assert Escaped(t[1..]) == [t[1]] + [t[2]];
  }

  lemma {:induction false} TripletsStay(bytes: seq<Byte>)
    ensures Escaped(Triplets(bytes)) == Triplets(bytes)
  {
    if bytes != [] {
      TripletStays(bytes[0]);
      TripletsStay(bytes[1..]);
      EscapedConcat(Triplet(bytes[0]), Triplets(bytes[1..]));
    }
  }

  lemma {:induction false} EscapedPoint(p: Scalar)
    ensures Unreserved(p) || Mark(p) ==> Escaped([p]) == if Unreserved(p) then [p] else Triplets(Utf8(p))
  {
    if Mark(p) {
      assert Triplets([p]) == Triplet(p) + Triplets([]);
      assert Triplet(p) == Escape(p);
    }
  }

  /** The two passes together encode exactly the characters that are not unreserved. */
  lemma {:induction false} TwoPasses(ps: seq<Scalar>)
    ensures Escaped(UriEncoded(ps)) == Plain(ps)
  {
    if ps != [] {
      hide Escaped, Triplets, Utf8, Unreserved, Mark;
      var first := if Unreserved(ps[0]) || Mark(ps[0]) then [ps[0]] else Triplets(Utf8(ps[0]));
      TwoPasses(ps[1..]);
      EscapedConcat(first, UriEncoded(ps[1..]));
      EscapedPoint(ps[0]);
      TripletsStay(Utf8(ps[0]));
    } else {
      assert Escaped([]) == [];
    }
  }

  predicate Safe(t: Str) { forall i :: 0 <= i < |t| ==> Unreserved(t[i]) || t[i] == PERCENT }

  lemma {:induction false} TripletsSafe(bytes: seq<Byte>)
    ensures Safe(Triplets(bytes))
  {
    if bytes != [] {
      TripletsSafe(bytes[1..]);
    }
  }

  lemma {:induction false} PlainSafe(ps: seq<Scalar>)
    ensures Safe(Plain(ps))
  {
    if ps != [] {
      PlainSafe(ps[1..]);
      TripletsSafe(Utf8(ps[0]));
    }
  }

  /** No separator of the canonical request survives: not colon, newline, semicolon, slash, = or &. */
  lemma {:induction false} NormalSafe(s: Str)
    ensures Safe(Normal(s))
  {
    match Scalars(s) {
      case Some(ps) => TwoPasses(ps); PlainSafe(ps);
      case None =>
    }
  }

  // ---- and back ----

  function Bytes(t: Str): Option<seq<Byte>> {
    if t == [] then Some([])
    else if t[0] == PERCENT then
      if |t| >= 3 && FromHex(t[1]) >= 0 && FromHex(t[2]) >= 0
      then Prepend((16 * FromHex(t[1]) + FromHex(t[2])) as Byte, Bytes(t[3..]))
      else None
    else if Unreserved(t[0]) then Prepend(t[0] as Byte, Bytes(t[1..]))
    else None
  }

  function Decode(t: Str): Option<Str> {
    match Bytes(t)
    case Some(bytes) =>
      (match FromUtf8(bytes)
       case Some(ps) => Some(Utf16(ps))
       case None => None)
    case None => None
  }

  lemma {:induction false} BytesOfTriplet(b: Byte, t: Str)
    ensures Bytes(Triplet(b) + t) == Prepend(b, Bytes(t))
  {
    var all := Triplet(b) + t;
    assert all[0] == PERCENT && all[1] == Hex(b / 16) && all[2] == Hex(b % 16) && all[3..] == t;
  }

  lemma {:induction false} BytesOfTriplets(bytes: seq<Byte>, t: Str, rest: seq<Byte>)
    requires Bytes(t) == Some(rest)
    ensures Bytes(Triplets(bytes) + t) == Some(bytes + rest)
  {
    hide Bytes, Triplet;
    if bytes == [] {
      assert Triplets(bytes) + t == t && bytes + rest == rest;
    } else {
      var more := Triplets(bytes[1..]);
      BytesOfTriplets(bytes[1..], t, rest);
      BytesOfTriplet(bytes[0], more + t);
      assert (Triplet(bytes[0]) + more) + t == Triplet(bytes[0]) + (more + t);
      assert [bytes[0]] + (bytes[1..] + rest) == bytes + rest;
    }
  }

  lemma {:induction false} BytesOfPlainChar(p: Scalar, t: Str)
    requires Unreserved(p)
    ensures Bytes([p] + t) == Prepend(p as Byte, Bytes(t)) && Utf8(p) == [p]
  {
    assert ([p] + t)[1..] == t;
  }

  lemma {:induction false} BytesOfPlain(ps: seq<Scalar>)
    ensures Bytes(Plain(ps)) == Some(Utf8All(ps))
  {
    if ps != [] {
      hide Bytes, Utf8, Triplets, Unreserved;
      BytesOfPlain(ps[1..]);
      var rest := Plain(ps[1..]);
      if Unreserved(ps[0]) {
        BytesOfPlainChar(ps[0], rest);
      } else {
        BytesOfTriplets(Utf8(ps[0]), rest, Utf8All(ps[1..]));
      }
    } else {
      assert Bytes([]) == Some([]);
    }
  }

  /** Decoding gives the string back, so different strings are normalized differently. */
  lemma {:induction false} DecodeNormal(s: Str)
    requires WellFormed(s)
    ensures Decode(Normal(s)) == Some(s)
  {
    var ps := Scalars(s).value;
    TwoPasses(ps);
    BytesOfPlain(ps);
    Utf8Inverse(ps);
    Utf16Inverse(s);
  }
}
