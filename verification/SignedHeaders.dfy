/** Which headers and parameters are signed, and what the canonical request looks like, in code units. */
module SignedHeaders {
  import opened Options
  import opened Percent
  import opened Lines
  import opened CanonicalRequest
  import opened SignedText

  // ---- names in code units ----

  const X_BCE: Str := [0x78, 0x2D, 0x62, 0x63, 0x65, 0x2D]
  const HOST: Str := [0x68, 0x6F, 0x73, 0x74]
  const CONTENT: Str := [0x63, 0x6F, 0x6E, 0x74, 0x65, 0x6E, 0x74, 0x2D]
  const MD5: Str := [0x6D, 0x64, 0x35]
  const LENGTH: Str := [0x6C, 0x65, 0x6E, 0x67, 0x74, 0x68]
  const TYPE: Str := [0x74, 0x79, 0x70, 0x65]
  const AUTHORIZATION: Str := [0x61, 0x75, 0x74, 0x68, 0x6F, 0x72, 0x69, 0x7A, 0x61, 0x74, 0x69, 0x6F, 0x6E]

  function LowerUnit(u: Unit): Unit { if 0x41 <= u <= 0x5A then u + 0x20 else u }

  /** What is used of toLowerCase: on ASCII strings it changes the letters from A to Z. */
  ghost predicate LowersAscii(t: Casing) {
    forall s: Str :: (forall i :: 0 <= i < |s| ==> s[i] < 0x80) ==> t.lower(s) == Map(LowerUnit, s)
  }

  lemma {:induction false} LowerUnits(t: Casing, s: Str, units: Str)
    requires LowersAscii(t) && |units| == |s|
    requires forall i :: 0 <= i < |s| ==> s[i] < 0x80 && LowerUnit(s[i]) == units[i]
    ensures t.lower(s) == units
  {
    assert Map(LowerUnit, s) == units;
  }

  lemma {:induction false} LowerHost(t: Casing)
    requires LowersAscii(t)
    ensures t.lower(Ascii("Host")) == HOST
  {
    hide LowersAscii;
    assert Ascii("Host") == [0x48, 0x6F, 0x73, 0x74];
    LowerUnits(t, [0x48, 0x6F, 0x73, 0x74], HOST);
  }

  lemma {:induction false} LowerMd5(t: Casing)
    requires LowersAscii(t)
    ensures t.lower(Ascii("Content-MD5")) == CONTENT + MD5
  {
    hide LowersAscii;
    var s := [0x43, 0x6F, 0x6E, 0x74, 0x65, 0x6E, 0x74, 0x2D, 0x4D, 0x44, 0x35];
    assert Ascii("Content-MD5") == s;
    LowerUnits(t, s, CONTENT + MD5);
  }

  lemma {:induction false} LowerLength(t: Casing)
    requires LowersAscii(t)
    ensures t.lower(Ascii("Content-Length")) == CONTENT + LENGTH
  {
    hide LowersAscii;
    var s := [0x43, 0x6F, 0x6E, 0x74, 0x65, 0x6E, 0x74, 0x2D, 0x4C, 0x65, 0x6E, 0x67, 0x74, 0x68];
    assert Ascii("Content-Length") == s;
    LowerUnits(t, s, CONTENT + LENGTH);
  }

  lemma {:induction false} LowerType(t: Casing)
    requires LowersAscii(t)
    ensures t.lower(Ascii("Content-Type")) == CONTENT + TYPE
  {
    hide LowersAscii;
    var s := [0x43, 0x6F, 0x6E, 0x74, 0x65, 0x6E, 0x74, 0x2D, 0x54, 0x79, 0x70, 0x65];
    assert Ascii("Content-Type") == s;
    LowerUnits(t, s, CONTENT + TYPE);
  }

  lemma {:induction false} LowerAuthorization(t: Casing)
    requires LowersAscii(t)
    ensures t.lower(Ascii("Authorization")) == AUTHORIZATION
  {
    hide LowersAscii;
    var s := [0x41, 0x75, 0x74, 0x68, 0x6F, 0x72, 0x69, 0x7A, 0x61, 0x74, 0x69, 0x6F, 0x6E];
    assert Ascii("Authorization") == s;
    LowerUnits(t, s, AUTHORIZATION);
  }

  lemma {:induction false} FourNames(t: Casing, n: Str)
    ensures n in ToSign(t, []) <==>
      || n == t.lower(Ascii("Host")) || n == t.lower(Ascii("Content-MD5"))
      || n == t.lower(Ascii("Content-Length")) || n == t.lower(Ascii("Content-Type"))
  {
    hide Ascii;
    var names := [Ascii("Host"), Ascii("Content-MD5"), Ascii("Content-Length"), Ascii("Content-Type")];
    assert ToSign(t, []) == set name: Str | name in names :: t.lower(name);
    assert names[0] in names && names[1] in names && names[2] in names && names[3] in names;
  }

  lemma {:induction false} DefaultNames(t: Casing, n: Str)
    requires LowersAscii(t)
    ensures n in ToSign(t, []) <==> n == HOST || n == CONTENT + MD5 || n == CONTENT + LENGTH || n == CONTENT + TYPE
  {
    hide LowersAscii, ToSign, Ascii;
    LowerHost(t);
    LowerMd5(t);
    LowerLength(t);
    LowerType(t);
    FourNames(t, n);
  }

  // ---- signed headers ----

  /** The header has this name, in any case, and this value, which is not empty; strings are trimmed. */
  predicate Has(t: Casing, h: Header, p: Pair) {
    && t.lower(h.key) == p.name
    && match h.value
       case Missing => false
       case Text(s) => t.trim(s) == p.value && p.value != []
       case NonText(printed) => printed == p.value
  }

  /** The name begins with `x-bce-`, or is one that was asked for, or without any one of four usual ones. */
  predicate Wanted(t: Casing, headersToSign: seq<Str>, name: Str) {
    || (|name| >= 6 && name[..6] == X_BCE)
    || (headersToSign != [] && exists n :: n in headersToSign && t.lower(n) == name)
    || (headersToSign == [] && (name == HOST || name == CONTENT + MD5 || name == CONTENT + LENGTH || name == CONTENT + TYPE))
  }

  /** How many of the headers have this name and value. */
  function Times(t: Casing, headers: seq<Header>, p: Pair): nat {
    if headers == [] then 0
    else
      var n := |headers| - 1;
      Times(t, headers[..n], p) + if Has(t, headers[n], p) then 1 else 0
  }

  lemma {:induction false} AskedNames(t: Casing, headersToSign: seq<Str>, name: Str)
    requires LowersAscii(t)
    ensures Ascii("x-bce-") <= name || name in ToSign(t, headersToSign) <==> Wanted(t, headersToSign, name)
  {
    hide LowersAscii;
    BcePrefix();
    if headersToSign == [] {
      DefaultNames(t, name);
      hide ToSign, Ascii;
    } else {
      hide Ascii;
    }
  }

  lemma {:induction false} BcePrefix()
    ensures Ascii("x-bce-") == X_BCE
  {}

  lemma {:induction false} OneHeader(t: Casing, headersToSign: seq<Str>, h: Header, p: Pair)
    requires LowersAscii(t)
    ensures SignedPair(t, ToSign(t, headersToSign), h) == Some(p) <==> Has(t, h, p) && Wanted(t, headersToSign, p.name)
  {
    AskedNames(t, headersToSign, t.lower(h.key));
    hide Wanted, ToSign;
  }

  /** A pair is signed as often as a header has it, if its name is one to sign, and otherwise not at all. */
  lemma {:induction false} SignedAsOften(t: Casing, headers: seq<Header>, headersToSign: seq<Str>, p: Pair)
    requires LowersAscii(t)
    ensures multiset(SignedPairs(t, ToSign(t, headersToSign), headers))[p] ==
      if Wanted(t, headersToSign, p.name) then Times(t, headers, p) else 0
  {
    hide Wanted, ToSign, Has, SignedPair;
    if headers != [] {
      var n := |headers| - 1;
      SignedAsOften(t, headers[..n], headersToSign, p);
      OneHeader(t, headersToSign, headers[n], p);
    }
  }

  /** So exactly these pairs are signed. */
  lemma {:induction false} SignedIff(t: Casing, headers: seq<Header>, headersToSign: seq<Str>, p: Pair)
    requires LowersAscii(t)
    ensures p in SignedPairs(t, ToSign(t, headersToSign), headers) <==>
      Wanted(t, headersToSign, p.name) && exists i :: 0 <= i < |headers| && Has(t, headers[i], p)
  {
    hide Wanted, ToSign, Has, SignedPairs;
    SignedAsOften(t, headers, headersToSign, p);
    TimesPositive(t, headers, p);
    var pairs := SignedPairs(t, ToSign(t, headersToSign), headers);
    assert p in pairs <==> p in multiset(pairs);
  }

  lemma {:induction false} TimesPositive(t: Casing, headers: seq<Header>, p: Pair)
    ensures Times(t, headers, p) > 0 <==> exists i :: 0 <= i < |headers| && Has(t, headers[i], p)
  {
    hide Has;
    if headers != [] {
      var n := |headers| - 1;
      TimesPositive(t, headers[..n], p);
      if i :| 0 <= i < n && Has(t, headers[..n][i], p) { assert Has(t, headers[i], p); }
      if i :| 0 <= i < |headers| && Has(t, headers[i], p) {
        assert i < n ==> Has(t, headers[..n][i], p);
      }
    }
  }

  /** For example the date that clients send by default, whatever they ask to be signed. */
  lemma {:induction false} DateIsSigned(t: Casing, key: Str, value: Str, headersToSign: seq<Str>)
    requires LowersAscii(t) && t.trim(value) != [] && t.lower(key) == X_BCE + [0x64, 0x61, 0x74, 0x65]
    ensures SignedPairs(t, ToSign(t, headersToSign), [Header(key, Text(value))]) == [Pair(t.lower(key), t.trim(value))]
  {
    var h, p := Header(key, Text(value)), Pair(t.lower(key), t.trim(value));
    assert p.name[..6] == X_BCE;
    assert Has(t, h, p) && Wanted(t, headersToSign, p.name);
    hide LowersAscii, ToSign, Wanted, Has, SignedPair;
    OneHeader(t, headersToSign, h, p);
    SinglePair(t, ToSign(t, headersToSign), h, p);
  }

  lemma {:induction false} SinglePair(t: Casing, toSign: set<Str>, h: Header, p: Pair)
    requires SignedPair(t, toSign, h) == Some(p)
    ensures SignedPairs(t, toSign, [h]) == [p]
  {
    hide SignedPair;
    assert [h][..0] == [] && SignedPairs(t, toSign, []) == [];
  }

  // ---- parameters ----

  /** The parameter has this key and this value, a missing value counting as an empty one. */
  predicate Sends(param: Param, p: Pair) {
    param.key == p.name && (if param.value == None then p.value == [] else param.value == Some(p.value))
  }

  function TimesSent(params: seq<Param>, p: Pair): nat {
    if params == [] then 0
    else
      var n := |params| - 1;
      TimesSent(params[..n], p) + if Sends(params[n], p) then 1 else 0
  }

  lemma {:induction false} SkippedIff(t: Casing, key: Str)
    requires LowersAscii(t)
    ensures Skipped(t, key) <==> t.lower(key) == AUTHORIZATION
  {
    LowerAuthorization(t);
    hide Ascii, LowersAscii;
  }

  /** Every parameter but `authorization`, in any case, goes into the canonical query string. */
  lemma {:induction false} SentAsOften(t: Casing, params: seq<Param>, p: Pair)
    requires LowersAscii(t)
    ensures multiset(QueryPairs(t, params))[p] == if t.lower(p.name) == AUTHORIZATION then 0 else TimesSent(params, p)
  {
    if params != [] {
      var n := |params| - 1;
      SentAsOften(t, params[..n], p);
      SkippedIff(t, params[n].key);
      hide Skipped;
    }
  }

  // ---- what is written ----

  /** What one ASCII character becomes: letters, digits, and - . _ ~ stay, the others become a percent triplet. */
  function Written(c: Unit): Str {
    if 0x41 <= c <= 0x5A || 0x61 <= c <= 0x7A || 0x30 <= c <= 0x39 || c in {0x2D, 0x2E, 0x5F, 0x7E} then [c]
    else [0x25, HexDigit(c / 16), HexDigit(c % 16)]
  }

  /** From 0 to 9 and on from A. */
  function HexDigit(n: nat): Unit { if n < 10 then 0x30 + n else if n < 16 then 0x41 + n - 10 else 0 }

  lemma {:induction false} NormalOfAscii(c: Unit)
    requires c < 0x80
    ensures WellFormed([c]) && Normal([c]) == Written(c)
  {
    var text: Str, ps: seq<Scalar> := [c], [c as Scalar];
    var none: seq<Scalar> := [];
    assert text[1..] == [] && Scalars([]) == Some(none) && [c as Scalar] + none == ps;
    assert Scalars(text) == Prepend(c as Scalar, Some(none)) == Some(ps);
    TwoPasses(ps);
    assert ps[1..] == [] && Plain([]) == [];
    if !Unreserved(c) {
      assert Utf8(c as Scalar) == [c as Byte];
      OneByte(c as Byte);
    }
  }

  lemma {:induction false} OneByte(b: Byte)
    ensures Triplets([b]) == [0x25, HexDigit(b / 16), HexDigit(b % 16)]
  {
    assert [b][1..] == [];
    assert Triplets([b]) == Triplet(b) + Triplets([]);
  }

  /** A header is written as name:value, a parameter as key=value, the key as it is. */
  lemma {:induction false} LinesWritten(p: Pair)
    ensures HeaderLine(p) == Normal(p.name) + [0x3A] + Normal(p.value)
    ensures QueryLine(p) == p.name + [0x3D] + Normal(p.value)
  {}

  /** The names of several signed headers are joined with semicolons, in the order of their lines. */
  lemma {:induction false} NamesWritten(pairs: seq<Pair>)
    requires AllSound(pairs) && |pairs| > 1
    ensures var names := CanonicalHeaders(pairs).value.names;
      |names| == |pairs| && NamesText(pairs) == names[0] + [0x3B] + Joined(names[1..], 0x3B)
  {
    EncodedNames(pairs);
    hide CanonicalHeaders;
  }

  /** At this position the first difference is, and it is in favour of a. */
  predicate FirstLess(a: Str, b: Str, i: nat) {
    i < |a| && i < |b| && a[..i] == b[..i] && a[i] < b[i]
  }

  /** Lines are in the order of code units: at the first difference, or when one begins with the other. */
  lemma {:induction false} OrderIsLexicographic(a: Str, b: Str)
    ensures Leq(a, b) <==> a <= b || exists i: nat :: FirstLess(a, b, i)
  {
    if a == [] || b == [] {
    } else if a[0] == b[0] {
      OrderIsLexicographic(a[1..], b[1..]);
      hide FirstLess;
      assert a == [a[0]] + a[1..] && b == [b[0]] + b[1..];
      if i: nat :| FirstLess(a[1..], b[1..], i) { LessBehind(a, b, i); }
      if i: nat :| FirstLess(a, b, i) { LessBefore(a, b, i); }
    } else {
      assert FirstLess(a, b, 0) <==> a[0] < b[0];
      forall i: nat | FirstLess(a, b, i) ensures i == 0 { SameBefore(a, b, i); }
    }
  }

  lemma {:induction false} SameBefore(a: Str, b: Str, i: nat)
    requires FirstLess(a, b, i)
    ensures i > 0 ==> a[0] == b[0]
  {
    if i > 0 { assert a[0] == a[..i][0] && b[0] == b[..i][0]; }
  }

  lemma {:induction false} LessBehind(a: Str, b: Str, i: nat)
    requires a != [] && b != [] && a[0] == b[0] && FirstLess(a[1..], b[1..], i)
    ensures FirstLess(a, b, i + 1)
  {
    assert a[..i + 1] == [a[0]] + a[1..][..i] && b[..i + 1] == [b[0]] + b[1..][..i];
  }

  lemma {:induction false} LessBefore(a: Str, b: Str, i: nat)
    requires a != [] && b != [] && a[0] == b[0] && FirstLess(a, b, i)
    ensures i > 0 && FirstLess(a[1..], b[1..], i - 1)
  {
    assert a[1..][..i - 1] == a[..i][1..] && b[1..][..i - 1] == b[..i][1..];
  }

  /** What stands before the first line break, and what behind it. */
  function FirstLine(s: Str): Str { Before(s, 0x0A) }

  function OtherLines(s: Str): Str { After(s, 0x0A) }

  /** What is hashed: the verb, the URI, the query string and the headers, each on a line of its own. */
  lemma {:induction false} TextInOrder(r: Request)
    requires r.Encodes() && r.OneLineEach()
    ensures var text := r.Text();
      && FirstLine(text) == r.verb && FirstLine(OtherLines(text)) == r.uri
      && OtherLines(OtherLines(text)) == QueryText(r.params) + [0x0A] + HeaderText(r.headers)
  {
    hide QueryText, HeaderText, Before, After;
    var rest := QueryText(r.params) + [NEWLINE] + HeaderText(r.headers);
    BeforeAfter(r.verb, r.uri + [NEWLINE] + rest, NEWLINE);
    BeforeAfter(r.uri, rest, NEWLINE);
  }
}
