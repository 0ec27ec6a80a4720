/** The canonical form of a request, which is what gets signed: its headers and its query string. */
module CanonicalRequest {
  import opened Options
  import opened Percent
  import opened Lines

  const NEWLINE: Unit := 0x0A
  const AMPERSAND: Unit := 0x26
  const COLON: Unit := 0x3A
  const SEMICOLON: Unit := 0x3B
  const EQUALS: Unit := 0x3D

  /** The code units of an ASCII literal. */
  function Ascii(s: string): Str {
    seq(|s|, i requires 0 <= i < |s| => s[i] as int % 0x80)
  }

  /** toLowerCase and trim, of which only the results matter here. */
  datatype Casing = Casing(lower: Str -> Str, trim: Str -> Str)

  // ---- entries: a name and a value on one line ----

  datatype Pair = Pair(name: Str, value: Str)

  predicate Sound(p: Pair) { WellFormed(p.name) && WellFormed(p.value) }

  predicate AllSound(pairs: seq<Pair>) { forall p: Pair :: p in pairs ==> Sound(p) }

  function HeaderLine(p: Pair): Str { Normal(p.name) + [COLON] + Normal(p.value) }

  function Before(s: Str, separator: Unit): Str {
    if s == [] || s[0] == separator then [] else [s[0]] + Before(s[1..], separator)
  }

  function After(s: Str, separator: Unit): Str {
    if s == [] then [] else if s[0] == separator then s[1..] else After(s[1..], separator)
  }

  lemma {:induction false} BeforeAfter(a: Str, x: Str, separator: Unit)
    requires separator !in a
    ensures Before(a + [separator] + x, separator) == a && After(a + [separator] + x, separator) == x
  {
    var s := a + [separator] + x;
    if a == [] {
      assert s[1..] == x;
    } else {
      BeforeAfter(a[1..], x, separator);
      assert s[1..] == a[1..] + [separator] + x && [a[0]] + a[1..] == a;
    }
  }

  function Decoded(t: Str): Str {
    match Decode(t)
    case Some(s) => s
    case None => []
  }

  /** What a reader makes of a line. */
  function ReadHeaderLine(line: Str): Pair {
    Pair(Decoded(Before(line, COLON)), Decoded(After(line, COLON)))
  }

  lemma {:induction false} SafeClean(t: Str, separator: Unit)
    requires Safe(t) && !Unreserved(separator) && separator != PERCENT
    ensures separator !in t
  {}

  lemma {:induction false} HeaderLineReads(p: Pair)
    requires Sound(p)
    ensures ReadHeaderLine(HeaderLine(p)) == p && Before(HeaderLine(p), COLON) == Normal(p.name)
    ensures HeaderLine(p) != [] && NEWLINE !in HeaderLine(p)
  {
    hide Before, After, Decode, Normal, Safe;
    NormalSafe(p.name);
    NormalSafe(p.value);
    SafeClean(Normal(p.name), COLON);
    SafeClean(Normal(p.name), NEWLINE);
    SafeClean(Normal(p.value), NEWLINE);
    BeforeAfter(Normal(p.name), Normal(p.value), COLON);
    DecodeNormal(p.name);
    DecodeNormal(p.value);
  }

  // ---- canonical headers ----

  /** The text to sign and the encoded names that were signed, in the order of the lines. */
  datatype Signed = Signed(text: Str, names: seq<Str>)

  function SignedName(line: Str): Str { Before(line, COLON) }

  function CanonicalHeaders(pairs: seq<Pair>): Result<Signed> {
    if AllSound(pairs) then
      var lines := Sort(Map(HeaderLine, pairs));
      Ok(Signed(Joined(lines, NEWLINE), Map(SignedName, lines)))
    else Raised
  }

  lemma {:induction false} SoundBag(a: seq<Pair>, b: seq<Pair>)
    requires multiset(a) == multiset(b)
    ensures AllSound(a) <==> AllSound(b)
  {
    forall p: Pair ensures p in a <==> p in b {
      assert p in a <==> p in multiset(a);
      assert p in b <==> p in multiset(b);
    }
  }

  lemma {:induction false} HeaderLinesRead(pairs: seq<Pair>)
    requires AllSound(pairs)
    ensures Map(ReadHeaderLine, Map(HeaderLine, pairs)) == pairs
    ensures Clean(Map(HeaderLine, pairs), NEWLINE)
  {
    hide ReadHeaderLine, HeaderLine, Sound;
    var lines := Map(HeaderLine, pairs);
    forall i | 0 <= i < |pairs| ensures ReadHeaderLine(lines[i]) == pairs[i] && lines[i] != [] && NEWLINE !in lines[i] {
      assert pairs[i] in pairs;
      HeaderLineReads(pairs[i]);
    }
  }

  lemma {:induction false} CleanBag(a: seq<Str>, b: seq<Str>, separator: Unit)
    requires Clean(a, separator) && multiset(a) == multiset(b)
    ensures Clean(b, separator)
  {
    forall i | 0 <= i < |b| ensures b[i] != [] && separator !in b[i] {
      assert b[i] in multiset(a);
    }
  }

  /** The canonical headers depend on the signed pairs, each as often as it occurs, and on nothing else. */
  lemma {:induction false} HeadersIgnoreOrder(a: seq<Pair>, b: seq<Pair>)
    requires multiset(a) == multiset(b)
    ensures CanonicalHeaders(a) == CanonicalHeaders(b)
  {
    hide HeaderLine;
    SoundBag(a, b);
    SameBag(HeaderLine, a, b);
    SortForgetsOrder(Map(HeaderLine, a), Map(HeaderLine, b));
  }

  /** The text alone tells all signed pairs. */
  lemma {:induction false} HeadersInjective(a: seq<Pair>, b: seq<Pair>)
    requires AllSound(a) && AllSound(b)
    ensures CanonicalHeaders(a).value.text == CanonicalHeaders(b).value.text <==> multiset(a) == multiset(b)
  {
    if CanonicalHeaders(a).value.text == CanonicalHeaders(b).value.text {
      hide HeaderLine, ReadHeaderLine, Clean, AllSound;
      var x, y := Map(HeaderLine, a), Map(HeaderLine, b);
      HeaderLinesRead(a);
      HeaderLinesRead(b);
      SortCorrect(x);
      SortCorrect(y);
      CleanBag(x, Sort(x), NEWLINE);
      CleanBag(y, Sort(y), NEWLINE);
      JoinedInjective(Sort(x), Sort(y), NEWLINE);
      SameBag(ReadHeaderLine, x, y);
    }
    if multiset(a) == multiset(b) {
      HeadersIgnoreOrder(a, b);
    }
  }

  function NameOf(p: Pair): Str { p.name }

  function ReadName(line: Str): Str { Decoded(SignedName(line)) }

  lemma {:induction false} NameReads(p: Pair)
    requires Sound(p)
    ensures ReadName(HeaderLine(p)) == p.name
  {
    HeaderLineReads(p);
    DecodeNormal(p.name);
  }

  lemma {:induction false} NamesRead(pairs: seq<Pair>)
    requires AllSound(pairs)
    ensures Map(ReadName, Map(HeaderLine, pairs)) == Map(NameOf, pairs)
  {
    hide HeaderLine, ReadName, Sound;
    var lines := Map(HeaderLine, pairs);
    var read, names := Map(ReadName, lines), Map(NameOf, pairs);
    forall i | 0 <= i < |pairs| ensures read[i] == names[i] {
      assert pairs[i] in pairs;
      assert read[i] == ReadName(lines[i]) && lines[i] == HeaderLine(pairs[i]) && names[i] == pairs[i].name;
      NameReads(pairs[i]);
    }
    assert read == names;
  }

  lemma {:induction false} NamesDecoded(lines: seq<Str>)
    ensures Map(Decoded, Map(SignedName, lines)) == Map(ReadName, lines)
  {
    hide Decoded, SignedName;
    assert Map(Decoded, Map(SignedName, lines)) == Map(ReadName, lines);
  }

  /** Decoding the list of signed names gives the names of the signed pairs, each as often as it occurs. */
  lemma {:induction false} SignedNamesRecovered(pairs: seq<Pair>)
    requires AllSound(pairs)
    ensures multiset(Map(Decoded, CanonicalHeaders(pairs).value.names)) == multiset(Map(NameOf, pairs))
  {
    hide HeaderLine, Decoded, SignedName, ReadName, Map, AllSound;
    var lines := Map(HeaderLine, pairs);
    SortCorrect(lines);
    SameBag(ReadName, Sort(lines), lines);
    NamesDecoded(Sort(lines));
    NamesRead(pairs);
  }

  // ---- the names of the signed headers, joined with semicolons ----

  function NamesText(pairs: seq<Pair>): Str
    requires AllSound(pairs)
  {
    Joined(CanonicalHeaders(pairs).value.names, SEMICOLON)
  }

  lemma {:induction false} EncodedNames(pairs: seq<Pair>)
    requires AllSound(pairs)
    ensures
      var names := CanonicalHeaders(pairs).value.names;
      && |names| == |pairs|
      && forall name: Str :: name in names ==> SEMICOLON !in name && COLON !in name
  {
    hide HeaderLine, SignedName, Normal, Safe, Unreserved, Sound;
    var lines := Map(HeaderLine, pairs);
    SortCorrect(lines);
    SameSize(Sort(lines), lines);
    var names := Map(SignedName, Sort(lines));
    forall i | 0 <= i < |names| ensures SEMICOLON !in names[i] && COLON !in names[i] {
      assert Sort(lines)[i] in multiset(lines);
      var k :| 0 <= k < |lines| && lines[k] == Sort(lines)[i];
      assert pairs[k] in pairs;
      EncodedName(pairs[k]);
    }
  }

  lemma {:induction false} EncodedName(p: Pair)
    requires Sound(p)
    ensures SignedName(HeaderLine(p)) == Normal(p.name)
    ensures SEMICOLON !in Normal(p.name) && COLON !in Normal(p.name)
  {
    hide Normal, Safe;
    HeaderLineReads(p);
    NormalSafe(p.name);
    SafeClean(Normal(p.name), SEMICOLON);
    SafeClean(Normal(p.name), COLON);
  }

  function Headed(name: Str): Str { name + [COLON] }

  /** Up to a separator that is in no name, lines are in the order of their names. */
  lemma {:induction false} LeqOfHeads(a: Str, x: Str, b: Str, y: Str, separator: Unit)
    requires separator !in a && separator !in b && Leq(a + [separator] + x, b + [separator] + y)
    ensures Leq(a + [separator], b + [separator])
  {
    var s, u := a + [separator] + x, b + [separator] + y;
    if a != [] && b != [] && a[0] == b[0] {
      assert s[1..] == a[1..] + [separator] + x && u[1..] == b[1..] + [separator] + y;
      LeqOfHeads(a[1..], x, b[1..], y, separator);
      assert (a + [separator])[1..] == a[1..] + [separator] && (b + [separator])[1..] == b[1..] + [separator];
    } else if a == [] && b == [] {
      LeqTotal([separator], [separator]);
    } else {
      assert s[0] == (a + [separator])[0] && u[0] == (b + [separator])[0];
    }
  }

  lemma {:induction false} NamesOrdered(pairs: seq<Pair>)
    requires AllSound(pairs)
    ensures Ordered(Map(Headed, CanonicalHeaders(pairs).value.names))
  {
    hide HeaderLine, SignedName, Leq, Sound, Normal;
    var lines := Map(HeaderLine, pairs);
    SortCorrect(lines);
    var sorted := Sort(lines);
    var heads := Map(Headed, Map(SignedName, sorted));
    forall i, j | 0 <= i < j < |heads| ensures Leq(heads[i], heads[j]) {
      assert sorted[i] in multiset(lines) && sorted[j] in multiset(lines);
      var k :| 0 <= k < |lines| && lines[k] == sorted[i];
      var m :| 0 <= m < |lines| && lines[m] == sorted[j];
      assert pairs[k] in pairs && pairs[m] in pairs;
      HeadsOrdered(pairs[k], pairs[m]);
    }
  }

  lemma {:induction false} HeadsOrdered(p: Pair, q: Pair)
    requires Sound(p) && Sound(q) && Leq(HeaderLine(p), HeaderLine(q))
    ensures Leq(Headed(SignedName(HeaderLine(p))), Headed(SignedName(HeaderLine(q))))
  {
    hide Normal, Leq;
    EncodedName(p);
    EncodedName(q);
    LeqOfHeads(Normal(p.name), Normal(p.value), Normal(q.name), Normal(q.value), COLON);
  }

  lemma {:induction false} NamesDecode(pairs: seq<Pair>)
    requires AllSound(pairs)
    ensures multiset(CanonicalHeaders(pairs).value.names) == multiset(Map(EncodedNameOf, pairs))
  {
    hide HeaderLine, Normal, SignedName, Sound;
    var lines := Map(HeaderLine, pairs);
    SortCorrect(lines);
    SameBag(SignedName, Sort(lines), lines);
    forall i | 0 <= i < |pairs| ensures SignedName(lines[i]) == Normal(pairs[i].name) {
      assert pairs[i] in pairs;
      EncodedName(pairs[i]);
    }
    assert Map(SignedName, lines) == Map(EncodedNameOf, pairs);
  }

  function EncodedNameOf(p: Pair): Str { Normal(p.name) }

  /** The order of the names in the list depends on the names alone. */
  lemma {:induction false} SameNames(a: seq<Pair>, b: seq<Pair>)
    requires AllSound(a) && AllSound(b)
    ensures CanonicalHeaders(a).value.names == CanonicalHeaders(b).value.names
      <==> multiset(Map(NameOf, a)) == multiset(Map(NameOf, b))
  {
    assert CanonicalHeaders(a).Ok? && CanonicalHeaders(b).Ok?;
    hide Headed, AllSound, CanonicalHeaders, Decoded, Ordered;
    var x, y := CanonicalHeaders(a).value.names, CanonicalHeaders(b).value.names;
    SignedNamesRecovered(a);
    SignedNamesRecovered(b);
    if multiset(Map(NameOf, a)) == multiset(Map(NameOf, b)) {
      NamesDecode(a);
      NamesDecode(b);
      EncodedOfNames(a);
      EncodedOfNames(b);
      SameBag(Normal, Map(NameOf, a), Map(NameOf, b));
      SameBag(Headed, x, y);
      NamesOrdered(a);
      NamesOrdered(b);
      OrderedUnique(Map(Headed, x), Map(Headed, y));
      HeadedInjective(x, y);
    }
  }

  lemma {:induction false} EncodedOfNames(pairs: seq<Pair>)
    ensures Map(EncodedNameOf, pairs) == Map(Normal, Map(NameOf, pairs))
  {
    hide Normal;
    assert Map(EncodedNameOf, pairs) == Map(Normal, Map(NameOf, pairs));
  }

  lemma {:induction false} HeadedInjective(a: seq<Str>, b: seq<Str>)
    requires Map(Headed, a) == Map(Headed, b)
    ensures a == b
  {
    assert |a| == |Map(Headed, a)| && |b| == |Map(Headed, b)|;
    forall i | 0 <= i < |a| ensures a[i] == b[i] {
      assert Map(Headed, a)[i] == Headed(a[i]) && Map(Headed, b)[i] == Headed(b[i]);
      assert Headed(a[i])[..|a[i]|] == a[i] && Headed(b[i])[..|b[i]|] == b[i];
    }
  }

  /** No header is signed, or a single one with an empty name. */
  predicate NamesNothing(pairs: seq<Pair>) { pairs == [] || (|pairs| == 1 && pairs[0].name == []) }

  /** The joined names tell which headers were signed; only an empty name alone looks like none. */
  lemma {:induction false} NamesTextInjective(a: seq<Pair>, b: seq<Pair>)
    requires AllSound(a) && AllSound(b)
    ensures NamesText(a) == NamesText(b)
      <==> multiset(Map(NameOf, a)) == multiset(Map(NameOf, b)) || (NamesNothing(a) && NamesNothing(b))
  {
    var x, y := CanonicalHeaders(a).value.names, CanonicalHeaders(b).value.names;
    hide AllSound, CanonicalHeaders, NameOf;
    SameNames(a, b);
    EncodedNames(a);
    EncodedNames(b);
    NothingNamed(a);
    NothingNamed(b);
    if a != [] && b != [] && NamesText(a) == NamesText(b) {
      JoinedTold(x, y, SEMICOLON);
    }
  }

  lemma {:induction false} OneName(p: Pair)
    requires Sound(p)
    ensures AllSound([p]) && NamesText([p]) == Normal(p.name)
  {
    hide HeaderLine, SignedName, Normal, Sound;
    EncodedName(p);
    var line := HeaderLine(p);
    assert Map(HeaderLine, [p]) == [line];
    var lines := [line];
    assert lines[1..] == [] && Sort(lines) == [line];
    assert Map(SignedName, [line]) == [SignedName(line)];
  }

  lemma {:induction false} NothingNamed(pairs: seq<Pair>)
    requires AllSound(pairs)
    ensures NamesText(pairs) == [] <==> NamesNothing(pairs)
  {
    var names := CanonicalHeaders(pairs).value.names;
    EncodedNames(pairs);
    hide CanonicalHeaders, Normal;
    if |pairs| > 1 {
      JoinedBreaks(names, SEMICOLON);
    } else if |pairs| == 1 {
      var p := pairs[0];
      assert pairs == [p] && p in pairs;
      OneName(p);
      EmptyName(p.name);
    }
  }

  lemma {:induction false} EmptyName(name: Str)
    requires WellFormed(name)
    ensures Normal(name) == [] <==> name == []
  {
    assert WellFormed([]) && Normal([]) == [];
    DecodeNormal(name);
    DecodeNormal([]);
  }

  // ---- which headers are signed ----

  /** A header value: missing, a string, or something else with its printed form. */
  datatype HeaderValue = Missing | Text(s: Str) | NonText(printed: Str)

  datatype Header = Header(key: Str, value: HeaderValue)

  /** The value after trimming; only strings are trimmed, and only an empty string counts as missing. */
  function Trimmed(t: Casing, v: HeaderValue): Option<Str> {
    match v
    case Missing => None
    case Text(s) => if t.trim(s) == [] then None else Some(t.trim(s))
    case NonText(printed) => Some(printed)
  }

  function SignedPair(t: Casing, toSign: set<Str>, h: Header): Option<Pair> {
    var name := t.lower(h.key);
    match Trimmed(t, h.value)
    case Some(value) => if Ascii("x-bce-") <= name || name in toSign then Some(Pair(name, value)) else None
    case None => None
  }

  function SignedPairs(t: Casing, toSign: set<Str>, headers: seq<Header>): seq<Pair> {
    if headers == [] then []
    else
      var n := |headers| - 1;
      var before := SignedPairs(t, toSign, headers[..n]);
      match SignedPair(t, toSign, headers[n])
      case Some(p) => before + [p]
      case None => before
  }

  /** The names the caller asks for, lower-cased; without any, those of four usual headers. */
  function ToSign(t: Casing, headersToSign: seq<Str>): set<Str> {
    var names := if headersToSign == [] then
      [Ascii("Host"), Ascii("Content-MD5"), Ascii("Content-Length"), Ascii("Content-Type")] else headersToSign;
    set name: Str | name in names :: t.lower(name)
  }

  lemma {:induction false} PairsMore(t: Casing, toSign: set<Str>, headers: seq<Header>, i: nat)
    requires i < |headers|
    ensures SignedPairs(t, toSign, headers[..i + 1]) == SignedPairs(t, toSign, headers[..i]) +
      match SignedPair(t, toSign, headers[i]) case Some(p) => [p] case None => []
  {
    assert headers[..i + 1][..i] == headers[..i];
  }

  /** A header that cannot be encoded stays among the signed ones. */
  lemma {:induction false} PairsKept(t: Casing, toSign: set<Str>, headers: seq<Header>, i: nat, p: Pair)
    requires i <= |headers| && p in SignedPairs(t, toSign, headers[..i])
    ensures p in SignedPairs(t, toSign, headers)
    decreases |headers| - i
  {
    if i < |headers| {
      PairsMore(t, toSign, headers, i);
      PairsKept(t, toSign, headers, i + 1, p);
    } else {
      assert headers[..i] == headers;
    }
  }

  lemma {:induction false} LinesMore(pairs: seq<Pair>, p: Pair)
    ensures Map(HeaderLine, pairs + [p]) == Map(HeaderLine, pairs) + [HeaderLine(p)]
    ensures AllSound(pairs + [p]) <==> AllSound(pairs) && Sound(p)
  {
    hide HeaderLine, Sound;
    assert forall q: Pair :: q in pairs + [p] <==> q in pairs || q == p;
  }

  method HeadersCanonicalization(t: Casing, headers: seq<Header>, headersToSign: seq<Str>) returns (r: Result<Signed>)
    ensures r == CanonicalHeaders(SignedPairs(t, ToSign(t, headersToSign), headers))
  {
    hide HeaderLine, Sound, ToSign, SignedPairs;
    var toSign := ToSign(t, headersToSign);
    var canonicalHeaders: seq<Str> := [];
    ghost var pairs: seq<Pair> := [];
    NoPairs(t, toSign);
    assert headers[..0] == [];
    for i := 0 to |headers|
      invariant pairs == SignedPairs(t, toSign, headers[..i])
      invariant AllSound(pairs) && canonicalHeaders == Map(HeaderLine, pairs)
    {
      PairsMore(t, toSign, headers, i);
      var value := Trimmed(t, headers[i].value);
      if value.Some? {
        var key := t.lower(headers[i].key);
        if Ascii("x-bce-") <= key || key in toSign {
          var p := Pair(key, value.value);
          LinesMore(pairs, p);
          PairsKept(t, toSign, headers, i + 1, p);
          var encodedKey, encodedValue := Normalize(key), Normalize(value.value);
          SoundAndLine(p);
          if encodedKey.Raised? || encodedValue.Raised? { return Raised; }
          canonicalHeaders := canonicalHeaders + [encodedKey.value + [COLON] + encodedValue.value];
          pairs := pairs + [p];
        }
      }
    }
    assert headers[..|headers|] == headers;
    canonicalHeaders := Sort(canonicalHeaders);
    var signedHeaders: seq<Str> := [];
    for i := 0 to |canonicalHeaders|
      invariant signedHeaders == Map(SignedName, canonicalHeaders[..i])
    {
      assert Map(SignedName, canonicalHeaders[..i + 1]) == Map(SignedName, canonicalHeaders[..i]) + [SignedName(canonicalHeaders[i])];
      signedHeaders := signedHeaders + [Before(canonicalHeaders[i], COLON)];
    }
    assert canonicalHeaders[..|canonicalHeaders|] == canonicalHeaders;
    r := Ok(Signed(Joined(canonicalHeaders, NEWLINE), signedHeaders));
  }

  lemma {:induction false} NoPairs(t: Casing, toSign: set<Str>)
    ensures SignedPairs(t, toSign, []) == []
  {}

  lemma {:induction false} SoundAndLine(p: Pair)
    ensures Sound(p) <==> Normalize(p.name).Ok? && Normalize(p.value).Ok?
    ensures Sound(p) ==> HeaderLine(p) == Normalize(p.name).value + [COLON] + Normalize(p.value).value
  {}

  // ---- canonical query string ----

  /** A query parameter; null and undefined are None. */
  datatype Param = Param(key: Str, value: Option<Str>)

  predicate QuerySound(pairs: seq<Pair>) { forall p: Pair :: p in pairs ==> WellFormed(p.value) }

  /** The key is written as it is; only the value is encoded. */
  function QueryLine(p: Pair): Str { p.name + [EQUALS] + Normal(p.value) }

  function CanonicalQuery(pairs: seq<Pair>): Result<Str> {
    if QuerySound(pairs) then Ok(Joined(Sort(Map(QueryLine, pairs)), AMPERSAND)) else Raised
  }

  /** The header `authorization`, in any case, is no parameter. */
  predicate Skipped(t: Casing, key: Str) { t.lower(key) == t.lower(Ascii("Authorization")) }

  /** All other parameters, absent values as empty strings. */
  function QueryPairs(t: Casing, params: seq<Param>): seq<Pair> {
    if params == [] then []
    else
      var n := |params| - 1;
      var before := QueryPairs(t, params[..n]);
      if Skipped(t, params[n].key) then before
      else before + [Pair(params[n].key, if params[n].value.Some? then params[n].value.value else [])]
  }

  lemma {:induction false} QueryPairsMore(t: Casing, params: seq<Param>, i: nat)
    requires i < |params|
    ensures QueryPairs(t, params[..i + 1]) == QueryPairs(t, params[..i]) +
      if Skipped(t, params[i].key) then []
      else [Pair(params[i].key, if params[i].value.Some? then params[i].value.value else [])]
  {
    assert params[..i + 1][..i] == params[..i];
  }

  lemma {:induction false} QueryPairsKept(t: Casing, params: seq<Param>, i: nat, p: Pair)
    requires i <= |params| && p in QueryPairs(t, params[..i])
    ensures p in QueryPairs(t, params)
    decreases |params| - i
  {
    if i < |params| {
      QueryPairsMore(t, params, i);
      QueryPairsKept(t, params, i + 1, p);
    } else {
      assert params[..i] == params;
    }
  }

  lemma {:induction false} QueryLinesMore(pairs: seq<Pair>, p: Pair)
    ensures Map(QueryLine, pairs + [p]) == Map(QueryLine, pairs) + [QueryLine(p)]
    ensures QuerySound(pairs + [p]) <==> QuerySound(pairs) && WellFormed(p.value)
  {
    hide QueryLine, WellFormed;
    assert forall q: Pair :: q in pairs + [p] <==> q in pairs || q == p;
  }

  lemma {:induction false} NoQueryPairs(t: Casing)
    ensures QueryPairs(t, []) == []
  {}

  method QueryStringCanonicalization(t: Casing, params: seq<Param>) returns (r: Result<Str>)
    ensures r == CanonicalQuery(QueryPairs(t, params))
  {
    hide QueryPairs, WellFormed, Normal;
    var canonicalQueryString: seq<Str> := [];
    ghost var pairs: seq<Pair> := [];
    NoQueryPairs(t);
    assert params[..0] == [];
    for i := 0 to |params|
      invariant pairs == QueryPairs(t, params[..i])
      invariant QuerySound(pairs) && canonicalQueryString == Map(QueryLine, pairs)
    {
      QueryPairsMore(t, params, i);
      var key := params[i].key;
      if t.lower(key) != t.lower(Ascii("Authorization")) {
        var value := if params[i].value.None? then [] else params[i].value.value;
        var p := Pair(key, value);
        QueryLinesMore(pairs, p);
        QueryPairsKept(t, params, i + 1, p);
        var encoded := Normalize(value);
        if encoded.Raised? { return Raised; }
        canonicalQueryString := canonicalQueryString + [key + [EQUALS] + encoded.value];
        pairs := pairs + [p];
      }
    }
    assert params[..|params|] == params;
    r := Ok(Joined(Sort(canonicalQueryString), AMPERSAND));
  }

  lemma {:induction false} QuerySoundBag(a: seq<Pair>, b: seq<Pair>)
    requires multiset(a) == multiset(b)
    ensures QuerySound(a) <==> QuerySound(b)
  {
    forall p: Pair ensures p in a <==> p in b {
      assert p in a <==> p in multiset(a);
      assert p in b <==> p in multiset(b);
    }
  }

  /** The order of the parameters does not matter. */
  lemma {:induction false} QueryIgnoresOrder(a: seq<Pair>, b: seq<Pair>)
    requires multiset(a) == multiset(b)
    ensures CanonicalQuery(a) == CanonicalQuery(b)
  {
    hide QueryLine, QuerySound;
    QuerySoundBag(a, b);
    SameBag(QueryLine, a, b);
    SortForgetsOrder(Map(QueryLine, a), Map(QueryLine, b));
  }

  lemma {:induction false} TwoLines(x: Str, y: Str)
    requires Leq(x, y)
    ensures Joined(Sort([x, y]), AMPERSAND) == x + [AMPERSAND] + y
  {
    assert [x, y][1..] == [y] && [y][1..] == [];
    assert Sort([y]) == [y];
    assert Sort([x, y]) == [x, y];
  }

  lemma {:induction false} OneLine(x: Str)
    ensures Joined(Sort([x]), AMPERSAND) == x
  {
    assert [x][1..] == [];
  }

  /** Keys are not encoded: any two parameters can be passed off as one whose key holds the first of them. */
  lemma {:induction false} OneKeyForTwo(p: Pair, q: Pair)
    requires WellFormed(p.value) && WellFormed(q.value) && Leq(QueryLine(p), QueryLine(q))
    ensures CanonicalQuery([p, q]) == CanonicalQuery([Pair(QueryLine(p) + [AMPERSAND] + q.name, q.value)])
    ensures multiset([p, q]) != multiset([Pair(QueryLine(p) + [AMPERSAND] + q.name, q.value)])
  {
    hide Normal, WellFormed;
    var both := Pair(QueryLine(p) + [AMPERSAND] + q.name, q.value);
    BothLines(p, q);
    assert |multiset([p, q])| == 2 && |multiset([both])| == 1;
    hide QueryLine;
    TwoLines(QueryLine(p), QueryLine(q));
    OneLine(QueryLine(both));
    assert Map(QueryLine, [p, q]) == [QueryLine(p), QueryLine(q)] && Map(QueryLine, [both]) == [QueryLine(both)];
  }

  lemma {:induction false} BothLines(p: Pair, q: Pair)
    ensures QueryLine(Pair(QueryLine(p) + [AMPERSAND] + q.name, q.value)) == QueryLine(p) + [AMPERSAND] + QueryLine(q)
  {
    hide Normal;
  }

  lemma {:induction false} NormalOfDigit(c: Unit)
    requires 0x30 <= c <= 0x39
    ensures WellFormed([c]) && Normal([c]) == [c]
  {
    var text: Str, ps: seq<Scalar> := [c], [c];
    var none: seq<Scalar> := [];
    assert text[1..] == [] && Scalars([]) == Some(none) && [c as Scalar] + none == ps;
    assert Scalars(text) == Prepend(c as Scalar, Some(none)) == Some(ps);
    assert ps[1..] == [];
    assert UriEncoded([c]) == [c] + UriEncoded([]);
    assert Escaped([c]) == [c] + Escaped([]);
  }

  /** For example {"a": "1", "b": "2"} and {"a=1&b": "2"}. */
  lemma {:induction false} QueryCollides()
    ensures
      var one := [Pair(Ascii("a"), Ascii("1")), Pair(Ascii("b"), Ascii("2"))];
      var two := [Pair(Ascii("a=1&b"), Ascii("2"))];
      multiset(one) != multiset(two) && CanonicalQuery(one) == CanonicalQuery(two)
  {
    hide Normal, WellFormed, CanonicalQuery;
    var p, q := Pair(Ascii("a"), Ascii("1")), Pair(Ascii("b"), Ascii("2"));
    assert Ascii("1") == [0x31] && Ascii("2") == [0x32];
    NormalOfDigit(0x31);
    NormalOfDigit(0x32);
    assert QueryLine(p)[0] == 0x61 && QueryLine(q)[0] == 0x62;
    OneKeyForTwo(p, q);
    assert QueryLine(p) + [AMPERSAND] + q.name == Ascii("a=1&b");
  }

  function BeforeLast(s: Str, separator: Unit): Str {
    if s == [] then [] else if s[|s| - 1] == separator then s[..|s| - 1] else BeforeLast(s[..|s| - 1], separator)
  }

  function AfterLast(s: Str, separator: Unit): Str {
    if s == [] || s[|s| - 1] == separator then [] else AfterLast(s[..|s| - 1], separator) + [s[|s| - 1]]
  }

  lemma {:induction false} CutAtLast(a: Str, x: Str, separator: Unit)
    requires separator !in x
    ensures BeforeLast(a + [separator] + x, separator) == a && AfterLast(a + [separator] + x, separator) == x
  {
    var s := a + [separator] + x;
    if x == [] {
      assert s[..|s| - 1] == a;
    } else {
      var front, last := x[..|x| - 1], x[|x| - 1];
      CutAtLast(a, front, separator);
      assert s[..|s| - 1] == a + [separator] + front && front + [last] == x;
    }
  }

  function ReadQueryLine(line: Str): Pair {
    Pair(BeforeLast(line, EQUALS), Decoded(AfterLast(line, EQUALS)))
  }

  lemma {:induction false} QueryLineReads(p: Pair)
    requires WellFormed(p.value)
    ensures ReadQueryLine(QueryLine(p)) == p
    ensures QueryLine(p) != [] && (AMPERSAND in QueryLine(p) <==> AMPERSAND in p.name)
  {
    hide Normal, Decode, BeforeLast, AfterLast, Safe;
    NormalSafe(p.value);
    SafeClean(Normal(p.value), EQUALS);
    SafeClean(Normal(p.value), AMPERSAND);
    CutAtLast(p.name, Normal(p.value), EQUALS);
    DecodeNormal(p.value);
  }

  /** No key holds an ampersand. */
  predicate PlainKeys(pairs: seq<Pair>) { forall p: Pair :: p in pairs ==> AMPERSAND !in p.name }

  lemma {:induction false} QueryLinesRead(pairs: seq<Pair>)
    requires QuerySound(pairs)
    ensures Map(ReadQueryLine, Map(QueryLine, pairs)) == pairs
    ensures PlainKeys(pairs) ==> Clean(Map(QueryLine, pairs), AMPERSAND)
  {
    hide QueryLine, ReadQueryLine, WellFormed;
    var lines := Map(QueryLine, pairs);
    forall i | 0 <= i < |pairs|
      ensures ReadQueryLine(lines[i]) == pairs[i] && lines[i] != [] && (PlainKeys(pairs) ==> AMPERSAND !in lines[i])
    {
      assert pairs[i] in pairs;
      QueryLineReads(pairs[i]);
    }
  }

  /** Without ampersands in the keys the canonical query string tells all parameters. */
  lemma {:induction false} QueryInjective(a: seq<Pair>, b: seq<Pair>)
    requires QuerySound(a) && QuerySound(b) && PlainKeys(a) && PlainKeys(b)
    ensures CanonicalQuery(a) == CanonicalQuery(b) <==> multiset(a) == multiset(b)
  {
    if CanonicalQuery(a) == CanonicalQuery(b) {
      hide QueryLine, ReadQueryLine, Clean, QuerySound, PlainKeys;
      assert CanonicalQuery(a).Ok? && CanonicalQuery(b).Ok?;
      var x, y := Map(QueryLine, a), Map(QueryLine, b);
      QueryLinesRead(a);
      QueryLinesRead(b);
      SortCorrect(x);
      SortCorrect(y);
      CleanBag(x, Sort(x), AMPERSAND);
      CleanBag(y, Sort(y), AMPERSAND);
      JoinedInjective(Sort(x), Sort(y), AMPERSAND);
      SameBag(ReadQueryLine, x, y);
    }
    if multiset(a) == multiset(b) {
      QueryIgnoresOrder(a, b);
    }
  }
}
