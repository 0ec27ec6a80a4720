/** What is hashed: the verb, the canonical URI, the query string and the headers, on lines of their own. */
module SignedText {
  import opened Percent
  import opened Lines
  import opened CanonicalRequest
  import opened QueryTwins

  function RawSignature(verb: Str, uri: Str, query: Str, headers: Str): Str {
    verb + [NEWLINE] + (uri + [NEWLINE] + (query + [NEWLINE] + headers))
  }

  function QueryText(params: seq<Pair>): Str
    requires QuerySound(params)
  {
    CanonicalQuery(params).value
  }

  function HeaderText(headers: seq<Pair>): Str
    requires AllSound(headers)
  {
    CanonicalHeaders(headers).value.text
  }

  /** A request: its parameters without the skipped ones and the headers that are signed. */
  datatype Request = Request(verb: Str, uri: Str, params: seq<Pair>, headers: seq<Pair>) {
    /** Nothing of it throws. */
    predicate Encodes() { QuerySound(params) && AllSound(headers) }

    function Text(): Str
      requires Encodes()
    {
      RawSignature(verb, uri, QueryText(params), HeaderText(headers))
    }

    predicate OneLineEach() { NEWLINE !in verb && NEWLINE !in uri }
  }

  /** The same verb, URI, canonical query string and headers. */
  ghost predicate Same(r: Request, s: Request)
    requires r.Encodes() && s.Encodes()
  {
    && r.verb == s.verb && r.uri == s.uri
    && QueryText(r.params) == QueryText(s.params) && multiset(r.headers) == multiset(s.headers)
  }

  // ---- the text of the headers ----

  lemma {:induction false} LinesHold(lines: seq<Str>, separator: Unit, c: Unit)
    requires c != separator
    ensures c in Joined(lines, separator) <==> exists i :: 0 <= i < |lines| && c in lines[i]
  {
    if |lines| > 1 {
      LinesHold(lines[1..], separator, c);
      assert c in Joined(lines, separator) <==> c in lines[0] || c in Joined(lines[1..], separator);
      if i :| 0 <= i < |lines| && c in lines[i] {
        assert i > 0 ==> lines[1..][i - 1] == lines[i];
      }
      if i :| 0 <= i < |lines[1..]| && c in lines[1..][i] {
        assert lines[i + 1] == lines[1..][i];
      }
    }
  }

  lemma {:induction false} NoEqualsInLine(p: Pair)
    ensures EQUALS !in HeaderLine(p)
  {
    hide Normal, Safe;
    NormalSafe(p.name);
    NormalSafe(p.value);
    SafeClean(Normal(p.name), EQUALS);
    SafeClean(Normal(p.value), EQUALS);
  }

  lemma {:induction false} HeaderLinesClean(headers: seq<Pair>)
    requires AllSound(headers)
    ensures Clean(Sort(Map(HeaderLine, headers)), NEWLINE)
    ensures forall i :: 0 <= i < |Sort(Map(HeaderLine, headers))| ==> EQUALS !in Sort(Map(HeaderLine, headers))[i]
  {
    hide HeaderLine, Clean, AllSound;
    var lines := Map(HeaderLine, headers);
    HeaderLinesRead(headers);
    SortCorrect(lines);
    CleanBag(lines, Sort(lines), NEWLINE);
    forall i | 0 <= i < |Sort(lines)| ensures EQUALS !in Sort(lines)[i] {
      assert Sort(lines)[i] in multiset(lines);
      var k :| 0 <= k < |lines| && lines[k] == Sort(lines)[i];
      NoEqualsInLine(headers[k]);
    }
  }

  /** No line of the text is empty. */
  predicate NoGaps(s: Str) {
    forall i :: 0 <= i < |s| && s[i] == NEWLINE ==> 0 < i && i + 1 < |s| && s[i + 1] != NEWLINE
  }

  lemma {:induction false} JoinedNoGaps(lines: seq<Str>)
    requires Clean(lines, NEWLINE)
    ensures NoGaps(Joined(lines, NEWLINE))
    ensures lines != [] ==> Joined(lines, NEWLINE) != [] && Joined(lines, NEWLINE)[0] != NEWLINE
  {
    if |lines| > 1 {
      JoinedNoGaps(lines[1..]);
      NoGapsBehind(lines[0], Joined(lines[1..], NEWLINE));
    }
  }

  lemma {:induction false} NoGapsBehind(line: Str, s: Str)
    requires line != [] && NEWLINE !in line && NoGaps(s) && s != [] && s[0] != NEWLINE
    ensures NoGaps(line + [NEWLINE] + s)
  {
    var all := line + [NEWLINE] + s;
    FirstSeparator(line, s, NEWLINE);
    assert all[|line| + 1] == s[0];
    forall i | |line| < i < |all| && all[i] == NEWLINE ensures i + 1 < |all| && all[i + 1] != NEWLINE {
      assert all[i] == s[i - |line| - 1] && (i + 1 < |all| ==> all[i + 1] == s[i - |line|]);
    }
  }

  lemma {:induction false} HeaderTextPlain(headers: seq<Pair>)
    requires AllSound(headers)
    ensures EQUALS !in HeaderText(headers) && NoGaps(HeaderText(headers))
  {
    hide HeaderLine, Clean, AllSound, NoGaps;
    HeaderLinesClean(headers);
    JoinedNoGaps(Sort(Map(HeaderLine, headers)));
    LinesHold(Sort(Map(HeaderLine, headers)), NEWLINE, EQUALS);
  }

  // ---- the query string ----

  /** Nothing, or a line that could be that of a single parameter. */
  predicate IsQuery(q: Str) { q == [] || ValidLine(q) }

  lemma {:induction false} NoQuery()
    ensures QuerySound([]) && QueryText([]) == []
  {
    assert Map(QueryLine, []) == [];
  }

  lemma {:induction false} QueryTextIsQuery(params: seq<Pair>)
    requires QuerySound(params)
    ensures IsQuery(QueryText(params))
  {
    hide QueryLine, ValidLine, QuerySound;
    NoQuery();
    QueryLinesValid(params);
    if params != [] {
      JoinedValid(Sort(Map(QueryLine, params)));
    }
  }

  lemma {:induction false} QueryTextKeyed(t: Casing, params: seq<Pair>)
    requires KeepsAmpersands(t) && QuerySound(params) && NoneSkipped(t, params)
    ensures QueryText(params) == [] || KeyedLine(t, QueryText(params))
  {
    hide QueryLine, KeyedLine, KeepsAmpersands, NoneSkipped, QuerySound;
    NoQuery();
    QueryLinesKeyed(t, params);
    if params != [] {
      JoinedKeyed(t, Sort(Map(QueryLine, params)));
    }
  }

  /** Keys are the only part of a query string that can break the line. */
  lemma {:induction false} QueryBreaks(params: seq<Pair>)
    requires QuerySound(params)
    ensures NEWLINE in QueryText(params) <==> exists p: Pair :: p in params && NEWLINE in p.name
  {
    hide QueryLine, WellFormed;
    var lines := Map(QueryLine, params);
    var sorted := Sort(lines);
    SortCorrect(lines);
    LinesHold(sorted, AMPERSAND, NEWLINE);
    if i :| 0 <= i < |sorted| && NEWLINE in sorted[i] {
      var p := SortedLine(params, sorted[i]);
      LineBreaks(p);
    }
    if p: Pair :| p in params && NEWLINE in p.name {
      LineBreaks(p);
      var k :| 0 <= k < |params| && params[k] == p;
      assert lines[k] in multiset(sorted);
    }
  }

  lemma {:induction false} LineBreaks(p: Pair)
    ensures NEWLINE in QueryLine(p) <==> NEWLINE in p.name
  {
    hide Normal, Safe;
    NormalSafe(p.value);
    SafeClean(Normal(p.value), NEWLINE);
  }

  // ---- where the query string ends ----

  lemma {:induction false} NormalIsClean(s: Str)
    requires IsNormal(s)
    ensures NEWLINE !in s
  {
    hide Normal, Safe, Decode;
    NormalSafe(Decode(s).value);
    SafeClean(s, NEWLINE);
  }

  /** A query string ends at the first line break behind its last `=`. */
  lemma {:induction false} CutAtQuery(q: Str, h: Str, q': Str, h': Str)
    requires ValidLine(q) && ValidLine(q') && EQUALS !in h && EQUALS !in h'
    requires q + [NEWLINE] + h == q' + [NEWLINE] + h'
    ensures q == q' && h == h'
  {
    hide IsNormal, BeforeLast, AfterLast;
    var k, v, k', v' := BeforeLast(q, EQUALS), AfterLast(q, EQUALS), BeforeLast(q', EQUALS), AfterLast(q', EQUALS);
    SplitAtLast(q, EQUALS);
    SplitAtLast(q', EQUALS);
    var tail, tail' := v + [NEWLINE] + h, v' + [NEWLINE] + h';
    assert k + [EQUALS] + tail == q + [NEWLINE] + h && k' + [EQUALS] + tail' == q' + [NEWLINE] + h';
    CutAtLast(k, tail, EQUALS);
    CutAtLast(k', tail', EQUALS);
    NormalIsClean(v);
    NormalIsClean(v');
    CutAtFirst(v, h, v', h', NEWLINE);
  }

  lemma {:induction false} NoGapsCut(h: Str, x: Str, rest: Str)
    requires NoGaps(h)
    ensures h != [NEWLINE] + rest && h != x + [NEWLINE] + ([NEWLINE] + rest)
  {
    var one, two := [NEWLINE] + rest, x + [NEWLINE] + ([NEWLINE] + rest);
    assert one[0] == NEWLINE;
    assert two[|x|] == NEWLINE && two[|x| + 1] == NEWLINE;
  }

  lemma {:induction false} BeforeFirst(s: Str) returns (a: Str, b: Str)
    requires NEWLINE in s
    ensures s == a + [NEWLINE] + b && NEWLINE !in a
  {
    if s[0] == NEWLINE {
      a, b := [], s[1..];
      assert s == [s[0]] + s[1..];
    } else {
      a, b := BeforeFirst(s[1..]);
      a := [s[0]] + a;
      assert s == [s[0]] + s[1..];
    }
  }

  /** After a line without breaks, an empty line can only come from the headers. */
  lemma {:induction false} NoEmptyLine(v: Str, h: Str, x: Str, rest: Str)
    requires NEWLINE !in v && NoGaps(h)
    ensures v + [NEWLINE] + h != x + [NEWLINE] + ([NEWLINE] + rest)
  {
    hide NoGaps;
    if v + [NEWLINE] + h == x + [NEWLINE] + ([NEWLINE] + rest) {
      if NEWLINE in x {
        var a, b := BeforeFirst(x);
        var more := b + [NEWLINE] + ([NEWLINE] + rest);
        assert x + [NEWLINE] + ([NEWLINE] + rest) == a + [NEWLINE] + more;
        CutAtFirst(v, h, a, more, NEWLINE);
        NoGapsCut(h, b, rest);
        assert false;
      } else {
        CutAtFirst(v, h, x, [NEWLINE] + rest, NEWLINE);
        NoGapsCut(h, x, rest);
        assert false;
      }
    }
  }

  lemma {:induction false} NotEmptyQuery(q: Str, h: Str, x: Str, h': Str)
    requires ValidLine(q) && EQUALS !in h && EQUALS !in h' && NoGaps(h)
    ensures q + [NEWLINE] + h != x + [NEWLINE] + ([NEWLINE] + h')
  {
    hide IsNormal, BeforeLast, AfterLast, NoGaps;
    if q + [NEWLINE] + h == x + [NEWLINE] + ([NEWLINE] + h') {
      assert EQUALS in q + [NEWLINE] + h;
      assert EQUALS in x;
      var k, v, k', v' := BeforeLast(q, EQUALS), AfterLast(q, EQUALS), BeforeLast(x, EQUALS), AfterLast(x, EQUALS);
      SplitAtLast(q, EQUALS);
      SplitAtLast(x, EQUALS);
      var tail, tail' := v + [NEWLINE] + h, v' + [NEWLINE] + ([NEWLINE] + h');
      assert q + [NEWLINE] + h == k + [EQUALS] + tail;
      assert x + [NEWLINE] + ([NEWLINE] + h') == k' + [EQUALS] + tail';
      CutAtLast(k, tail, EQUALS);
      CutAtLast(k', tail', EQUALS);
      NormalIsClean(v);
      NoEmptyLine(v, h, v', h');
      assert false;
    }
  }

  /** From the query string on, the text tells its two parts. */
  lemma {:induction false} QueryTold(q: Str, h: Str, q': Str, h': Str)
    requires IsQuery(q) && IsQuery(q') && EQUALS !in h && EQUALS !in h'
    requires q + [NEWLINE] + h == q' + [NEWLINE] + h'
    ensures q == q' && h == h'
  {
    hide IsNormal, AfterLast;
    assert EQUALS in q + [NEWLINE] + h <==> EQUALS in q;
    assert EQUALS in q' + [NEWLINE] + h' <==> EQUALS in q';
    if q != [] {
      CutAtQuery(q, h, q', h');
    } else {
      CutAtFirst(q, h, q', h', NEWLINE);
    }
  }

  /** With lines before it, the second query string is the rest of the first one behind them. */
  lemma {:induction false} LaterQuery(q: Str, h: Str, x: Str, q': Str, h': Str)
    requires IsQuery(q) && IsQuery(q') && EQUALS !in h && EQUALS !in h' && NoGaps(h)
    requires q + [NEWLINE] + h == x + [NEWLINE] + (q' + [NEWLINE] + h')
    ensures q' != [] && q == x + [NEWLINE] + q'
  {
    hide NoGaps, IsNormal, BeforeLast, AfterLast;
    if q' == [] {
      assert q' + [NEWLINE] + h' == [NEWLINE] + h';
      if q == [] {
        NoEmptyLine(q, h, x, h');
      } else {
        NotEmptyQuery(q, h, x, h');
      }
      assert false;
    } else {
      var longer := x + [NEWLINE] + q';
      ValidBehind(x + [NEWLINE], q');
      assert EQUALS in q + [NEWLINE] + h by {
        assert EQUALS in longer;
        assert q + [NEWLINE] + h == longer + [NEWLINE] + h';
      }
      assert q != [];
      CutAtQuery(q, h, longer, h');
    }
  }

  // ---- what the text tells ----

  /**
   * For requests whose verb and URI do not break the line, the text that is hashed is the same if and only if
   * the verb, the URI, the canonical query string and the multiset of signed headers are.
   */
  lemma {:induction false} SignedTextIff(r: Request, s: Request)
    requires r.Encodes() && s.Encodes() && r.OneLineEach() && s.OneLineEach()
    ensures r.Text() == s.Text() <==> Same(r, s)
  {
    var q, h, q', h' := QueryText(r.params), HeaderText(r.headers), QueryText(s.params), HeaderText(s.headers);
    HeadersInjective(r.headers, s.headers);
    hide QueryText, HeaderText, QuerySound, AllSound, IsQuery;
    if r.Text() == s.Text() {
      var tail, tail' := q + [NEWLINE] + h, q' + [NEWLINE] + h';
      CutAtFirst(r.verb, r.uri + [NEWLINE] + tail, s.verb, s.uri + [NEWLINE] + tail', NEWLINE);
      CutAtFirst(r.uri, tail, s.uri, tail', NEWLINE);
      QueryTextIsQuery(r.params);
      QueryTextIsQuery(s.params);
      HeaderTextPlain(r.headers);
      HeaderTextPlain(s.headers);
      QueryTold(q, h, q', h');
    }
  }

  // ---- which texts have a second reading ----

  /** Nothing of the request throws and its parameters are those of some object. */
  predicate Possible(t: Casing, r: Request) { r.Encodes() && Admissible(t, r.params) }

  ghost predicate IsOther(t: Casing, r: Request, s: Request)
    requires r.Encodes()
  {
    Possible(t, s) && s.Text() == r.Text() && !Same(r, s)
  }

  ghost predicate HasOther(t: Casing, r: Request)
    requires r.Encodes()
  {
    exists s :: IsOther(t, r, s)
  }

  /** Behind this line break the query string is that of a request as well. */
  predicate BreaksAt(t: Casing, query: Str, i: nat) {
    i < |query| && query[i] == NEWLINE && !Skipped(t, KeyOf(query[i + 1..]))
  }

  ghost predicate BreaksLine(t: Casing, r: Request)
    requires r.Encodes()
  {
    NEWLINE in r.verb || NEWLINE in r.uri || exists i: nat :: BreaksAt(t, QueryText(r.params), i)
  }

  lemma {:induction false} OtherOfVerb(t: Casing, r: Request, a: Str, b: Str)
    requires Possible(t, r) && r.verb == a + [NEWLINE] + b
    ensures IsOther(t, r, Request(a, b + [NEWLINE] + r.uri, r.params, r.headers))
  {
    var s := Request(a, b + [NEWLINE] + r.uri, r.params, r.headers);
    assert |s.verb| < |r.verb|;
    assert s.Text() == r.Text();
  }

  lemma {:induction false} OtherOfUri(t: Casing, r: Request, a: Str, b: Str)
    requires Possible(t, r) && r.uri == a + [NEWLINE] + b
    ensures IsOther(t, r, Request(r.verb + [NEWLINE] + a, b, r.params, r.headers))
  {
    var s := Request(r.verb + [NEWLINE] + a, b, r.params, r.headers);
    assert |s.uri| < |r.uri|;
    assert s.Text() == r.Text();
  }

  lemma {:induction false} BreakBefore(k: Str, v: Str, i: nat)
    requires NEWLINE !in v && i < |k| + 1 + |v| && (k + [EQUALS] + v)[i] == NEWLINE
    ensures i < |k|
  {
    var q := k + [EQUALS] + v;
    assert q[|k|] == EQUALS;
    assert forall j :: |k| < j < |q| ==> q[j] == v[j - |k| - 1];
  }

  /** Behind a line break there is still the `=` of the last parameter. */
  lemma {:induction false} BrokenLine(q: Str, i: nat)
    requires ValidLine(q) && i < |q| && q[i] == NEWLINE
    ensures ValidLine(q[i + 1..])
  {
    hide IsNormal, BeforeLast, AfterLast;
    var k, v := BeforeLast(q, EQUALS), AfterLast(q, EQUALS);
    SplitAtLast(q, EQUALS);
    NormalIsClean(v);
    BreakBefore(k, v, i);
    assert q[|k|] == EQUALS;
    assert q[i + 1..][|k| - i - 1] == EQUALS;
    assert q == q[..i + 1] + q[i + 1..];
    LastOfConcat(q[..i + 1], q[i + 1..], EQUALS);
  }

  lemma {:induction false} MovedBreak(verb: Str, uri: Str, x: Str, query: Str, h: Str)
    ensures RawSignature(verb, uri + [NEWLINE] + x, query, h) == RawSignature(verb, uri, x + [NEWLINE] + query, h)
  {
    assert uri + [NEWLINE] + x + [NEWLINE] + (query + [NEWLINE] + h) == uri + [NEWLINE] + (x + [NEWLINE] + query + [NEWLINE] + h);
  }

  lemma {:induction false} OtherByQuery(t: Casing, r: Request, x: Str, p: Pair)
    requires Possible(t, r) && QuerySound([p]) && Admissible(t, [p])
    requires QueryText(r.params) == x + [NEWLINE] + QueryText([p])
    ensures IsOther(t, r, Request(r.verb, r.uri + [NEWLINE] + x, [p], r.headers))
  {
    var s := Request(r.verb, r.uri + [NEWLINE] + x, [p], r.headers);
    hide QueryText, QuerySound, HeaderText, AllSound, Admissible;
    MovedBreak(r.verb, r.uri, x, QueryText([p]), HeaderText(r.headers));
    hide RawSignature;
    assert |s.uri| > |r.uri|;
    assert s.Text() == r.Text();
  }

  lemma {:induction false} QueryOfLine(t: Casing, line: Str) returns (p: Pair)
    requires KeyedLine(t, line)
    ensures QuerySound([p]) && Admissible(t, [p]) && QueryText([p]) == line
  {
    hide KeyedLine, CanonicalQuery, Admissible, QuerySound;
    p := RequestOfLine(t, line);
  }

  lemma {:induction false} AtBreak(s: Str, i: nat)
    requires i < |s| && s[i] == NEWLINE
    ensures s == s[..i] + [NEWLINE] + s[i + 1..]
  {}

  lemma {:induction false} OtherOfQuery(t: Casing, r: Request, i: nat)
    requires Possible(t, r) && BreaksAt(t, QueryText(r.params), i)
    ensures HasOther(t, r)
  {
    hide ValidLine, Skipped, KeyOf, AllSound, QuerySound, Admissible, IsOther, QueryText;
    var query := QueryText(r.params);
    QueryTextIsQuery(r.params);
    BrokenLine(query, i);
    var x, line := query[..i], query[i + 1..];
    AtBreak(query, i);
    var p := QueryOfLine(t, line);
    OtherByQuery(t, r, x, p);
  }

  function Breaks(s: Str): nat {
    if s == [] then 0 else Breaks(s[1..]) + if s[0] == NEWLINE then 1 else 0
  }

  lemma {:induction false} BreaksConcat(a: Str, b: Str)
    ensures Breaks(a + b) == Breaks(a) + Breaks(b)
  {
    if a == [] {
      assert a + b == b;
    } else {
      assert (a + b)[1..] == a[1..] + b;
      BreaksConcat(a[1..], b);
    }
  }

  lemma {:induction false} NoBreaks(s: Str)
    ensures Breaks(s) == 0 <==> NEWLINE !in s
  {
    if s != [] {
      NoBreaks(s[1..]);
      assert s == [s[0]] + s[1..];
    }
  }

  lemma {:induction false} BreaksBetween(a: Str, b: Str)
    ensures Breaks(a + [NEWLINE] + b) == Breaks(a) + Breaks(b) + 1
  {
    BreaksConcat(a + [NEWLINE], b);
    BreaksConcat(a, [NEWLINE]);
    assert [NEWLINE][1..] == [];
  }

  /** A longer first part goes on behind the separator of the other one. */
  lemma {:induction false} GoesOnBehind(a: Str, x: Str, b: Str, y: Str) returns (rest: Str)
    requires a + [NEWLINE] + x == b + [NEWLINE] + y && |a| < |b|
    ensures b == a + [NEWLINE] + rest && x == rest + [NEWLINE] + y
  {
    rest := b[|a| + 1..];
    var all := a + [NEWLINE] + x;
    assert all[..|a|] == a && all[|a|] == NEWLINE && all[|a| + 1..] == x;
    assert all == b + [NEWLINE] + y;
    assert b[..|a|] == a && b[|a|] == NEWLINE;
    assert b == b[..|a|] + [b[|a|]] + rest;
    assert all == a + [NEWLINE] + (rest + [NEWLINE] + y);
  }

  lemma {:induction false} SamePart(a: Str, x: Str, b: Str, y: Str)
    requires a + [NEWLINE] + x == b + [NEWLINE] + y && |a| == |b|
    ensures a == b
  {
    assert (a + [NEWLINE] + x)[..|a|] == a && (b + [NEWLINE] + y)[..|a|] == b;
  }

  /** With more line breaks before the last part, the first part of one text goes beyond that of the other. */
  lemma {:induction false} MoreBreaksLonger(a: Str, x: Str, b: Str, y: Str) returns (rest: Str)
    requires a + [NEWLINE] + x == b + [NEWLINE] + y && Breaks(a) < Breaks(b)
    ensures x == rest + [NEWLINE] + y
  {
    if |a| < |b| {
      rest := GoesOnBehind(a, x, b, y);
    } else if |b| < |a| {
      rest := GoesOnBehind(b, y, a, x);
      BreaksBetween(b, rest);
      assert false;
    } else {
      SamePart(a, x, b, y);
      assert false;
    }
  }

  lemma {:induction false} OtherBreaksLine(t: Casing, r: Request, s: Request)
    requires KeepsAmpersands(t) && Possible(t, r) && IsOther(t, r, s)
    ensures BreaksLine(t, r)
  {
    var q, h, q', h' := QueryText(r.params), HeaderText(r.headers), QueryText(s.params), HeaderText(s.headers);
    hide QueryText, HeaderText, QuerySound, AllSound, ValidLine, Breaks, KeepsAmpersands, NoGaps, Distinct, NoneSkipped, Skipped, KeyOf;
    QueryTextIsQuery(r.params);
    QueryTextIsQuery(s.params);
    QueryTextKeyed(t, s.params);
    HeaderTextPlain(r.headers);
    HeaderTextPlain(s.headers);
    if r.OneLineEach() {
      if s.OneLineEach() {
        SignedTextIff(r, s);
        assert false;
      } else {
        var x := SecondCut(r, s);
        LaterQuery(q, h, x, q', h');
        assert q[|x|] == NEWLINE && q[|x| + 1..] == q';
        assert BreaksAt(t, q, |x|);
      }
    }
  }

  lemma {:induction false} SecondCut(r: Request, s: Request) returns (x: Str)
    requires r.Encodes() && s.Encodes() && r.OneLineEach() && !s.OneLineEach() && r.Text() == s.Text()
    ensures QueryText(r.params) + [NEWLINE] + HeaderText(r.headers)
      == x + [NEWLINE] + (QueryText(s.params) + [NEWLINE] + HeaderText(s.headers))
  {
    hide QueryText, HeaderText, Breaks;
    var tail := QueryText(r.params) + [NEWLINE] + HeaderText(r.headers);
    var tail' := QueryText(s.params) + [NEWLINE] + HeaderText(s.headers);
    var first, first' := r.verb + [NEWLINE] + r.uri, s.verb + [NEWLINE] + s.uri;
    assert r.Text() == first + [NEWLINE] + tail && s.Text() == first' + [NEWLINE] + tail';
    BreaksBetween(r.verb, r.uri);
    BreaksBetween(s.verb, s.uri);
    NoBreaks(r.verb);
    NoBreaks(r.uri);
    NoBreaks(s.verb);
    NoBreaks(s.uri);
    x := MoreBreaksLonger(first, tail, first', tail');
  }

  /**
   * A different request with the same text exists if and only if the verb or the URI breaks the line, or the
   * query string does and goes on with a key that is not skipped. Headers never take part.
   */
  lemma {:induction false} OtherRequestIff(t: Casing, r: Request)
    requires KeepsAmpersands(t) && Possible(t, r)
    ensures HasOther(t, r) <==> BreaksLine(t, r)
  {
    hide KeepsAmpersands, Admissible, QuerySound, AllSound, Same, BreaksAt;
    if s :| IsOther(t, r, s) {
      OtherBreaksLine(t, r, s);
    }
    if NEWLINE in r.verb {
      var a, b := BeforeFirst(r.verb);
      OtherOfVerb(t, r, a, b);
    } else if NEWLINE in r.uri {
      var a, b := BeforeFirst(r.uri);
      OtherOfUri(t, r, a, b);
    } else if i: nat :| BreaksAt(t, QueryText(r.params), i) {
      OtherOfQuery(t, r, i);
    }
  }

  /** Without line breaks in the verb, the URI and the keys there is none. */
  lemma {:induction false} NoOtherRequest(t: Casing, r: Request)
    requires KeepsAmpersands(t) && Possible(t, r) && r.OneLineEach()
    requires forall p: Pair :: p in r.params ==> NEWLINE !in p.name
    ensures !HasOther(t, r)
  {
    hide KeepsAmpersands;
    OtherRequestIff(t, r);
    QueryBreaks(r.params);
  }
}
