/** Which requests share their canonical query string with a different one. */
module QueryTwins {
  import opened Options
  import opened Percent
  import opened Lines
  import opened CanonicalRequest

  // ---- the lists of parameters that a request can have ----

  /** Keys of an object occur once. */
  predicate Distinct(pairs: seq<Pair>) {
    forall i, j :: 0 <= i < j < |pairs| ==> pairs[i].name != pairs[j].name
  }

  predicate NoneSkipped(t: Casing, pairs: seq<Pair>) { forall p: Pair :: p in pairs ==> !Skipped(t, p.name) }

  predicate Admissible(t: Casing, pairs: seq<Pair>) { Distinct(pairs) && NoneSkipped(t, pairs) }

  predicate DistinctKeys(params: seq<Param>) {
    forall i, j :: 0 <= i < j < |params| ==> params[i].key != params[j].key
  }

  /** An object of parameters gives these pairs. */
  ghost predicate OfRequest(t: Casing, pairs: seq<Pair>) {
    exists params :: DistinctKeys(params) && QueryPairs(t, params) == pairs
  }

  function AsParam(p: Pair): Param { Param(p.name, Some(p.value)) }

  lemma {:induction false} ParamsGivePairs(t: Casing, pairs: seq<Pair>)
    requires NoneSkipped(t, pairs)
    ensures QueryPairs(t, Map(AsParam, pairs)) == pairs
  {
    hide Skipped;
    if pairs != [] {
      var n := |pairs| - 1;
      var params := Map(AsParam, pairs);
      ParamsGivePairs(t, pairs[..n]);
      assert params[..n] == Map(AsParam, pairs[..n]);
      assert pairs[n] in pairs && pairs == pairs[..n] + [pairs[n]];
    } else {
      assert Map(AsParam, pairs) == [];
    }
  }

  lemma {:induction false} PairsFromParams(t: Casing, params: seq<Param>)
    requires DistinctKeys(params)
    ensures Admissible(t, QueryPairs(t, params))
    ensures forall p: Pair :: p in QueryPairs(t, params) ==> exists i :: 0 <= i < |params| && params[i].key == p.name
  {
    hide Skipped;
    if params != [] {
      var n := |params| - 1;
      PairsFromParams(t, params[..n]);
      forall p: Pair | p in QueryPairs(t, params[..n]) ensures p.name != params[n].key {
        var i :| 0 <= i < n && params[..n][i].key == p.name;
      }
    }
  }

  /** The pairs a request can have are those with different keys, none of them skipped. */
  lemma {:induction false} AdmissibleIff(t: Casing, pairs: seq<Pair>)
    ensures OfRequest(t, pairs) <==> Admissible(t, pairs)
  {
    hide Skipped;
    if Admissible(t, pairs) {
      var params := Map(AsParam, pairs);
      ParamsGivePairs(t, pairs);
      assert DistinctKeys(params);
    }
    if params :| DistinctKeys(params) && QueryPairs(t, params) == pairs {
      PairsFromParams(t, params);
    }
  }

  lemma {:induction false} OccursTwice<A>(xs: seq<A>, i: nat, j: nat)
    requires i < j < |xs| && xs[i] == xs[j]
    ensures multiset(xs)[xs[i]] >= 2
  {
    WithoutBag(xs, j);
    assert Without(xs, j)[i] == xs[i] && xs[i] in multiset(Without(xs, j));
  }

  lemma {:induction false} TwoPlaces<A>(xs: seq<A>, x: A) returns (i: nat, j: nat)
    requires multiset(xs)[x] >= 2
    ensures i < j < |xs| && xs[i] == xs[j] == x
  {
    assert x in multiset(xs);
    var k: nat :| k < |xs| && xs[k] == x;
    WithoutBag(xs, k);
    assert x in multiset(Without(xs, k));
    var m: nat :| m < |xs| - 1 && Without(xs, k)[m] == x;
    if m < k { i, j := m, k; } else { i, j := k, m + 1; }
  }

  lemma {:induction false} DistinctBag(a: seq<Pair>, b: seq<Pair>)
    requires multiset(a) == multiset(b) && Distinct(a)
    ensures Distinct(b)
  {
    forall i, j | 0 <= i < j < |b| ensures b[i].name != b[j].name {
      if b[i] == b[j] {
        OccursTwice(b, i, j);
        var k, m := TwoPlaces(a, b[i]);
        assert false;
      }
      assert b[i] in multiset(a) && b[j] in multiset(a);
    }
  }

  // ---- lines of parameters ----

  /** What `normalize` can give. */
  predicate IsNormal(s: Str) {
    Decode(s).Some? && WellFormed(Decode(s).value) && Normal(Decode(s).value) == s
  }

  /** The line of some parameter: there is a `=`, and what follows the last one is an encoded value. */
  predicate ValidLine(line: Str) { EQUALS in line && IsNormal(AfterLast(line, EQUALS)) }

  function KeyOf(line: Str): Str { BeforeLast(line, EQUALS) }

  predicate AllValid(lines: seq<Str>) { forall i :: 0 <= i < |lines| ==> ValidLine(lines[i]) }

  /** The line of a parameter that is not skipped. */
  predicate KeyedLine(t: Casing, line: Str) { ValidLine(line) && !Skipped(t, KeyOf(line)) }

  predicate AllKeyed(t: Casing, lines: seq<Str>) { forall i :: 0 <= i < |lines| ==> KeyedLine(t, lines[i]) }

  /** Lower-casing does not take an ampersand away. */
  ghost predicate KeepsAmpersands(t: Casing) { forall key: Str :: AMPERSAND in key ==> !Skipped(t, key) }

  lemma {:induction false} SplitAtLast(line: Str, separator: Unit)
    requires separator in line
    ensures BeforeLast(line, separator) + [separator] + AfterLast(line, separator) == line
    ensures separator !in AfterLast(line, separator)
  {
    var front, last := line[..|line| - 1], line[|line| - 1];
    assert line == front + [last];
    if last != separator {
      SplitAtLast(front, separator);
    }
  }

  /** The cut at the last separator does not depend on what stands before it. */
  lemma {:induction false} LastOfConcat(x: Str, y: Str, separator: Unit)
    requires separator in y
    ensures AfterLast(x + y, separator) == AfterLast(y, separator)
    ensures BeforeLast(x + y, separator) == x + BeforeLast(y, separator)
  {
    hide BeforeLast, AfterLast;
    var a, b := BeforeLast(y, separator), AfterLast(y, separator);
    SplitAtLast(y, separator);
    assert x + y == (x + a) + [separator] + b;
    CutAtLast(x + a, b, separator);
  }

  lemma {:induction false} LineReads(p: Pair)
    requires WellFormed(p.value)
    ensures ValidLine(QueryLine(p)) && KeyOf(QueryLine(p)) == p.name
  {
    hide Normal, Decode, Safe, BeforeLast, AfterLast;
    NormalSafe(p.value);
    SafeClean(Normal(p.value), EQUALS);
    CutAtLast(p.name, Normal(p.value), EQUALS);
    DecodeNormal(p.value);
    assert EQUALS in [EQUALS];
  }

  lemma {:induction false} ValidIsLine(line: Str)
    requires ValidLine(line)
    ensures QueryLine(ReadQueryLine(line)) == line && WellFormed(ReadQueryLine(line).value)
    ensures ReadQueryLine(line).name == KeyOf(line)
  {
    hide Normal, Decode, BeforeLast, AfterLast;
    SplitAtLast(line, EQUALS);
  }

  lemma {:induction false} ValidBehind(x: Str, line: Str)
    requires ValidLine(line)
    ensures ValidLine(x + line) && x + line != [] && KeyOf(x + line) == x + KeyOf(line)
  {
    hide IsNormal, BeforeLast, AfterLast;
    LastOfConcat(x, line, EQUALS);
  }

  /** Lines put together read as one line. */
  lemma {:induction false} JoinedValid(lines: seq<Str>)
    requires AllValid(lines) && lines != []
    ensures ValidLine(Joined(lines, AMPERSAND)) && Joined(lines, AMPERSAND) != []
    ensures |lines| > 1 ==> AMPERSAND in KeyOf(Joined(lines, AMPERSAND))
  {
    hide ValidLine, KeyOf;
    if |lines| == 1 {
      ValidBehind([], lines[0]);
      assert [] + lines[0] == lines[0];
    } else {
      JoinedValid(lines[1..]);
      var tail := Joined(lines[1..], AMPERSAND);
      ValidBehind(lines[0] + [AMPERSAND], tail);
      AmpersandInside(lines[0], KeyOf(tail));
    }
  }

  lemma {:induction false} JoinedKeyed(t: Casing, lines: seq<Str>)
    requires KeepsAmpersands(t) && AllKeyed(t, lines) && lines != []
    ensures KeyedLine(t, Joined(lines, AMPERSAND)) && Joined(lines, AMPERSAND) != []
  {
    hide ValidLine, Skipped, KeyOf;
    JoinedValid(lines);
  }

  lemma {:induction false} AmpersandInside(a: Str, b: Str)
    ensures AMPERSAND in a + [AMPERSAND] + b
  {
    assert (a + [AMPERSAND] + b)[|a|] == AMPERSAND;
  }

  lemma {:induction false} SortedLine(pairs: seq<Pair>, line: Str) returns (p: Pair)
    requires line in Sort(Map(QueryLine, pairs))
    ensures p in pairs && line == QueryLine(p)
  {
    hide QueryLine;
    var lines := Map(QueryLine, pairs);
    SortCorrect(lines);
    assert line in multiset(Sort(lines));
    assert line in multiset(lines);
    var k :| 0 <= k < |lines| && lines[k] == line;
    p := pairs[k];
  }

  lemma {:induction false} QueryLinesValid(pairs: seq<Pair>)
    requires QuerySound(pairs)
    ensures AllValid(Sort(Map(QueryLine, pairs))) && |Sort(Map(QueryLine, pairs))| == |pairs|
  {
    hide ValidLine, QueryLine, WellFormed, KeyOf;
    var lines := Map(QueryLine, pairs);
    SortCorrect(lines);
    SameSize(Sort(lines), lines);
    forall i | 0 <= i < |pairs| ensures ValidLine(Sort(lines)[i]) {
      var p := SortedLine(pairs, Sort(lines)[i]);
      LineReads(p);
    }
  }

  lemma {:induction false} QueryLinesKeyed(t: Casing, pairs: seq<Pair>)
    requires QuerySound(pairs) && NoneSkipped(t, pairs)
    ensures AllKeyed(t, Sort(Map(QueryLine, pairs))) && |Sort(Map(QueryLine, pairs))| == |pairs|
  {
    hide ValidLine, QueryLine, WellFormed, KeyOf, Skipped;
    QueryLinesValid(pairs);
    var lines := Sort(Map(QueryLine, pairs));
    forall i | 0 <= i < |lines| ensures KeyedLine(t, lines[i]) {
      var p := SortedLine(pairs, lines[i]);
      LineReads(p);
    }
  }

  predicate DifferentKeys(lines: seq<Str>) {
    forall i, j :: 0 <= i < j < |lines| ==> KeyOf(lines[i]) != KeyOf(lines[j])
  }

  lemma {:induction false} NamesAreKeys(lines: seq<Str>)
    requires Distinct(Map(ReadQueryLine, lines))
    ensures DifferentKeys(lines)
  {
    hide Decoded, AfterLast, BeforeLast;
    var read := Map(ReadQueryLine, lines);
    forall i, j | 0 <= i < j < |lines| ensures KeyOf(lines[i]) != KeyOf(lines[j]) {
      assert read[i] == ReadQueryLine(lines[i]) && read[j] == ReadQueryLine(lines[j]);
    }
  }

  lemma {:induction false} SortedKeysDiffer(pairs: seq<Pair>)
    requires QuerySound(pairs) && Distinct(pairs)
    ensures DifferentKeys(Sort(Map(QueryLine, pairs)))
  {
    hide QueryLine, QuerySound, ReadQueryLine, Distinct, DifferentKeys, Sort, Ordered, Map;
    var lines := Map(QueryLine, pairs);
    QueryLinesRead(pairs);
    SortCorrect(lines);
    SameBag(ReadQueryLine, Sort(lines), lines);
    DistinctBag(pairs, Map(ReadQueryLine, Sort(lines)));
    NamesAreKeys(Sort(lines));
  }

  // ---- ambiguous query strings ----

  /** A different request with the same canonical query string. */
  ghost predicate IsTwin(t: Casing, pairs: seq<Pair>, other: seq<Pair>) {
    && QuerySound(other) && Admissible(t, other)
    && multiset(other) != multiset(pairs) && CanonicalQuery(other) == CanonicalQuery(pairs)
  }

  ghost predicate HasTwin(t: Casing, pairs: seq<Pair>) { exists other :: IsTwin(t, pairs, other) }

  /** At this ampersand the line can be taken for two lines in order, with different keys. */
  predicate SplitsAt(t: Casing, line: Str, i: nat) {
    && i < |line| && line[i] == AMPERSAND
    && KeyedLine(t, line[..i]) && KeyedLine(t, line[i + 1..])
    && Leq(line[..i], line[i + 1..]) && KeyOf(line[..i]) != KeyOf(line[i + 1..])
  }

  /** Two parameters or more, or a single one whose line can be taken for two. */
  ghost predicate Ambiguous(t: Casing, pairs: seq<Pair>) {
    |pairs| >= 2 || (|pairs| == 1 && exists i: nat :: SplitsAt(t, QueryLine(pairs[0]), i))
  }

  lemma {:induction false} SingleQuery(p: Pair)
    requires WellFormed(p.value)
    ensures QuerySound([p]) && CanonicalQuery([p]) == Ok(QueryLine(p)) && Map(QueryLine, [p]) == [QueryLine(p)]
  {
    hide QueryLine, WellFormed;
    OneLine(QueryLine(p));
    assert Map(QueryLine, [p]) == [QueryLine(p)];
  }

  lemma {:induction false} SingleAdmissible(t: Casing, p: Pair)
    requires !Skipped(t, p.name)
    ensures Admissible(t, [p])
  {}

  /** A line of a parameter is the canonical query string of a request that has this parameter alone. */
  lemma {:induction false} RequestOfLine(t: Casing, line: Str) returns (p: Pair)
    requires KeyedLine(t, line)
    ensures QuerySound([p]) && Admissible(t, [p]) && CanonicalQuery([p]) == Ok(line)
  {
    hide QueryLine, ValidLine, ReadQueryLine, WellFormed, CanonicalQuery, Skipped, Admissible;
    p := ReadQueryLine(line);
    ValidIsLine(line);
    SingleQuery(p);
    SingleAdmissible(t, p);
  }

  /** Any number of parameters can be passed off as one whose key holds all lines but the last value. */
  lemma {:induction false} OneKeyForAll(t: Casing, pairs: seq<Pair>) returns (p: Pair)
    requires KeepsAmpersands(t) && QuerySound(pairs) && NoneSkipped(t, pairs) && pairs != []
    ensures QuerySound([p]) && Admissible(t, [p]) && CanonicalQuery([p]) == CanonicalQuery(pairs)
  {
    hide QueryLine, KeyedLine, WellFormed, Admissible, NoneSkipped, KeepsAmpersands;
    var lines := Sort(Map(QueryLine, pairs));
    QueryLinesKeyed(t, pairs);
    JoinedKeyed(t, lines);
    p := RequestOfLine(t, Joined(lines, AMPERSAND));
  }

  lemma {:induction false} TwoForOne(t: Casing, p: Pair, i: nat)
    requires WellFormed(p.value) && SplitsAt(t, QueryLine(p), i)
    ensures HasTwin(t, [p])
  {
    hide QueryLine, ValidLine, ReadQueryLine, WellFormed, Skipped, KeyOf;
    var line := QueryLine(p);
    var x, y := line[..i], line[i + 1..];
    assert line == x + [AMPERSAND] + y;
    ValidIsLine(x);
    ValidIsLine(y);
    var other := [ReadQueryLine(x), ReadQueryLine(y)];
    assert Map(QueryLine, other) == [x, y];
    TwoLines(x, y);
    SingleQuery(p);
    assert |multiset(other)| == 2 && |multiset([p])| == 1;
    assert IsTwin(t, [p], other);
  }

  lemma {:induction false} FirstBelowRest(lines: seq<Str>)
    requires Ordered(lines) && |lines| > 1
    ensures Leq(lines[0], Joined(lines[1..], AMPERSAND))
  {
    var rest := lines[1..];
    if |rest| > 1 {
      LeqPrefix(rest[0], [AMPERSAND] + Joined(rest[1..], AMPERSAND));
      assert rest[0] + [AMPERSAND] + Joined(rest[1..], AMPERSAND) == rest[0] + ([AMPERSAND] + Joined(rest[1..], AMPERSAND));
      LeqTransitive(lines[0], rest[0], Joined(rest, AMPERSAND));
    }
  }

  /** A line that begins with a later one and an ampersand would have to come after it. */
  lemma {:induction false} NotBeforeItsStart(line: Str, first: Str, tail: Str)
    requires Leq(line, first)
    ensures line != first + [AMPERSAND] + tail
  {
    if line == first + [AMPERSAND] + tail {
      assert line == first + ([AMPERSAND] + tail);
      LeqPrefix(first, [AMPERSAND] + tail);
      LeqTotal(line, first);
      assert false;
    }
  }

  /** In order, the first key is never that of all other lines taken for one. */
  lemma {:induction false} FirstKeyDiffers(t: Casing, lines: seq<Str>)
    requires KeepsAmpersands(t) && AllKeyed(t, lines) && Ordered(lines) && |lines| > 1 && DifferentKeys(lines)
    ensures KeyOf(lines[0]) != KeyOf(Joined(lines[1..], AMPERSAND))
  {
    var first, second := lines[0], lines[1];
    assert Leq(first, second) && KeyOf(first) != KeyOf(second) && KeyedLine(t, first);
    if |lines| > 2 {
      var tail := lines[2..];
      assert lines[1..][0] == second && lines[1..][1..] == tail && AllKeyed(t, tail);
      hide AllKeyed, Ordered, DifferentKeys, Leq, KeepsAmpersands, IsNormal;
      JoinedKeyed(t, tail);
      hide Joined, BeforeLast, AfterLast;
      FirstKeyIsLonger(first, second, Joined(tail, AMPERSAND));
      assert Joined(lines[1..], AMPERSAND) == second + [AMPERSAND] + Joined(tail, AMPERSAND) by {
        JoinedCons(second, tail);
        assert lines[1..] == [second] + tail;
      }
    } else {
      assert lines[1..] == [second];
    }
  }

  lemma {:induction false} JoinedCons(line: Str, lines: seq<Str>)
    requires lines != []
    ensures Joined([line] + lines, AMPERSAND) == line + [AMPERSAND] + Joined(lines, AMPERSAND)
  {
    assert ([line] + lines)[1..] == lines;
  }

  lemma {:induction false} FirstKeyIsLonger(first: Str, second: Str, tail: Str)
    requires EQUALS in first && ValidLine(tail) && Leq(first, second)
    ensures KeyOf(first) != KeyOf(second + [AMPERSAND] + tail)
  {
    hide BeforeLast, AfterLast, IsNormal, Leq;
    ValidBehind(second + [AMPERSAND], tail);
    SplitAtLast(first, EQUALS);
    if KeyOf(first) == KeyOf(second + [AMPERSAND] + tail) {
      var more := KeyOf(tail) + [EQUALS] + AfterLast(first, EQUALS);
      assert first == second + [AMPERSAND] + more;
      NotBeforeItsStart(first, second, more);
      assert false;
    }
  }

  lemma {:induction false} TwinSplits(t: Casing, line: Str, lines: seq<Str>)
    requires KeepsAmpersands(t) && AllKeyed(t, lines) && Ordered(lines) && |lines| > 1 && DifferentKeys(lines)
    requires line == Joined(lines, AMPERSAND)
    ensures SplitsAt(t, line, |lines[0]|)
  {
    hide KeyedLine, Leq, Ordered, DifferentKeys, KeyOf, KeepsAmpersands;
    var x, y := lines[0], Joined(lines[1..], AMPERSAND);
    FirstBelowRest(lines);
    FirstKeyDiffers(t, lines);
    JoinedKeyed(t, lines[1..]);
    assert line == x + [AMPERSAND] + y && line[..|x|] == x && line[|x| + 1..] == y;
  }

  lemma {:induction false} TwinOfOne(t: Casing, p: Pair, other: seq<Pair>)
    requires KeepsAmpersands(t) && WellFormed(p.value) && IsTwin(t, [p], other)
    ensures exists i: nat :: SplitsAt(t, QueryLine(p), i)
  {
    hide QueryLine, KeyedLine, ReadQueryLine, WellFormed, SplitsAt, Distinct, NoneSkipped, KeepsAmpersands;
    var line, lines := QueryLine(p), Sort(Map(QueryLine, other));
    SingleQuery(p);
    QueryLinesKeyed(t, other);
    QueryLineReads(p);
    if |lines| > 1 {
      SortCorrect(Map(QueryLine, other));
      SortedKeysDiffer(other);
      hide DifferentKeys, AllKeyed, Ordered;
      TwinSplits(t, line, lines);
    } else if other != [] {
      assert other == [other[0]];
      SingleQuery(other[0]);
      QueryLineReads(other[0]);
    }
  }

  lemma {:induction false} NothingHasNoTwin(t: Casing, other: seq<Pair>)
    requires KeepsAmpersands(t)
    requires QuerySound(other) && NoneSkipped(t, other) && CanonicalQuery(other) == CanonicalQuery([])
    ensures other == []
  {
    hide QueryLine, KeyedLine, WellFormed, NoneSkipped, KeepsAmpersands;
    assert Map(QueryLine, []) == [] && Sort([]) == [];
    if other != [] {
      QueryLinesKeyed(t, other);
      JoinedKeyed(t, Sort(Map(QueryLine, other)));
    }
  }

  /**
   * A different request with the same canonical query string exists if and only if there are two
   * parameters or more, or the line of the single one can be taken for two lines in order with different keys.
   */
  lemma {:induction false} TwinIff(t: Casing, pairs: seq<Pair>)
    requires KeepsAmpersands(t) && QuerySound(pairs) && Admissible(t, pairs)
    ensures HasTwin(t, pairs) <==> Ambiguous(t, pairs)
  {
    hide QueryLine, CanonicalQuery, SplitsAt, WellFormed, Distinct, NoneSkipped, KeepsAmpersands;
    if |pairs| >= 2 {
      var p := OneKeyForAll(t, pairs);
      assert |multiset([p])| == 1 && |multiset(pairs)| == |pairs|;
      assert IsTwin(t, pairs, [p]);
    } else if |pairs| == 1 {
      assert pairs == [pairs[0]];
      if i: nat :| SplitsAt(t, QueryLine(pairs[0]), i) { TwoForOne(t, pairs[0], i); }
      if other :| IsTwin(t, pairs, other) { TwinOfOne(t, pairs[0], other); }
    } else {
      if other :| IsTwin(t, pairs, other) { NothingHasNoTwin(t, other); }
    }
  }

  /** Without ampersands in the keys: exactly when there are two parameters or more, and only by keys with some. */
  lemma {:induction false} PlainTwinIff(t: Casing, pairs: seq<Pair>)
    requires KeepsAmpersands(t) && QuerySound(pairs) && Admissible(t, pairs) && PlainKeys(pairs)
    ensures HasTwin(t, pairs) <==> |pairs| >= 2
    ensures forall other :: IsTwin(t, pairs, other) ==> !PlainKeys(other)
  {
    hide KeepsAmpersands, Admissible, QueryLine, CanonicalQuery;
    TwinIff(t, pairs);
    forall other | IsTwin(t, pairs, other) ensures !PlainKeys(other) {
      if PlainKeys(other) { QueryInjective(other, pairs); }
    }
    if |pairs| == 1 {
      assert pairs[0] in pairs;
      QueryLineReads(pairs[0]);
    }
  }
}
