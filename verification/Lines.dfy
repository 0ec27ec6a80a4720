/** JavaScript's sort and join on arrays of strings. */
module Lines {
  import opened Percent

  // ---- bags ----

  function Map<A, B>(f: A -> B, xs: seq<A>): seq<B> {
    seq(|xs|, i requires 0 <= i < |xs| => f(xs[i]))
  }

  function Without<A>(xs: seq<A>, k: nat): seq<A>
    requires k < |xs|
  {
    xs[..k] + xs[k + 1..]
  }

  lemma {:induction false} WithoutBag<A>(xs: seq<A>, k: nat)
    requires k < |xs|
    ensures multiset(xs) == multiset(Without(xs, k)) + multiset{xs[k]}
  {
    assert xs == xs[..k] + [xs[k]] + xs[k + 1..];
  }

  lemma {:induction false} WithoutMap<A, B>(f: A -> B, xs: seq<A>, k: nat)
    requires k < |xs|
    ensures multiset(Map(f, xs)) == multiset(Map(f, Without(xs, k))) + multiset{f(xs[k])}
  {
    WithoutBag(Map(f, xs), k);
    assert Without(Map(f, xs), k) == Map(f, Without(xs, k));
  }

  /** Mapping does not look at the order. */
  lemma {:induction false} SameBag<A, B>(f: A -> B, a: seq<A>, b: seq<A>)
    requires multiset(a) == multiset(b)
    ensures multiset(Map(f, a)) == multiset(Map(f, b))
    decreases |a|, 1
  {
    SameSize(a, b);
    if a != [] {
      hide Map, Without;
      assert a[0] in multiset(b);
      var k :| 0 <= k < |b| && b[k] == a[0];
      SameBagOfRests(f, a, b, k);
      WithoutMap(f, a, 0);
      WithoutMap(f, b, k);
    }
  }

  lemma {:induction false} SameBagOfRests<A, B>(f: A -> B, a: seq<A>, b: seq<A>, k: nat)
    requires a != [] && k < |b| && a[0] == b[k] && multiset(a) == multiset(b)
    ensures multiset(Map(f, Without(a, 0))) == multiset(Map(f, Without(b, k)))
    decreases |a|, 0
  {
    hide Map;
    WithoutBag(a, 0);
    WithoutBag(b, k);
    assert multiset(Without(a, 0)) == multiset(a) - multiset{a[0]};
    assert multiset(Without(b, k)) == multiset(b) - multiset{b[k]};
    SameBag(f, Without(a, 0), Without(b, k));
  }

  lemma {:induction false} ConsBag<A>(x: A, xs: seq<A>)
    ensures multiset([x] + xs) == multiset{x} + multiset(xs)
  {}

  lemma {:induction false} SameSize<A>(a: seq<A>, b: seq<A>)
    requires multiset(a) == multiset(b)
    ensures |a| == |b|
  {
    assert |a| == |multiset(a)| && |b| == |multiset(b)|;
  }

  // ---- sort ----

  /** By UTF-16 code units. */
  predicate Leq(a: Str, b: Str) {
    a == [] || (b != [] && (a[0] < b[0] || (a[0] == b[0] && Leq(a[1..], b[1..]))))
  }

  lemma {:induction false} LeqTotal(a: Str, b: Str)
    ensures Leq(a, b) || Leq(b, a)
    ensures Leq(a, b) && Leq(b, a) ==> a == b
  {
    if a != [] && b != [] {
      LeqTotal(a[1..], b[1..]);
      assert a == [a[0]] + a[1..] && b == [b[0]] + b[1..];
    }
  }

  lemma {:induction false} LeqTransitive(a: Str, b: Str, c: Str)
    requires Leq(a, b) && Leq(b, c)
    ensures Leq(a, c)
  {
    if a != [] && a[0] == b[0] == c[0] {
      LeqTransitive(a[1..], b[1..], c[1..]);
    }
  }

  lemma {:induction false} LeqPrefix(a: Str, b: Str)
    ensures Leq(a, a + b)
  {
    if a != [] {
      LeqPrefix(a[1..], b);
      assert (a + b)[1..] == a[1..] + b;
    }
  }

  predicate Ordered(lines: seq<Str>) {
    forall i, j :: 0 <= i < j < |lines| ==> Leq(lines[i], lines[j])
  }

  function Insert(line: Str, lines: seq<Str>): seq<Str> {
    if lines == [] then [line]
    else if Leq(line, lines[0]) then [line] + lines
    else [lines[0]] + Insert(line, lines[1..])
  }

  function Sort(lines: seq<Str>): seq<Str> {
    if lines == [] then [] else Insert(lines[0], Sort(lines[1..]))
  }

  lemma {:induction false} InsertSteps(line: Str, lines: seq<Str>)
    requires lines != []
    ensures Insert(line, lines) == [line] + lines || Insert(line, lines) == [lines[0]] + Insert(line, lines[1..])
  {}

  lemma {:induction false} SwapBag<A>(x: A, y: A, xs: seq<A>, inserted: seq<A>)
    requires multiset(inserted) == multiset{x} + multiset(xs)
    ensures multiset([y] + inserted) == multiset{x} + multiset([y] + xs)
  {
    ConsBag(y, inserted);
    ConsBag(y, xs);
  }

  lemma {:induction false} InsertBag(line: Str, lines: seq<Str>)
    ensures multiset(Insert(line, lines)) == multiset{line} + multiset(lines)
  {
    if lines == [] {
      assert Insert(line, lines) == [line];
    } else {
      InsertSteps(line, lines);
      hide Insert, Leq;
      if Insert(line, lines) == [line] + lines {
        ConsBag(line, lines);
      } else {
        var rest := lines[1..];
        InsertBag(line, rest);
        SwapBag(line, lines[0], rest, Insert(line, rest));
        assert lines == [lines[0]] + rest;
      }
    }
  }

  predicate AllAbove(low: Str, lines: seq<Str>) { forall l: Str :: l in lines ==> Leq(low, l) }

  lemma {:induction false} OrderedCons(first: Str, rest: seq<Str>)
    requires Ordered(rest) && AllAbove(first, rest)
    ensures Ordered([first] + rest)
  {
    var all := [first] + rest;
    forall i, j | 0 <= i < j < |all| ensures Leq(all[i], all[j]) {
      assert all[j] == rest[j - 1] && (i > 0 ==> all[i] == rest[i - 1]);
    }
  }

  lemma {:induction false} OrderedRest(lines: seq<Str>)
    requires Ordered(lines) && lines != []
    ensures Ordered(lines[1..]) && AllAbove(lines[0], lines[1..])
  {}

  lemma {:induction false} InsertOrdered(line: Str, lines: seq<Str>)
    requires Ordered(lines)
    ensures Ordered(Insert(line, lines))
  {
    if lines == [] {
    } else {
      OrderedRest(lines);
      hide Ordered, Leq;
      var first, rest := lines[0], lines[1..];
      LeqTotal(line, first);
      if Leq(line, first) {
        forall l: Str | l in lines ensures Leq(line, l) {
          if l != first { LeqTransitive(line, first, l); }
        }
        OrderedCons(line, lines);
      } else {
        InsertOrdered(line, rest);
        InsertBag(line, rest);
        forall l: Str | l in Insert(line, rest) ensures Leq(first, l) {
          assert l in multiset(Insert(line, rest));
        }
        OrderedCons(first, Insert(line, rest));
      }
    }
  }

  lemma {:induction false} SortCorrect(lines: seq<Str>)
    ensures Ordered(Sort(lines)) && multiset(Sort(lines)) == multiset(lines)
  {
    hide Insert, Leq;
    if lines != [] {
      SortCorrect(lines[1..]);
      InsertBag(lines[0], Sort(lines[1..]));
      InsertOrdered(lines[0], Sort(lines[1..]));
      ConsBag(lines[0], lines[1..]);
      assert lines == [lines[0]] + lines[1..];
    }
  }

  lemma {:induction false} FirstIsLeast(lines: seq<Str>, line: Str)
    requires Ordered(lines) && line in lines
    ensures Leq(lines[0], line)
  {
    OrderedRest(lines);
    LeqTotal(line, line);
    assert lines == [lines[0]] + lines[1..];
  }

  lemma {:induction false} SameRest<A>(x: A, a: seq<A>, b: seq<A>)
    requires multiset([x] + a) == multiset([x] + b)
    ensures multiset(a) == multiset(b)
  {
    ConsBag(x, a);
    ConsBag(x, b);
    assert multiset(a) == multiset([x] + a) - multiset{x};
    assert multiset(b) == multiset([x] + b) - multiset{x};
  }

  lemma {:induction false} SameFirst(a: seq<Str>, b: seq<Str>)
    requires Ordered(a) && Ordered(b) && a != [] && b != [] && multiset(a) == multiset(b)
    ensures a[0] == b[0]
  {
    hide Ordered, Leq;
    assert a[0] in multiset(b) && b[0] in multiset(a);
    FirstIsLeast(a, b[0]);
    FirstIsLeast(b, a[0]);
    LeqTotal(a[0], b[0]);
  }

  /** There is only one way to order the same lines. */
  lemma {:induction false} OrderedUnique(a: seq<Str>, b: seq<Str>)
    requires Ordered(a) && Ordered(b) && multiset(a) == multiset(b)
    ensures a == b
  {
    SameSize(a, b);
    if a != [] {
      OrderedRest(a);
      OrderedRest(b);
      hide Ordered, Leq, AllAbove;
      SameFirst(a, b);
      assert a == [a[0]] + a[1..] && b == [a[0]] + b[1..];
      SameRest(a[0], a[1..], b[1..]);
      OrderedUnique(a[1..], b[1..]);
    }
  }

  /** Sorting forgets the order and nothing else. */
  lemma {:induction false} SortForgetsOrder(a: seq<Str>, b: seq<Str>)
    ensures Sort(a) == Sort(b) <==> multiset(a) == multiset(b)
  {
    SortCorrect(a);
    SortCorrect(b);
    if multiset(a) == multiset(b) {
      OrderedUnique(Sort(a), Sort(b));
    }
  }

  // ---- join ----

  function Joined(lines: seq<Str>, separator: Unit): Str {
    if lines == [] then []
    else if |lines| == 1 then lines[0]
    else lines[0] + [separator] + Joined(lines[1..], separator)
  }

  lemma {:induction false} FirstSeparator(a: Str, x: Str, separator: Unit)
    requires separator !in a
    ensures (a + [separator] + x)[|a|] == separator
    ensures forall i :: 0 <= i < |a| ==> (a + [separator] + x)[i] != separator
    ensures (a + [separator] + x)[..|a|] == a && (a + [separator] + x)[|a| + 1..] == x
  {}

  /** Both parts are known when the separator is not in the first. */
  lemma {:induction false} CutAtFirst(a: Str, x: Str, b: Str, y: Str, separator: Unit)
    requires a + [separator] + x == b + [separator] + y && separator !in a && separator !in b
    ensures a == b && x == y
  {
    FirstSeparator(a, x, separator);
    FirstSeparator(b, y, separator);
  }

  predicate Clean(lines: seq<Str>, separator: Unit) {
    forall i :: 0 <= i < |lines| ==> lines[i] != [] && separator !in lines[i]
  }

  lemma {:induction false} JoinedEmpty(lines: seq<Str>, separator: Unit)
    requires Clean(lines, separator)
    ensures Joined(lines, separator) == [] <==> lines == []
  {}

  lemma {:induction false} JoinedBreaks(lines: seq<Str>, separator: Unit)
    requires forall line: Str :: line in lines ==> separator !in line
    ensures separator in Joined(lines, separator) <==> |lines| > 1
  {
    if |lines| > 1 {
      assert separator in [separator];
    }
  }

  /** Lines that do not hold the separator can be told from their join, as soon as there is one. */
  lemma {:induction false} JoinedTold(a: seq<Str>, b: seq<Str>, separator: Unit)
    requires a != [] && forall line: Str :: line in a ==> separator !in line
    requires b != [] && forall line: Str :: line in b ==> separator !in line
    requires Joined(a, separator) == Joined(b, separator)
    ensures a == b
  {
    JoinedBreaks(a, separator);
    JoinedBreaks(b, separator);
    if |a| > 1 {
      var x, y := Joined(a[1..], separator), Joined(b[1..], separator);
      CutAtFirst(a[0], x, b[0], y, separator);
      JoinedTold(a[1..], b[1..], separator);
      assert a == [a[0]] + a[1..] && b == [b[0]] + b[1..];
    }
  }

  /** Without empty lines none is told from some as well. */
  lemma {:induction false} JoinedInjective(a: seq<Str>, b: seq<Str>, separator: Unit)
    requires Clean(a, separator) && Clean(b, separator) && Joined(a, separator) == Joined(b, separator)
    ensures a == b
  {
    JoinedEmpty(a, separator);
    JoinedEmpty(b, separator);
    if a != [] {
      JoinedTold(a, b, separator);
    }
  }
}
