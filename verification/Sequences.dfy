/** Concatenating a sequence of sequences. */
module Sequences {

  function Join<T>(parts: seq<seq<T>>): seq<T> {
    if parts == [] then [] else Join(parts[..|parts| - 1]) + parts[|parts| - 1]
  }

  lemma {:induction false} JoinMore<T>(parts: seq<seq<T>>, part: seq<T>)
    ensures Join(parts + [part]) == Join(parts) + part
  {
    assert (parts + [part])[..|parts|] == parts;
  }

  lemma {:induction false} JoinOne<T>(part: seq<T>)
    ensures Join([part]) == part
  {
    assert [part][..0] == [];
  }

  lemma {:induction false} JoinConcat<T>(a: seq<seq<T>>, b: seq<seq<T>>)
    ensures Join(a + b) == Join(a) + Join(b)
  {
    if b == [] {
      assert a + b == a;
    } else {
      hide Join;
      var front, part := b[..|b| - 1], b[|b| - 1];
      assert b == front + [part] && a + b == (a + front) + [part];
      JoinConcat(a, front);
      JoinMore(a + front, part);
      JoinMore(front, part);
      assert (Join(a) + Join(front)) + part == Join(a) + (Join(front) + part);
    }
  }

  /** A join is empty exactly when every part is. */
  lemma {:induction false} JoinEmpty<T>(parts: seq<seq<T>>)
    ensures Join(parts) == [] <==> forall i :: 0 <= i < |parts| ==> parts[i] == []
  {
    if parts != [] {
      var front, last := parts[..|parts| - 1], parts[|parts| - 1];
      JoinEmpty(front);
      JoinMore(front, last);
      assert parts == front + [last];
      assert |Join(parts)| == |Join(front)| + |last|;
    }
  }
}
