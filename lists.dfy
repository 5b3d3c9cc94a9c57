/** Order-preserving filtering of a list, as Python's list comprehensions
    with an `if` and the `for ...: if ...: out.append(x)` loops do it. */
module Lists {

  /** The elements of `s` that lie in `keep`, in their order in `s`. */
  function Restrict<T(==,!new)>(s: seq<T>, keep: set<T>): (r: seq<T>)
    ensures |r| <= |s|
  {
    if s == [] then []
    else
      var init, last := s[..|s| - 1], s[|s| - 1];
      Restrict(init, keep) + (if last in keep then [last] else [])
  }

  /** What survives the filter is exactly what is in both the list and the set. */
  lemma {:induction false} RestrictMembers<T(!new)>(s: seq<T>, keep: set<T>)
    ensures forall x :: x in Restrict(s, keep) <==> x in s && x in keep
    decreases |s|
  {
    if s != [] {
      var init, last := s[..|s| - 1], s[|s| - 1];
      RestrictMembers(init, keep);
      assert s == init + [last];
    }
  }

  /** Filtering distributes over concatenation: the order of the input is kept. */
  lemma {:induction false} RestrictAppend<T(!new)>(s: seq<T>, t: seq<T>, keep: set<T>)
    ensures Restrict(s + t, keep) == Restrict(s, keep) + Restrict(t, keep)
    decreases |t|
  {
    if t != [] {
      var init := t[..|t| - 1];
      assert (s + t)[..|s + t| - 1] == s + init;
      RestrictAppend(s, init, keep);
    } else {
      assert s + t == s;
    }
  }

  /** Filtering twice is filtering once by both conditions. */
  lemma {:induction false} RestrictRestrict<T(!new)>(s: seq<T>, a: set<T>, b: set<T>)
    ensures Restrict(Restrict(s, a), b) == Restrict(s, a * b)
    decreases |s|
  {
    if s != [] {
      var init, last := s[..|s| - 1], s[|s| - 1];
      RestrictRestrict(init, a, b);
      var once := if last in a then [last] else [];
      RestrictAppend(Restrict(init, a), once, b);
      if last in a {
        assert Restrict(once, b) == Restrict([], b) + (if last in b then [last] else []);
      }
    }
  }

  /** Nothing of the list in the set: nothing survives. */
  lemma {:induction false} RestrictNone<T(!new)>(s: seq<T>, keep: set<T>)
    requires forall i :: 0 <= i < |s| ==> s[i] !in keep
    ensures Restrict(s, keep) == []
    decreases |s|
  {
    if s != [] {
      RestrictNone(s[..|s| - 1], keep);
    }
  }
}
