/** Sorting and ordered enumeration, for `slices.SortFunc` and `order by`. */
module Ordering {
  import Text

  ghost predicate StrictOrder<T(!new)>(lt: (T, T) -> bool) {
    && (forall x :: !lt(x, x))
    && (forall x, y, z :: lt(x, y) && lt(y, z) ==> lt(x, z))
  }

  ghost predicate StrictTotal<T(!new)>(lt: (T, T) -> bool) {
    && StrictOrder(lt)
    && (forall x, y :: x == y || lt(x, y) || lt(y, x))
  }

  ghost predicate Sorted<T>(lt: (T, T) -> bool, s: seq<T>) {
    forall i, j | 0 <= i < j < |s| :: lt(s[i], s[j])
  }

  lemma StringsAreOrdered()
    ensures StrictTotal(Text.Less)
  {
    forall x { Text.LessIrreflexive(x); }
    forall x, y, z | Text.Less(x, y) && Text.Less(y, z) ensures Text.Less(x, z) { Text.LessTransitive(x, y, z); }
    forall x, y | x != y ensures Text.Less(x, y) || Text.Less(y, x) { Text.LessConnected(x, y); }
  }

  /** Adds `x` to a strictly sorted sequence, unless it is there already. */
  function Insert<T(==, !new)>(lt: (T, T) -> bool, x: T, s: seq<T>): (r: seq<T>)
    ensures StrictTotal(lt) && Sorted(lt, s) ==> Sorted(lt, r)
    ensures forall y :: y in r <==> y == x || y in s
  {
    if s == [] then [x]
    else if x == s[0] then s
    else if lt(x, s[0]) then [x] + s
    else
      var r := Insert(lt, x, s[1..]);
      assert StrictTotal(lt) && Sorted(lt, s) ==> forall y | y in r :: lt(s[0], y);
      [s[0]] + r
  }

  /** The elements of `s` in strictly increasing order, each once. */
  function SortUnique<T(==, !new)>(lt: (T, T) -> bool, s: seq<T>): (r: seq<T>)
    ensures StrictTotal(lt) ==> Sorted(lt, r)
    ensures forall y :: y in r <==> y in s
  {
    if s == [] then [] else Insert(lt, s[|s| - 1], SortUnique(lt, s[..|s| - 1]))
  }

  lemma FirstIsIn<T>(s: seq<T>)
    ensures s != [] ==> s[0] in s
  {
  }

  /** A strictly sorted sequence is determined by its elements. */
  lemma {:induction false} SortedIsUnique<T(!new)>(lt: (T, T) -> bool, s: seq<T>, t: seq<T>)
    requires StrictOrder(lt) && Sorted(lt, s) && Sorted(lt, t)
    requires forall y :: y in s <==> y in t
    ensures s == t
  {
    if s == [] {
      if t != [] { FirstIsIn(t); }
    } else {
      FirstIsIn(s);
      FirstIsIn(t);
      assert t[0] in s;
      assert s[0] == t[0];
      forall y ensures y in s[1..] <==> y in t[1..] {
        assert y in s[1..] ==> y in s && y != s[0];
        assert y in t[1..] ==> y in t && y != t[0];
        assert y in s && y != s[0] ==> y in s[1..];
        assert y in t && y != t[0] ==> y in t[1..];
      }
      SortedIsUnique(lt, s[1..], t[1..]);
      assert s == [s[0]] + s[1..] && t == [t[0]] + t[1..];
    }
  }

  /** The ordered enumeration of a finite set: what a query with `order by` returns. */
  ghost function Enumerate<T(!new)>(lt: (T, T) -> bool, s: set<T>): (r: seq<T>)
    requires StrictTotal(lt)
    ensures Sorted(lt, r)
    ensures forall y :: y in r <==> y in s
    ensures |r| == |s|
    decreases |s|
  {
    if s == {} then [] else
      var x :| x in s;
      var rest := Enumerate(lt, s - {x});
      InsertLength(lt, x, rest);
      Insert(lt, x, rest)
  }

  lemma {:induction false} InsertLength<T(!new)>(lt: (T, T) -> bool, x: T, s: seq<T>)
    requires StrictTotal(lt) && Sorted(lt, s)
    ensures |Insert(lt, x, s)| == if x in s then |s| else |s| + 1
  {
    if s != [] && x != s[0] && !lt(x, s[0]) { InsertLength(lt, x, s[1..]); }
  }

  /** Enumerates a set in order; the elements are taken in any order. */
  method OrderBy<T(==, !new)>(lt: (T, T) -> bool, s: set<T>) returns (r: seq<T>)
    requires StrictTotal(lt)
    ensures r == Enumerate(lt, s)
  {
    r := [];
    var rest := s;
    while rest != {}
      invariant rest <= s
      invariant Sorted(lt, r)
      invariant forall y :: y in r <==> y in s && y !in rest
      decreases |rest|
    {
      var x :| x in rest;
      r := Insert(lt, x, r);
      rest := rest - {x};
    }
    SortedIsUnique(lt, r, Enumerate(lt, s));
  }

  ghost predicate Distinct<T>(s: seq<T>) {
    forall i, j | 0 <= i < j < |s| :: s[i] != s[j]
  }

  lemma SortedIsDistinct<T(!new)>(lt: (T, T) -> bool, s: seq<T>)
    requires StrictOrder(lt) && Sorted(lt, s)
    ensures Distinct(s)
  {
  }

  /** `slices.SortFunc` on distinct elements, by insertion. */
  method SortDistinct<T(==, !new)>(lt: (T, T) -> bool, s: seq<T>) returns (r: seq<T>)
    requires StrictTotal(lt)
    ensures r == SortUnique(lt, s)
  {
    r := [];
    for i := 0 to |s|
      invariant r == SortUnique(lt, s[..i])
    {
      assert s[..i + 1][..i] == s[..i];
      r := Insert(lt, s[i], r);
    }
    assert s[..|s|] == s;
  }

  /** Sorting forgets order and repetition. */
  lemma SortUniqueBySet<T(!new)>(lt: (T, T) -> bool, s: seq<T>, t: seq<T>)
    requires StrictTotal(lt)
    requires forall x :: x in s <==> x in t
    ensures SortUnique(lt, s) == SortUnique(lt, t)
  {
    SortedIsUnique(lt, SortUnique(lt, s), SortUnique(lt, t));
  }
}
