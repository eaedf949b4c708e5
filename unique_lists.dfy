/**
 * Arrays used as sets: an element is pushed only when no equal element is
 * already there (`if (!list.find(...)) list.push(x)` or
 * `if (!list.includes(x)) list.push(x)`), so the list keeps its first
 * occurrences in arrival order and never holds a repeat.
 */
module UniqueLists {
  predicate Distinct<T(==,!new)>(s: seq<T>)
  {
    forall i, j :: 0 <= i < j < |s| ==> s[i] != s[j]
  }

  /** Push `x` unless an equal element is present. */
  function AddUnique<T(==,!new)>(s: seq<T>, x: T): (r: seq<T>)
    ensures forall y :: y in r <==> y in s || y == x
    ensures Distinct(s) ==> Distinct(r)
    ensures |s| <= |r| && r[..|s|] == s
  {
    if x in s then s else s + [x]
  }

  /** Push every element of `ys` in turn, each unless an equal element is present. */
  function Union<T(==,!new)>(s: seq<T>, ys: seq<T>): (r: seq<T>)
    ensures forall y :: y in r <==> y in s || y in ys
    ensures Distinct(s) ==> Distinct(r)
    ensures |s| <= |r| && r[..|s|] == s
    decreases |ys|
  {
    if ys == [] then s else AddUnique(Union(s, ys[..|ys| - 1]), ys[|ys| - 1])
  }

  /** Pushing elements that are all present already changes nothing. */
  lemma {:induction false} UnionOfPresent<T(!new)>(s: seq<T>, ys: seq<T>)
    requires forall y :: y in ys ==> y in s
    ensures Union(s, ys) == s
    decreases |ys|
  {
    if ys != [] {
      assert forall y :: y in ys[..|ys| - 1] ==> y in ys;
      UnionOfPresent(s, ys[..|ys| - 1]);
      assert ys[|ys| - 1] in ys;
    }
  }

  /** Merging the same elements a second time changes nothing. */
  lemma UnionIdempotent<T(!new)>(s: seq<T>, ys: seq<T>)
    ensures Union(Union(s, ys), ys) == Union(s, ys)
  {
    UnionOfPresent(Union(s, ys), ys);
  }

  /** The loop that pushes each element of `ys` unless an equal one is present. */
  method AppendMissing<T(==,!new)>(s: seq<T>, ys: seq<T>) returns (r: seq<T>)
    ensures r == Union(s, ys)
  {
    r := s;
    var j := 0;
    while j < |ys|
      invariant 0 <= j <= |ys|
      invariant r == Union(s, ys[..j])
    {
      assert ys[..j + 1][..j] == ys[..j];
      if ys[j] !in r {
        r := r + [ys[j]];
      }
      j := j + 1;
    }
    assert ys[..j] == ys;
  }

  /** Some element satisfies `p` iff one of `prefix` (all but the last) does or the last does. */
  lemma ExistsSplitLast<T>(s: seq<T>, prefix: seq<T>, p: T -> bool)
    requires s != [] && prefix == s[..|s| - 1]
    ensures (exists i :: 0 <= i < |s| && p(s[i])) <==>
      (exists i :: 0 <= i < |prefix| && p(prefix[i])) || p(s[|s| - 1])
  {
    if exists i :: 0 <= i < |s| && p(s[i]) {
      var i :| 0 <= i < |s| && p(s[i]);
      if i < |prefix| {
        assert prefix[i] == s[i];
      }
    }
    if exists i :: 0 <= i < |prefix| && p(prefix[i]) {
      var i :| 0 <= i < |prefix| && p(prefix[i]);
      assert prefix[i] == s[i];
    }
  }
}
