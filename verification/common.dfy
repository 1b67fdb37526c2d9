/**
 * Small shared vocabulary: an optional value (the source's `null`), the
 * "no element twice" property of lists, and the list that results from
 * adding elements one by one behind a `Contains` check.
 */
module Common {

  /** A value that may be absent; `None` stands for a C# `null` reference. */
  datatype Option<T> = None | Some(value: T)

  /** No element occurs twice in `s`. */
  predicate NoDuplicates<T(==)>(s: seq<T>) {
    forall i, j :: 0 <= i < j < |s| ==> s[i] != s[j]
  }

  /** A duplicate-free list stays so without its last element, which occurs nowhere before. */
  lemma NoDuplicatesSnoc<T>(s: seq<T>, x: T)
    requires NoDuplicates(s + [x])
    ensures NoDuplicates(s) && x !in s
  {
    var all := s + [x];
    forall i, j | 0 <= i < j < |s| ensures s[i] != s[j] {
      assert all[i] == s[i] && all[j] == s[j];
    }
    forall i | 0 <= i < |s| ensures s[i] != x {
      assert all[i] == s[i] && all[|s|] == x;
    }
  }

  /** Appending an element that is absent keeps a list duplicate-free. */
  lemma NoDuplicatesAppendFresh<T>(s: seq<T>, x: T)
    requires NoDuplicates(s) && x !in s
    ensures NoDuplicates(s + [x])
  {
  }

  /**
   * The list obtained by visiting `xs` in order and appending each element
   * that the list does not contain yet (`if (!list.Contains (x)) list.Add (x)`).
   */
  function AppendNew<T(==,!new)>(list: seq<T>, xs: seq<T>): (r: seq<T>)
    ensures |list| <= |r| && r[..|list|] == list
    ensures forall x :: x in r <==> x in list || x in xs
    decreases |xs|
  {
    if xs == [] then list
    else
      var acc := AppendNew(list, xs[..|xs| - 1]);
      var x := xs[|xs| - 1];
      assert forall y :: y in xs <==> y in xs[..|xs| - 1] || y == x by {
        assert xs == xs[..|xs| - 1] + [x];
      }
      if x in acc then acc else acc + [x]
  }

  /** Appending only absent elements never creates a duplicate. */
  lemma {:induction false} AppendNewKeepsNoDuplicates<T(!new)>(list: seq<T>, xs: seq<T>)
    requires NoDuplicates(list)
    ensures NoDuplicates(AppendNew(list, xs))
    decreases |xs|
  {
    if xs != [] {
      AppendNewKeepsNoDuplicates(list, xs[..|xs| - 1]);
    }
  }

  /**
   * When nothing is repeated, neither inside `xs` nor between `list` and
   * `xs`, the membership checks never fire and the result is plain
   * concatenation.
   */
  lemma {:induction false} AppendNewOfFresh<T(!new)>(list: seq<T>, xs: seq<T>)
    requires NoDuplicates(xs)
    requires forall x :: x in xs ==> x !in list
    ensures AppendNew(list, xs) == list + xs
    decreases |xs|
  {
    if xs != [] {
      var init := xs[..|xs| - 1];
      var x := xs[|xs| - 1];
      AppendNewOfFresh(list, init);
      assert x !in init by {
        forall k | 0 <= k < |init| ensures init[k] != x {
          assert init[k] == xs[k];
        }
      }
      assert xs == init + [x];
    }
  }
}
