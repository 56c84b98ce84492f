/** Small vocabulary shared by the other modules: optional values and facts about sequences. */
module Sequences {

  datatype Option<+T> = None | Some(value: T)

  /** No element occurs twice. */
  ghost predicate NoDuplicates<T>(s: seq<T>) {
    forall i, j :: 0 <= i < j < |s| ==> s[i] != s[j]
  }

  /** The pieces of `parts` one after the other. */
  function Flatten<T>(parts: seq<seq<T>>): (s: seq<T>) {
    if parts == [] then [] else parts[0] + Flatten(parts[1..])
  }

  lemma ConcatAssociative<T>(a: seq<T>, b: seq<T>, c: seq<T>)
    ensures a + b + c == a + (b + c)
  {
  }

  /** `Set.add` on a set that is iterated in insertion order. */
  function Add<T(==,!new)>(s: seq<T>, x: T): (r: seq<T>)
    ensures s <= r && forall y :: y in r <==> y in s || y == x
    ensures NoDuplicates(s) ==> NoDuplicates(r)
  {
    if x in s then s else s + [x]
  }

  /** `Set.add` for each element of `xs` in turn. */
  function AddAll<T(==,!new)>(s: seq<T>, xs: seq<T>): (r: seq<T>)
    ensures s <= r && forall y :: y in r <==> y in s || y in xs
    ensures NoDuplicates(s) ==> NoDuplicates(r)
  {
    if xs == [] then s else
      var n := |xs| - 1;
      assert xs == xs[..n] + [xs[n]];
      Add(AddAll(s, xs[..n]), xs[n])
  }

  /** A duplicate-free sequence over a finite set is no longer than the set is large. */
  lemma {:induction false} NoDuplicatesBound<T>(s: seq<T>, universe: set<T>)
    requires NoDuplicates(s)
    requires forall x :: x in s ==> x in universe
    ensures |s| <= |universe|
  {
    if s != [] {
      var n := |s| - 1;
      var rest := universe - {s[n]};
      forall x | x in s[..n] ensures x in rest {
        var i :| 0 <= i < n && s[i] == x;
      }
      NoDuplicatesBound(s[..n], rest);
    }
  }
}
