/** A JavaScript `Set` as `collectPageColors` uses it: membership by exact
    value, `add` ignores a value already present, and `Array.from` lists the
    members in insertion order. Also the first-occurrence index of a value in
    a sequence, used to state that insertion order. */
module OrderedSets {

  /** No value occurs twice. */
  predicate NoDuplicates<T(==)>(s: seq<T>) {
    forall i, j :: 0 <= i < j < |s| ==> s[i] != s[j]
  }

  /** The members of a set, in the order they were first added. */
  datatype OrderedSet<T> = OrderedSet(items: seq<T>)

  /** `new Set()` */
  function Empty<T>(): (r: OrderedSet<T>)
    ensures |r.items| == 0
  {
    OrderedSet([])
  }

  /** `set.add(x)`: a value already present keeps its place; a new value goes last. */
  function Add<T(==,!new)>(s: OrderedSet<T>, x: T): (r: OrderedSet<T>)
    ensures NoDuplicates(s.items) ==> NoDuplicates(r.items)
    ensures forall y :: y in r.items <==> y in s.items || y == x
    ensures x in s.items ==> r == s
    ensures x !in s.items ==> |r.items| == |s.items| + 1 && r.items[..|s.items|] == s.items
  {
    if x in s.items then s else OrderedSet(s.items + [x])
  }

  /** `Array.from(set)` */
  function ToArray<T>(s: OrderedSet<T>): (r: seq<T>) {
    s.items
  }

  /** Position of the first occurrence of `x` in `s`. */
  function IndexOf<T(==)>(s: seq<T>, x: T): (r: nat)
    requires x in s
    ensures r < |s| && s[r] == x && x !in s[..r]
  {
    if s[0] == x then 0 else 1 + IndexOf(s[1..], x)
  }

  /** Appending to a sequence does not move the first occurrence of a value it
      already holds. */
  lemma IndexOfAppend<T>(s: seq<T>, t: seq<T>, x: T)
    requires x in s
    ensures IndexOf(s + t, x) == IndexOf(s, x)
  {
    var p := IndexOf(s, x);
    assert (s + t)[..p] == s[..p];
    assert (s + t)[p] == x;
  }

  /** A value that is new to `s` first occurs at position `|s|` of `s + [x]`. */
  lemma IndexOfNew<T>(s: seq<T>, x: T)
    requires x !in s
    ensures IndexOf(s + [x], x) == |s|
  {
    assert (s + [x])[..|s|] == s;
  }
}
