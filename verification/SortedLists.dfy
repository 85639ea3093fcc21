/** The list operations of the Java streams: distinct, sorted and TreeSet, on strings in their natural
    order. */
module SortedLists {

  /** String.compareTo: strict lexicographic order. */
  predicate Below(a: string, b: string) {
    b != [] && (a == [] || a[0] < b[0] || (a[0] == b[0] && Below(a[1..], b[1..])))
  }

  lemma {:induction false} BelowTransitive(a: string, b: string, c: string)
    requires Below(a, b) && Below(b, c)
    ensures Below(a, c)
  {
    if a != [] && a[0] == b[0] && b[0] == c[0] {
      BelowTransitive(a[1..], b[1..], c[1..]);
    }
  }

  lemma {:induction false} BelowIrreflexive(a: string)
    ensures !Below(a, a)
  {
    if a != [] {
      BelowIrreflexive(a[1..]);
    }
  }

  lemma {:induction false} BelowTotal(a: string, b: string)
    ensures a == b || Below(a, b) || Below(b, a)
  {
    if a != [] && b != [] && a[0] == b[0] {
      BelowTotal(a[1..], b[1..]);
      assert a == [a[0]] + a[1..] && b == [b[0]] + b[1..];
    }
  }

  /** Strictly ascending, so without duplicates. */
  predicate Ascending(s: seq<string>) {
    forall i, j :: 0 <= i < j < |s| ==> Below(s[i], s[j])
  }

  ghost predicate SameElements<T(!new)>(s: seq<T>, t: seq<T>) {
    forall x :: x in s <==> x in t
  }

  ghost predicate Unique<T>(s: seq<T>) {
    forall i, j :: 0 <= i < j < |s| ==> s[i] != s[j]
  }

  lemma FirstIsLeast(s: seq<string>, t: seq<string>)
    requires Ascending(s) && Ascending(t) && SameElements(s, t) && s != [] && t != []
    ensures s[0] == t[0]
  {
    assert s[0] in t && t[0] in s;
    var i :| 0 <= i < |t| && t[i] == s[0];
    var j :| 0 <= j < |s| && s[j] == t[0];
    if i > 0 && j > 0 {
      BelowTransitive(s[0], t[0], s[0]);
      BelowIrreflexive(s[0]);
    }
  }

  /** A set of strings has one strictly ascending list. */
  lemma {:induction false} AscendingIsUnique(s: seq<string>, t: seq<string>)
    requires Ascending(s) && Ascending(t) && SameElements(s, t)
    ensures s == t
  {
    hide Below;
    if s != [] {
      assert s[0] in t;
    }
    if t != [] {
      assert t[0] in s;
    }
    if s != [] && t != [] {
      FirstIsLeast(s, t);
      TailElements(s);
      TailElements(t);
      assert SameElements(s[1..], t[1..]);
      AscendingIsUnique(s[1..], t[1..]);
      assert s == [s[0]] + s[1..] && t == [t[0]] + t[1..];
    }
  }

  lemma TailElements(s: seq<string>)
    requires Ascending(s) && s != []
    ensures Ascending(s[1..])
    ensures forall x :: x in s[1..] <==> x in s && x != s[0]
  {
    BelowIrreflexive(s[0]);
    hide Below;
    assert forall i :: 1 <= i < |s| ==> s[i] == s[1..][i - 1];
  }

  /** Stream.distinct: the first occurrence of each element. */
  function Distinct<T(==,!new)>(s: seq<T>): (r: seq<T>)
    ensures SameElements(r, s) && Unique(r)
  {
    if s == [] then []
    else
      var init, last := s[..|s| - 1], s[|s| - 1];
      assert s == init + [last];
      Distinct(init) + if last in init then [] else [last]
  }

  /** Where a string belongs in an ascending list. */
  function Position(s: seq<string>, x: string): (i: nat)
    ensures i <= |s|
    ensures forall k :: 0 <= k < i ==> Below(s[k], x)
    ensures i < |s| ==> !Below(s[i], x)
  {
    if s != [] && Below(s[0], x) then 1 + Position(s[1..], x) else 0
  }

  function Place(s: seq<string>, x: string): seq<string> {
    s[..Position(s, x)] + [x] + s[Position(s, x)..]
  }

  lemma PlaceIsAscending(s: seq<string>, x: string)
    requires Ascending(s) && x !in s
    ensures Ascending(Place(s, x))
    ensures forall y :: y in Place(s, x) <==> y in s || y == x
  {
    var i := Position(s, x);
    forall k | i <= k < |s| ensures Below(x, s[k]) {
      BelowTotal(s[i], x);
      assert s[i] in s;
      if k > i {
        BelowTransitive(x, s[i], s[k]);
      }
    }
    hide Below;
    assert s == s[..i] + s[i..];
  }

  /** Stream.sorted, by insertion. */
  function Sorted(s: seq<string>): seq<string> {
    if s == [] then [] else Place(Sorted(s[..|s| - 1]), s[|s| - 1])
  }

  /** TreeSet.add and a TreeSet filled in the order of the list. */
  function TreeAdd(s: seq<string>, x: string): seq<string> {
    if x in s then s else Place(s, x)
  }

  function TreeOf(s: seq<string>): seq<string> {
    if s == [] then [] else TreeAdd(TreeOf(s[..|s| - 1]), s[|s| - 1])
  }

  lemma {:induction false} SortedIsAscending(s: seq<string>)
    requires Unique(s)
    ensures Ascending(Sorted(s)) && SameElements(Sorted(s), s)
  {
    if s != [] {
      var init, last := s[..|s| - 1], s[|s| - 1];
      SortedIsAscending(init);
      hide Ascending, Sorted, Place;
      assert s == init + [last];
      assert last !in init;
      PlaceIsAscending(Sorted(init), last);
    }
  }

  lemma {:induction false} TreeIsAscending(s: seq<string>)
    ensures Ascending(TreeOf(s)) && SameElements(TreeOf(s), s)
  {
    if s != [] {
      var init, last := s[..|s| - 1], s[|s| - 1];
      TreeIsAscending(init);
      hide Ascending, Place;
      assert s == init + [last];
      if last !in TreeOf(init) {
        PlaceIsAscending(TreeOf(init), last);
      }
    }
  }

  /** distinct().sorted() and a TreeSet give the same list. */
  lemma SortedDistinctIsTree(s: seq<string>)
    ensures Sorted(Distinct(s)) == TreeOf(s)
    ensures Ascending(TreeOf(s)) && SameElements(TreeOf(s), s)
  {
    SortedIsAscending(Distinct(s));
    TreeIsAscending(s);
    hide Ascending, Sorted, TreeOf, Distinct;
    AscendingIsUnique(Sorted(Distinct(s)), TreeOf(s));
  }
}
