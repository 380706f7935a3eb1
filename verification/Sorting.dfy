// A stable sort by a comparator: what `Array.prototype.sort` does.

module Sorting {

  type Before<!T> = (T, T) -> bool

  /** A strict weak order, what a consistent comparator gives. */
  ghost predicate WeakOrder<T(!new)>(before: Before<T>)
  {
    && (forall a, b :: before(a, b) ==> !before(b, a))
    && (forall a, b, c :: !before(b, a) && !before(c, b) ==> !before(c, a))
  }

  function Insert<T>(s: seq<T>, x: T, before: Before<T>): seq<T>
  {
    if s != [] && before(x, s[|s| - 1]) then Insert(s[..|s| - 1], x, before) + [s[|s| - 1]] else s + [x]
  }

  function Sort<T>(s: seq<T>, before: Before<T>): seq<T>
  {
    if s == [] then [] else Insert(Sort(s[..|s| - 1], before), s[|s| - 1], before)
  }

  ghost predicate InOrder<T>(s: seq<T>, before: Before<T>)
  {
    forall i, j :: 0 <= i < j < |s| ==> !before(s[j], s[i])
  }

  /** No two elements clash; `clash` is read both ways round. */
  ghost predicate Apart<T>(s: seq<T>, clash: Before<T>)
  {
    forall i, j :: 0 <= i < |s| && 0 <= j < |s| && i != j ==> !clash(s[i], s[j])
  }

  lemma ApartFrom<T(!new)>(s: seq<T>, x: T, clash: Before<T>)
    requires Apart(s, clash) && forall r :: r in s ==> !clash(r, x) && !clash(x, r)
    ensures Apart(s + [x], clash)
  {
  }

  lemma ApartLast<T(!new)>(s: seq<T>, clash: Before<T>)
    requires s != [] && Apart(s, clash)
    ensures var n := |s| - 1;
            Apart(s[..n], clash) && forall r :: r in s[..n] ==> !clash(r, s[n]) && !clash(s[n], r)
  {
  }

  lemma Snoc<T(!new)>(s: seq<T>)
    requires s != []
    ensures s == s[..|s| - 1] + [s[|s| - 1]]
    ensures forall r :: r in s <==> r in s[..|s| - 1] || r == s[|s| - 1]
  {
  }

  lemma OrderFrom<T(!new)>(s: seq<T>, x: T, before: Before<T>)
    requires InOrder(s, before) && forall r :: r in s ==> !before(x, r)
    ensures InOrder(s + [x], before)
  {
  }

  /** Nothing of an ordered sequence comes after an element that its last does not follow. */
  lemma LastDecides<T(!new)>(s: seq<T>, x: T, before: Before<T>)
    requires WeakOrder(before) && InOrder(s, before) && s != [] && !before(x, s[|s| - 1])
    ensures forall r :: r in s ==> !before(x, r)
  {
  }

  lemma OrderLast<T(!new)>(s: seq<T>, before: Before<T>)
    requires InOrder(s, before) && s != []
    ensures var n := |s| - 1;
            InOrder(s[..n], before) && forall r :: r in s[..n] ==> !before(s[n], r)
  {
  }

  lemma {:induction false} InsertSpec<T(!new)>(s: seq<T>, x: T, before: Before<T>, clash: Before<T>)
    requires WeakOrder(before) && InOrder(s, before)
    requires Apart(s, clash) && forall r :: r in s ==> !clash(r, x) && !clash(x, r)
    ensures var t := Insert(s, x, before);
            && InOrder(t, before) && Apart(t, clash)
            && (forall r :: r in t <==> r in s || r == x)
            && |t| == |s| + 1
  {
    hide InOrder, Apart;
    if s == [] || !before(x, s[|s| - 1]) {
      if s != [] {
        LastDecides(s, x, before);
      }
      ApartFrom(s, x, clash);
      OrderFrom(s, x, before);
    } else {
      var n := |s| - 1;
      ApartLast(s, clash);
      OrderLast(s, before);
      Snoc(s);
      InsertSpec(s[..n], x, before, clash);
      var u := Insert(s[..n], x, before);
      ApartFrom(u, s[n], clash);
      OrderFrom(u, s[n], before);
    }
  }

  lemma {:induction false} InsertKeepsAll<T>(s: seq<T>, x: T, before: Before<T>)
    ensures multiset(Insert(s, x, before)) == multiset(s) + multiset{x}
  {
    if s != [] && before(x, s[|s| - 1]) {
      InsertKeepsAll(s[..|s| - 1], x, before);
      assert s == s[..|s| - 1] + [s[|s| - 1]];
    }
  }

  /** The sort is in order, and a rearrangement: same elements, still apart. */
  lemma {:induction false} SortSpec<T(!new)>(s: seq<T>, before: Before<T>, clash: Before<T>)
    requires WeakOrder(before) && Apart(s, clash)
    ensures var t := Sort(s, before);
            && InOrder(t, before) && Apart(t, clash)
            && (forall r :: r in t <==> r in s)
            && |t| == |s|
  {
    if s != [] {
      ApartLast(s, clash);
      Snoc(s);
      SortSpec(s[..|s| - 1], before, clash);
      InsertSpec(Sort(s[..|s| - 1], before), s[|s| - 1], before, clash);
    }
  }

  function Where<T(!new)>(s: seq<T>, wanted: T -> bool): (t: seq<T>)
    ensures forall r :: r in t <==> r in s && wanted(r)
  {
    if s == [] then []
    else
      var n := |s| - 1;
      var before := Where(s[..n], wanted);
      assert s == s[..n] + [s[n]];
      if wanted(s[n]) then before + [s[n]] else before
  }

  lemma {:induction false} WhereApart<T(!new)>(s: seq<T>, wanted: T -> bool, clash: Before<T>)
    requires Apart(s, clash)
    ensures Apart(Where(s, wanted), clash)
  {
    if s != [] {
      ApartLast(s, clash);
      WhereApart(s[..|s| - 1], wanted, clash);
      ApartFrom(Where(s[..|s| - 1], wanted), s[|s| - 1], clash);
    }
  }

  lemma {:induction false} WhereInOrder<T(!new)>(s: seq<T>, wanted: T -> bool, before: Before<T>)
    requires InOrder(s, before)
    ensures InOrder(Where(s, wanted), before)
  {
    hide InOrder;
    if s != [] {
      var n := |s| - 1;
      OrderLast(s, before);
      WhereInOrder(s[..n], wanted, before);
      OrderFrom(Where(s[..n], wanted), s[n], before);
    }
  }
}
