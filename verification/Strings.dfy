/** The order of strings, and `sorted` on lists of them. */
module Strings {
  predicate Le(a: string, b: string) {
    a == "" || (b != "" && (a[0] < b[0] || (a[0] == b[0] && Le(a[1..], b[1..]))))
  }

  lemma {:induction false} LeTotal(a: string, b: string)
    ensures Le(a, b) || Le(b, a)
    ensures Le(a, b) && Le(b, a) ==> a == b
  {
    if a != "" && b != "" {
      LeTotal(a[1..], b[1..]);
      assert a == [a[0]] + a[1..] && b == [b[0]] + b[1..];
    }
  }

  lemma {:induction false} LeTransitive(a: string, b: string, c: string)
    requires Le(a, b) && Le(b, c)
    ensures Le(a, c)
  {
    if a != "" { LeTransitiveStep(a, b, c); }
  }

  lemma LeTransitiveStep(a: string, b: string, c: string)
    requires a != "" && Le(a, b) && Le(b, c)
    ensures Le(a, c)
    decreases a, 0
  {
    if a[0] == b[0] == c[0] && a[1..] != "" {
      LeTransitiveStep(a[1..], b[1..], c[1..]);
    }
  }

  /** One string is at most another exactly when it is a prefix of it, or has the smaller character where they
      first differ. */
  lemma {:induction false} LeIff(a: string, b: string)
    ensures Le(a, b) <==> a <= b || exists k :: FirstSmaller(a, b, k)
  {
    if a != "" && b != "" {
      if a[0] == b[0] {
        LeIff(a[1..], b[1..]);
        assert a <= b <==> a[1..] <= b[1..];
        if k :| FirstSmaller(a[1..], b[1..], k) { ShiftSmaller(a, b, k + 1); }
        if k :| FirstSmaller(a, b, k) { ShiftSmaller(a, b, k); }
      } else {
        assert !(a <= b);
        assert FirstSmaller(a, b, 0) <==> a[0] < b[0];
        assert forall k :: FirstSmaller(a, b, k) ==> k == 0;
      }
    }
  }

  predicate FirstSmaller(a: string, b: string, k: int) {
    0 <= k < |a| && k < |b| && a[k] < b[k] && forall i :: 0 <= i < k ==> a[i] == b[i]
  }

  lemma ShiftSmaller(a: string, b: string, k: int)
    requires a != "" && b != "" && a[0] == b[0] && k > 0
    ensures FirstSmaller(a, b, k) <==> FirstSmaller(a[1..], b[1..], k - 1)
  {
    if FirstSmaller(a[1..], b[1..], k - 1) {
      forall i | 0 <= i < k ensures a[i] == b[i] { assert i > 0 ==> a[1..][i - 1] == b[1..][i - 1]; }
    }
  }

  function Insert(x: string, s: seq<string>): seq<string> {
    if s == [] then [x] else if Le(x, s[0]) then [x] + s else [s[0]] + Insert(x, s[1..])
  }

  function Sorted(s: seq<string>): seq<string> {
    if s == [] then [] else Insert(s[0], Sorted(s[1..]))
  }

  ghost predicate AllAbove(x: string, s: seq<string>) { forall y :: y in s ==> Le(x, y) }

  ghost predicate Ascending(s: seq<string>) {
    s == [] || (AllAbove(s[0], s[1..]) && Ascending(s[1..]))
  }

  lemma Unfolds(x: string, s: seq<string>)
    ensures ([x] + s)[0] == x && ([x] + s)[1..] == s
    ensures multiset([x] + s) == multiset(s) + multiset{x}
    ensures forall y :: y in [x] + s <==> y == x || y in s
  {
  }

  lemma Folds(s: seq<string>)
    requires s != []
    ensures s == [s[0]] + s[1..]
    ensures multiset(s) == multiset(s[1..]) + multiset{s[0]}
    ensures forall y :: y in s <==> y == s[0] || y in s[1..]
  {
    Unfolds(s[0], s[1..]);
    assert s == [s[0]] + s[1..];
  }

  lemma {:induction false} InsertAdds(x: string, s: seq<string>)
    ensures multiset(Insert(x, s)) == multiset(s) + multiset{x}
    ensures forall y :: y in Insert(x, s) <==> y == x || y in s
  {
    Unfolds(x, s);
    if s != [] {
      Folds(s);
      InsertAdds(x, s[1..]);
      Unfolds(s[0], Insert(x, s[1..]));
    }
  }

  lemma {:induction false} InsertKeepsAscending(x: string, s: seq<string>)
    requires Ascending(s)
    ensures Ascending(Insert(x, s))
  {
    Unfolds(x, s);
    if s != [] {
      Folds(s);
      if Le(x, s[0]) {
        forall y | y in s ensures Le(x, y) {
          if y != s[0] { LeTransitive(x, s[0], y); }
        }
      } else {
        LeTotal(x, s[0]);
        InsertKeepsAscending(x, s[1..]);
        InsertAdds(x, s[1..]);
        Unfolds(s[0], Insert(x, s[1..]));
      }
    }
  }

  lemma {:induction false} SortedAscends(s: seq<string>)
    ensures Ascending(Sorted(s)) && multiset(Sorted(s)) == multiset(s)
  {
    if s != [] {
      SortedAscends(s[1..]);
      InsertKeepsAscending(s[0], Sorted(s[1..]));
      InsertAdds(s[0], Sorted(s[1..]));
      Folds(s);
    }
  }

  lemma HeadIsLeast(s: seq<string>, x: string)
    requires Ascending(s) && x in s
    ensures Le(s[0], x)
  {
    LeTotal(x, x);
    Folds(s);
  }

  lemma SameHead(a: seq<string>, b: seq<string>)
    requires Ascending(a) && Ascending(b) && multiset(a) == multiset(b) && a != [] && b != []
    ensures a[0] == b[0] && multiset(a[1..]) == multiset(b[1..])
  {
    assert a[0] in multiset(b) && b[0] in multiset(a);
    HeadIsLeast(a, b[0]);
    HeadIsLeast(b, a[0]);
    LeTotal(a[0], b[0]);
    Folds(a);
    Folds(b);
    assert multiset(a[1..]) == multiset(a) - multiset{a[0]};
    assert multiset(b[1..]) == multiset(b) - multiset{b[0]};
  }

  lemma {:induction false} AscendingIsUnique(a: seq<string>, b: seq<string>)
    requires Ascending(a) && Ascending(b) && multiset(a) == multiset(b)
    ensures a == b
  {
    assert |multiset(a)| == |multiset(b)|;
    if a != [] {
      SameHead(a, b);
      AscendingIsUnique(a[1..], b[1..]);
      Folds(a);
      Folds(b);
    }
  }

  /** `sorted` gives the same list exactly for reorderings of the same list. */
  lemma SortedEqualIff(a: seq<string>, b: seq<string>)
    ensures Sorted(a) == Sorted(b) <==> multiset(a) == multiset(b)
  {
    SortedAscends(a);
    SortedAscends(b);
    if multiset(a) == multiset(b) { AscendingIsUnique(Sorted(a), Sorted(b)); }
  }

  // ----- sorting a set

  lemma LeastExists(s: set<string>) returns (least: string)
    requires s != {}
    ensures least in s && forall y :: y in s ==> Le(least, y)
    decreases |s|
  {
    var x :| x in s;
    LeTotal(x, x);
    if s == {x} { return x; }
    assert s == {x} + (s - {x}) && s - {x} != {};
    least := LeastExists(s - {x});
    LeTotal(x, least);
    if Le(x, least) {
      forall y | y in s ensures Le(x, y) {
        if y != x { LeTransitive(x, least, y); }
      }
      least := x;
    }
  }

  predicate IsLeast(x: string, s: set<string>) { x in s && forall y :: y in s ==> Le(x, y) }

  lemma LeastIsUnique(s: set<string>)
    requires s != {}
    ensures exists x :: IsLeast(x, s)
    ensures forall x, x' :: IsLeast(x, s) && IsLeast(x', s) ==> x == x'
  {
    var least := LeastExists(s);
    assert IsLeast(least, s);
    forall x, x' | IsLeast(x, s) && IsLeast(x', s) ensures x == x' { LeTotal(x, x'); }
  }

  function Least(s: set<string>): (x: string)
    requires s != {}
    ensures IsLeast(x, s)
  {
    LeastIsUnique(s);
    var x :| x in s && IsLeast(x, s);
    x
  }

  /** `sorted` on a set. */
  function SortedSet(s: set<string>): seq<string> {
    if s == {} then [] else [Least(s)] + SortedSet(s - {Least(s)})
  }

  /** It lists each member once, in ascending order. */
  lemma {:induction false} SortedSetIs(s: set<string>)
    ensures Ascending(SortedSet(s)) && multiset(SortedSet(s)) == multiset(s)
  {
    if s != {} {
      var least := Least(s);
      var rest := SortedSet(s - {least});
      SortedSetIs(s - {least});
      Unfolds(least, rest);
      assert multiset(s) == multiset(s - {least}) + multiset{least};
      forall y | y in rest ensures Le(least, y) {
        assert y in multiset(rest);
        assert y in s - {least};
      }
    }
  }
}
