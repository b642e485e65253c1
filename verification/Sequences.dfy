/** List vocabulary shared by the modules: the array methods the source leans on (`filter`, `map`,
    `flatMap`, a reversed `find`), each as a function that recurses on the last element, so that a loop
    walking left to right extends it by one step. */
module Sequences {

  datatype Option<+T> = None | Some(value: T)

  function Last<T>(s: seq<T>): T
    requires s != []
  {
    s[|s| - 1]
  }

  function Front<T>(s: seq<T>): seq<T>
    requires s != []
  {
    s[..|s| - 1]
  }

  function Filter<T>(p: T -> bool, s: seq<T>): seq<T> {
    if s == [] then [] else Filter(p, Front(s)) + if p(Last(s)) then [Last(s)] else []
  }

  function Map<T, R>(f: T -> R, s: seq<T>): (r: seq<R>)
    ensures |r| == |s|
    ensures forall i :: 0 <= i < |s| ==> r[i] == f(s[i])
  {
    seq(|s|, i requires 0 <= i < |s| => f(s[i]))
  }

  /** f of every non-empty prefix of s, shortest first. */
  function OverPrefixes<T, R>(f: seq<T> -> R, s: seq<T>): seq<R> {
    if s == [] then [] else OverPrefixes(f, Front(s)) + [f(s)]
  }

  function Flatten<T>(ss: seq<seq<T>>): seq<T> {
    if ss == [] then [] else Flatten(Front(ss)) + Last(ss)
  }

  /** The index of the last element satisfying p, or -1: `[...s].reverse().find(p)`. */
  function LastIndex<T>(p: T -> bool, s: seq<T>): (r: int)
    ensures -1 <= r < |s|
    ensures 0 <= r ==> p(s[r])
    ensures forall i :: r < i < |s| ==> !p(s[i])
  {
    if s == [] then -1 else if p(Last(s)) then |s| - 1 else LastIndex(p, Front(s))
  }

  lemma TakeOneMore<T>(s: seq<T>, i: nat)
    requires i < |s|
    ensures s[..i + 1] == s[..i] + [s[i]]
  {
  }

  lemma SliceOneMore<T>(s: seq<T>, k: nat, n: nat)
    requires k <= n < |s|
    ensures s[k..n + 1] == s[k..n] + [s[n]]
  {
  }

  lemma Starts<T>(x: T, s: seq<T>)
    ensures [x] + s != [] && ([x] + s)[0] == x && ([x] + s)[1..] == s
  {
  }

  lemma ConcatEndsWithLast<T>(a: seq<T>, b: seq<T>)
    requires b != []
    ensures a + b == (a + Front(b)) + [Last(b)]
  {
  }

  lemma EndsWithLast<T>(s: seq<T>)
    requires s != []
    ensures s == Front(s) + [Last(s)]
  {
  }

  lemma Joins<T>(s: seq<T>, x: T)
    ensures s + [x] != [] && Front(s + [x]) == s && Last(s + [x]) == x
  {
  }

  lemma ConcatEnds<T>(a: seq<T>, b: seq<T>)
    ensures b != [] ==> a + b != [] && Last(a + b) == Last(b)
    ensures a == [] && b == [] ==> a + b == []
  {
  }

  lemma {:induction false} OverPrefixesAt<T, R>(f: seq<T> -> R, s: seq<T>, k: nat)
    ensures |OverPrefixes(f, s)| == |s|
    ensures k < |s| ==> OverPrefixes(f, s)[k] == f(s[..k + 1])
  {
    if s != [] {
      var front := Front(s);
      OverPrefixesAt(f, front, k);
      if k < |front| {
        assert front[..k + 1] == s[..k + 1];
      } else if k == |front| {
        assert s[..k + 1] == s;
      }
    }
  }

  lemma FilterSnoc<T>(p: T -> bool, s: seq<T>, x: T)
    ensures Filter(p, s + [x]) == if p(x) then Filter(p, s) + [x] else Filter(p, s)
  {
    Joins(s, x);
  }

  lemma {:induction false} FilterConcat<T>(p: T -> bool, a: seq<T>, b: seq<T>)
    ensures Filter(p, a + b) == Filter(p, a) + Filter(p, b)
  {
    if b == [] {
      assert a + b == a;
    } else {
      assert Front(a + b) == a + Front(b) && Last(a + b) == Last(b);
      FilterConcat(p, a, Front(b));
    }
  }

  lemma {:induction false} FilterMembers<T>(p: T -> bool, s: seq<T>)
    ensures forall x :: x in Filter(p, s) <==> x in s && p(x)
  {
    if s != [] {
      FilterMembers(p, Front(s));
      assert s == Front(s) + [Last(s)];
    }
  }

  lemma {:induction false} FilterAll<T>(p: T -> bool, s: seq<T>)
    requires forall x :: x in s ==> p(x)
    ensures Filter(p, s) == s
  {
    if s != [] {
      var front, last := Front(s), s[|s| - 1];
      assert s == front + [last];
      forall x | x in front ensures p(x) { assert x in s; }
      FilterAll(p, front);
      FilterSnoc(p, front, last);
    }
  }

  lemma {:induction false} FilterNone<T>(p: T -> bool, s: seq<T>)
    requires forall x :: x in s ==> !p(x)
    ensures Filter(p, s) == []
  {
    if s != [] {
      var front, last := Front(s), s[|s| - 1];
      assert s == front + [last];
      forall x | x in front ensures !p(x) { assert x in s; }
      FilterNone(p, front);
      FilterSnoc(p, front, last);
    }
  }

  lemma FilterNoneBefore<T>(p: T -> bool, s: seq<T>, k: nat)
    requires k <= |s| && forall i :: 0 <= i < k ==> !p(s[i])
    ensures Filter(p, s[..k]) == []
  {
    forall x | x in s[..k] ensures !p(x) {
      var i :| 0 <= i < k && s[i] == x;
    }
    FilterNone(p, s[..k]);
  }

  lemma FilterAllAfter<T>(p: T -> bool, s: seq<T>, k: nat)
    requires k <= |s| && forall i :: k <= i < |s| ==> p(s[i])
    ensures Filter(p, s[k..]) == s[k..]
  {
    forall x | x in s[k..] ensures p(x) {
      var i :| k <= i < |s| && s[i] == x;
    }
    FilterAll(p, s[k..]);
  }

  /** A selection that starts at k and then takes everything is a suffix. */
  lemma FilterCuts<T>(p: T -> bool, s: seq<T>, k: nat)
    requires k <= |s|
    requires forall i :: 0 <= i < |s| ==> (p(s[i]) <==> k <= i)
    ensures Filter(p, s) == s[k..]
  {
    FilterNoneBefore(p, s, k);
    FilterAllAfter(p, s, k);
    FilterConcat(p, s[..k], s[k..]);
    assert s == s[..k] + s[k..];
  }

  /** Where the selected elements stand. */
  function Positions<T>(p: T -> bool, s: seq<T>): seq<nat> {
    if s == [] then [] else Positions(p, Front(s)) + if p(Last(s)) then [|s| - 1] else []
  }

  ghost predicate Locates<T>(p: T -> bool, s: seq<T>, at: seq<nat>) { LocatesAll(p, s, Filter(p, s), at) }

  ghost predicate LocatesAll<T>(p: T -> bool, s: seq<T>, selected: seq<T>, at: seq<nat>) {
    && |at| == |selected|
    && (forall k :: 0 <= k < |at| ==> at[k] < |s| && p(s[at[k]]) && s[at[k]] == selected[k])
    && (forall k, l :: 0 <= k < l < |at| ==> at[k] < at[l])
    && (forall i: nat :: i < |s| && p(s[i]) ==> i in at)
  }

  /** A selected element found at the end stands there. */
  lemma LocatesOneMore<T>(p: T -> bool, s: seq<T>, x: T, selected: seq<T>, at: seq<nat>)
    requires LocatesAll(p, s, selected, at) && p(x)
    ensures LocatesAll(p, s + [x], selected + [x], at + [|s|])
  {
    var more := at + [|s|];
    assert more[|at|] == |s|;
    forall i: nat | i < |s + [x]| && p((s + [x])[i]) ensures i in more {
      if i < |s| { assert i in at; }
    }
  }

  /** An element not selected moves none. */
  lemma LocatesAsBefore<T>(p: T -> bool, s: seq<T>, x: T, selected: seq<T>, at: seq<nat>)
    requires LocatesAll(p, s, selected, at) && !p(x)
    ensures LocatesAll(p, s + [x], selected, at)
  {
    forall i: nat | i < |s + [x]| && p((s + [x])[i]) ensures i in at {
      assert i < |s| && i in at;
    }
  }

  lemma {:induction false} PositionsLocate<T>(p: T -> bool, s: seq<T>)
    ensures Locates(p, s, Positions(p, s))
  {
    if s != [] {
      var at, x := Positions(p, Front(s)), Last(s);
      EndsWithLast(s);
      PositionsLocate(p, Front(s));
      if p(x) {
        LocatesOneMore(p, Front(s), x, Filter(p, Front(s)), at);
      } else {
        LocatesAsBefore(p, Front(s), x, Filter(p, Front(s)), at);
      }
    }
  }

  /** Selecting commutes with a map that does not disturb the selection. */
  lemma {:induction false} FilterMap<T>(p: T -> bool, f: T -> T, s: seq<T>)
    requires forall x :: x in s ==> p(f(x)) == p(x)
    ensures Filter(p, Map(f, s)) == Map(f, Filter(p, s))
  {
    if s != [] {
      assert Last(s) in s && forall x :: x in Front(s) ==> x in s;
      assert Front(Map(f, s)) == Map(f, Front(s));
      FilterMap(p, f, Front(s));
    }
  }

  lemma {:induction false} FilterTwice<T(!new)>(p: T -> bool, q: T -> bool, both: T -> bool, s: seq<T>)
    requires forall x :: both(x) == (q(x) && p(x))
    ensures Filter(p, Filter(q, s)) == Filter(both, s)
  {
    if s != [] {
      FilterTwice(p, q, both, Front(s));
      if q(Last(s)) {
        assert Front(Filter(q, s)) == Filter(q, Front(s));
      } else {
        assert Filter(q, s) == Filter(q, Front(s));
      }
    }
  }

  lemma FlattenSnoc<T>(ss: seq<seq<T>>, s: seq<T>)
    ensures Flatten(ss + [s]) == Flatten(ss) + s
  {
    Joins(ss, s);
  }

  lemma {:induction false} FlattenConcat<T>(a: seq<seq<T>>, b: seq<seq<T>>)
    ensures Flatten(a + b) == Flatten(a) + Flatten(b)
  {
    if b == [] {
      assert a + b == a;
    } else {
      var front, last := Front(b), Last(b);
      EndsWithLast(b);
      assert a + b == (a + front) + [last];
      FlattenConcat(a, front);
      FlattenSnoc(a + front, last);
      FlattenSnoc(front, last);
      assert (Flatten(a) + Flatten(front)) + last == Flatten(a) + (Flatten(front) + last);
    }
  }
}
