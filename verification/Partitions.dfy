/** Greedy partitions of a list: each element joins the last group when it belongs with that group's first
    element, and opens a new group otherwise. Steps are such a partition of events, turns one of steps. */
module Partitions {
  import opened Sequences

  /** What one more element does to a partition. */
  function Grown<T>(belongs: (T, T) -> bool, groups: seq<seq<T>>, x: T): seq<seq<T>> {
    if groups != [] && Last(groups) != [] && belongs(Last(groups)[0], x)
    then Front(groups) + [Last(groups) + [x]]
    else groups + [[x]]
  }

  function Partition<T>(belongs: (T, T) -> bool, xs: seq<T>): seq<seq<T>> {
    if xs == [] then [] else Grown(belongs, Partition(belongs, Front(xs)), Last(xs))
  }

  /** A partition no two neighbours of which could have been grouped: every element of a group belongs with
      the group's first one, and the element opening the next group does not. */
  ghost predicate Greedy<T>(belongs: (T, T) -> bool, groups: seq<seq<T>>) {
    && (forall k :: 0 <= k < |groups| ==> Coherent(belongs, groups[k]))
    && (forall k :: 0 < k < |groups| ==> Separate(belongs, groups[k - 1], groups[k]))
  }

  ghost predicate Coherent<T>(belongs: (T, T) -> bool, group: seq<T>) {
    group != [] && forall i :: 0 < i < |group| ==> belongs(group[0], group[i])
  }

  ghost predicate Separate<T>(belongs: (T, T) -> bool, before: seq<T>, group: seq<T>) {
    before != [] && group != [] && !belongs(before[0], group[0])
  }

  lemma PartitionGrows<T>(belongs: (T, T) -> bool, xs: seq<T>, x: T)
    ensures Partition(belongs, xs + [x]) == Grown(belongs, Partition(belongs, xs), x)
  {
    Joins(xs, x);
  }

  lemma FlattenGrow<T>(lead: seq<seq<T>>, group: seq<T>, x: T)
    ensures Flatten(lead + [group + [x]]) == Flatten(lead + [group]) + [x]
  {
    FlattenSnoc(lead, group + [x]);
    FlattenSnoc(lead, group);
  }

  lemma GrownFlattens<T>(belongs: (T, T) -> bool, groups: seq<seq<T>>, x: T)
    ensures Flatten(Grown(belongs, groups, x)) == Flatten(groups) + [x]
  {
    FlattenSnoc(groups, [x]);
    if groups != [] {
      EndsWithLast(groups);
      FlattenGrow(Front(groups), Last(groups), x);
    }
  }

  /** Flattening the groups gives back exactly the elements, in order. */
  lemma {:induction false} PartitionFlattensBack<T>(belongs: (T, T) -> bool, xs: seq<T>)
    ensures Flatten(Partition(belongs, xs)) == xs
  {
    if xs != [] {
      EndsWithLast(xs);
      PartitionFlattensBack(belongs, Front(xs));
      GrownFlattens(belongs, Partition(belongs, Front(xs)), Last(xs));
    }
  }

  lemma GreedySnoc<T>(belongs: (T, T) -> bool, lead: seq<seq<T>>, group: seq<T>)
    ensures Greedy(belongs, lead + [group]) <==>
            (Greedy(belongs, lead) && Coherent(belongs, group) && (lead != [] ==> Separate(belongs, Last(lead), group)))
  {
    var groups := lead + [group];
    if Greedy(belongs, groups) {
      assert Coherent(belongs, groups[|lead|]);
      forall k | 0 <= k < |lead| ensures Coherent(belongs, lead[k]) { assert Coherent(belongs, groups[k]); }
      forall k | 0 < k < |lead| ensures Separate(belongs, lead[k - 1], lead[k]) {
        assert Separate(belongs, groups[k - 1], groups[k]);
      }
      if lead != [] { assert Separate(belongs, groups[|lead| - 1], groups[|lead|]); }
    }
  }

  lemma CoherentSnoc<T>(belongs: (T, T) -> bool, group: seq<T>, x: T)
    requires group != []
    ensures Coherent(belongs, group + [x]) <==> Coherent(belongs, group) && belongs(group[0], x)
  {
    var more := group + [x];
    assert more[0] == group[0] && more[|group|] == x;
    if Coherent(belongs, more) {
      forall i | 0 < i < |group| ensures belongs(group[0], group[i]) { assert more[i] == group[i]; }
    }
  }

  lemma GrownIsGreedy<T>(belongs: (T, T) -> bool, groups: seq<seq<T>>, x: T)
    requires Greedy(belongs, groups)
    ensures Greedy(belongs, Grown(belongs, groups, x))
  {
    GreedySnoc(belongs, groups, [x]);
    if groups != [] {
      var lead, group := Front(groups), Last(groups);
      EndsWithLast(groups);
      GreedySnoc(belongs, lead, group);
      GreedySnoc(belongs, lead, group + [x]);
      CoherentSnoc(belongs, group, x);
    }
  }

  lemma {:induction false} PartitionIsGreedy<T>(belongs: (T, T) -> bool, xs: seq<T>)
    ensures Greedy(belongs, Partition(belongs, xs))
  {
    if xs != [] {
      EndsWithLast(xs);
      PartitionIsGreedy(belongs, Front(xs));
      GrownIsGreedy(belongs, Partition(belongs, Front(xs)), Last(xs));
    }
  }

  /** Taking the last element out of a greedy partition leaves a greedy one that it grows back. */
  lemma Shrinks<T>(belongs: (T, T) -> bool, lead: seq<seq<T>>, group: seq<T>, x: T)
    requires Greedy(belongs, lead + [group + [x]])
    ensures var rest := if group == [] then lead else lead + [group];
            Greedy(belongs, rest) && Grown(belongs, rest, x) == lead + [group + [x]]
  {
    GreedySnoc(belongs, lead, group + [x]);
    if group == [] {
      assert group + [x] == [x];
    } else {
      CoherentSnoc(belongs, group, x);
      GreedySnoc(belongs, lead, group);
      Joins(lead, group);
      assert (group + [x])[0] == group[0];
    }
  }

  /** There is no other greedy partition of the same elements. */
  lemma {:induction false} PartitionIsUnique<T>(belongs: (T, T) -> bool, groups: seq<seq<T>>)
    requires Greedy(belongs, groups)
    ensures Partition(belongs, Flatten(groups)) == groups
    decreases |Flatten(groups)|
  {
    if groups != [] {
      EndsWithLast(groups);
      assert Coherent(belongs, groups[|groups| - 1]);
      EndsWithLast(Last(groups));
      UniqueStep(belongs, Front(groups), Front(Last(groups)), Last(Last(groups)));
    }
  }

  lemma {:induction false} UniqueStep<T>(belongs: (T, T) -> bool, lead: seq<seq<T>>, group: seq<T>, x: T)
    requires Greedy(belongs, lead + [group + [x]])
    ensures Partition(belongs, Flatten(lead + [group + [x]])) == lead + [group + [x]]
    decreases |Flatten(lead + [group + [x]])|, 0
  {
    var rest := if group == [] then lead else lead + [group];
    Shrinks(belongs, lead, group, x);
    GrownFlattens(belongs, rest, x);
    PartitionIsUnique(belongs, rest);
    PartitionGrows(belongs, Flatten(rest), x);
  }
}
