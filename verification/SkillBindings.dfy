// Merging newly resolved skill destinations with the ones recorded before.
module SkillBindings {
  import opened Common

  // `family` alone is index 0; `family#n` is index n.
  datatype Key = Key(family: string, index: nat)

  // Two spellings of one place have the same normal form.
  datatype Place = Place(spelling: string, normal: string)

  predicate Covers(m: map<Key, Place>, family: string, p: Place) {
    exists k :: k in m && k.family == family && m[k].normal == p.normal
  }

  // The family's keys from an index on.
  function KeysFrom(m: map<Key, Place>, family: string, from: nat): set<Key> {
    set k | k in m && k.family == family && k.index >= from
  }

  lemma FewerKeys(m: map<Key, Place>, family: string, from: nat)
    requires Key(family, from) in m
    ensures |KeysFrom(m, family, from + 1)| < |KeysFrom(m, family, from)|
  {
    assert KeysFrom(m, family, from) == KeysFrom(m, family, from + 1) + {Key(family, from)};
  }

  // The first index from `from` on that is free.
  function FreeIndex(m: map<Key, Place>, family: string, from: nat): (n: nat)
    ensures n >= from && Key(family, n) !in m
    ensures forall i :: from <= i < n ==> Key(family, i) in m
    decreases |KeysFrom(m, family, from)|
  {
    if Key(family, from) !in m then from
    else
      FewerKeys(m, family, from);
      FreeIndex(m, family, from + 1)
  }

  function MergeOne(m: map<Key, Place>, k: Key, p: Place): map<Key, Place> {
    if Covers(m, k.family, p) then m
    else if k !in m then m[k := p]
    else m[Key(k.family, FreeIndex(m, k.family, 2)) := p]
  }

  // `previous` is the recorded mapping in its iteration order.
  function Merge(current: map<Key, Place>, previous: seq<(Key, Place)>): map<Key, Place> {
    if previous == [] then current
    else
      var (k, p) := previous[|previous| - 1];
      MergeOne(Merge(current, previous[..|previous| - 1]), k, p)
  }

  method MergeBindingPaths(current: map<Key, Place>, previous: seq<(Key, Place)>) returns (merged: map<Key, Place>)
    ensures merged == Merge(current, previous)
  {
    merged := current;
    for i := 0 to |previous|
      invariant merged == Merge(current, previous[..i])
    {
      assert previous[..i + 1][..i] == previous[..i];
      var (k, p) := previous[i];
      if Covers(merged, k.family, p) {
        continue;
      }
      var key := k;
      if key in merged {
        var index := 2;
        while Key(k.family, index) in merged
          invariant index >= 2 && FreeIndex(merged, k.family, index) == FreeIndex(merged, k.family, 2)
          decreases |KeysFrom(merged, k.family, index)|
        {
          FewerKeys(merged, k.family, index);
          index := index + 1;
        }
        key := Key(k.family, index);
      }
      merged := merged[key := p];
    }
    assert previous[..|previous|] == previous;
  }

  // ---- Properties ------------------------------------------------------------------------

  // An entry of the result is current or was recorded for the same family.
  ghost predicate FromPrevious(previous: seq<(Key, Place)>, family: string, p: Place) {
    exists i :: 0 <= i < |previous| && previous[i].0.family == family && previous[i].1 == p
  }

  ghost predicate Submap(a: map<Key, Place>, b: map<Key, Place>) {
    forall k :: k in a ==> k in b && a[k] == b[k]
  }

  ghost predicate CoversAll(m: map<Key, Place>, previous: seq<(Key, Place)>) {
    forall i :: 0 <= i < |previous| ==> Covers(m, previous[i].0.family, previous[i].1)
  }

  ghost predicate NothingElse(m: map<Key, Place>, current: map<Key, Place>, previous: seq<(Key, Place)>) {
    forall k :: k in m && k !in current ==> FromPrevious(previous, k.family, m[k])
  }

  // Nothing current changes, no recorded place is lost, and nothing else appears.
  lemma {:induction false} MergeKeepsAll(current: map<Key, Place>, previous: seq<(Key, Place)>)
    ensures var m := Merge(current, previous);
            Submap(current, m) && CoversAll(m, previous) && NothingElse(m, current, previous)
  {
    if previous != [] {
      var n := |previous| - 1;
      var (k, p) := previous[n];
      MergeKeepsAll(current, previous[..n]);
      var before := Merge(current, previous[..n]);
      OneKeeps(before, k, p);
      OneCoversAll(before, previous);
      OneNothingElse(before, current, previous);
    }
  }

  lemma OneCoversAll(before: map<Key, Place>, previous: seq<(Key, Place)>)
    requires previous != [] && CoversAll(before, previous[..|previous| - 1])
    ensures var (k, p) := previous[|previous| - 1]; CoversAll(MergeOne(before, k, p), previous)
  {
    var n := |previous| - 1;
    var (k, p) := previous[n];
    var after := MergeOne(before, k, p);
    OneKeeps(before, k, p);
    forall i | 0 <= i < |previous|
      ensures Covers(after, previous[i].0.family, previous[i].1)
    {
      if i < n {
        assert previous[..n][i] == previous[i];
        CoversGrows(before, after, previous[i].0.family, previous[i].1);
      }
    }
  }

  lemma OneNothingElse(before: map<Key, Place>, current: map<Key, Place>, previous: seq<(Key, Place)>)
    requires previous != [] && NothingElse(before, current, previous[..|previous| - 1])
    ensures var (k, p) := previous[|previous| - 1]; NothingElse(MergeOne(before, k, p), current, previous)
  {
    var n := |previous| - 1;
    var (k, p) := previous[n];
    var after := MergeOne(before, k, p);
    OneKeeps(before, k, p);
    forall x | x in after && x !in current
      ensures FromPrevious(previous, x.family, after[x])
    {
      if x in before {
        var front := previous[..n];
        var i :| 0 <= i < |front| && front[i].0.family == x.family && front[i].1 == before[x];
        assert previous[i] == front[i];
      } else {
        assert previous[n].0.family == x.family && previous[n].1 == after[x];
      }
    }
  }

  lemma OneKeeps(m: map<Key, Place>, k: Key, p: Place)
    ensures var after := MergeOne(m, k, p);
            && (forall x :: x in m ==> x in after && after[x] == m[x])
            && (forall x :: x in after && x !in m ==> x.family == k.family && after[x] == p && !Covers(m, k.family, p))
            && Covers(after, k.family, p)
  {
    var after := MergeOne(m, k, p);
    if !Covers(m, k.family, p) {
      var key := if k in m then Key(k.family, FreeIndex(m, k.family, 2)) else k;
      assert key in after && key.family == k.family && after[key].normal == p.normal;
    }
  }

  // An uncovered place goes under its own key if that is free, and otherwise under the first
  // free one of its family from two on. A covered one adds nothing.
  lemma OneAdds(m: map<Key, Place>, k: Key, p: Place)
    ensures var after := MergeOne(m, k, p);
            if exists x :: x in m && x.family == k.family && m[x].normal == p.normal then after == m
            else if k !in m then after == m[k := p]
            else exists n: nat :: n >= 2 && after == m[Key(k.family, n) := p] && Key(k.family, n) !in m
                                  && forall i :: 2 <= i < n ==> Key(k.family, i) in m
  {
    if k in m && !Covers(m, k.family, p) {
      var n := FreeIndex(m, k.family, 2);
      assert MergeOne(m, k, p) == m[Key(k.family, n) := p];
    }
  }

  lemma CoversGrows(m: map<Key, Place>, after: map<Key, Place>, family: string, p: Place)
    requires forall x :: x in m ==> x in after && after[x] == m[x]
    requires Covers(m, family, p)
    ensures Covers(after, family, p)
  {
    var k :| k in m && k.family == family && m[k].normal == p.normal;
    assert k in after;
  }

  // An entry that was added is the only one of its family for its place.
  ghost predicate AddedOnce(current: map<Key, Place>, m: map<Key, Place>) {
    forall k, x :: k in m && k !in current && x in m && x != k && x.family == k.family ==> m[x].normal != m[k].normal
  }

  lemma {:induction false} MergeAddsOnce(current: map<Key, Place>, previous: seq<(Key, Place)>)
    ensures AddedOnce(current, Merge(current, previous))
  {
    if previous != [] {
      var n := |previous| - 1;
      var (k, p) := previous[n];
      MergeAddsOnce(current, previous[..n]);
      MergeKeepsAll(current, previous[..n]);
      OneKeeps(Merge(current, previous[..n]), k, p);
    }
  }

  // Merging entries of the result again adds no others.
  lemma {:induction false} MergeStays(current: map<Key, Place>, m: map<Key, Place>, again: seq<(Key, Place)>)
    requires Submap(current, m) && AddedOnce(current, m)
    requires forall i :: 0 <= i < |again| ==> again[i].0 in m && m[again[i].0] == again[i].1
    ensures Submap(current, Merge(current, again)) && Submap(Merge(current, again), m)
    ensures forall i :: 0 <= i < |again| ==> again[i].0 in Merge(current, again)
  {
    if again != [] {
      var n := |again| - 1;
      var front := again[..n];
      var (k, p) := again[n];
      MergeStays(current, m, front);
      var before := Merge(current, front);
      assert again[n].0 in m && m[k] == p;
      if k in before {
        assert before[k].normal == p.normal && Covers(before, k.family, p);
      } else {
        assert !Covers(before, k.family, p) by {
          forall x | x in before && x.family == k.family
            ensures before[x].normal != p.normal
          {
            assert x in m && x != k && k !in current;
          }
        }
      }
      forall i | 0 <= i < |again|
        ensures again[i].0 in Merge(current, again)
      {
        if i < n {
          assert front[i] == again[i];
        }
      }
    }
  }

  // An enumeration of a mapping, in any order.
  ghost predicate Enumerates(items: seq<(Key, Place)>, m: map<Key, Place>) {
    && (forall i :: 0 <= i < |items| ==> items[i].0 in m && m[items[i].0] == items[i].1)
    && (forall k :: k in m ==> exists i :: 0 <= i < |items| && items[i].0 == k)
  }

  // Installing again with the same bindings finds the recorded mapping unchanged.
  lemma MergeIdempotent(current: map<Key, Place>, previous: seq<(Key, Place)>, recorded: seq<(Key, Place)>)
    requires Enumerates(recorded, Merge(current, previous))
    ensures Merge(current, recorded) == Merge(current, previous)
  {
    var m := Merge(current, previous);
    MergeKeepsAll(current, previous);
    MergeAddsOnce(current, previous);
    MergeStays(current, m, recorded);
    var again := Merge(current, recorded);
    forall k
      ensures k in again <==> k in m
      ensures k in again ==> again[k] == m[k]
    {
      if k in m {
        var i :| 0 <= i < |recorded| && recorded[i].0 == k;
        assert recorded[i].0 in again;
      }
    }
  }
}
