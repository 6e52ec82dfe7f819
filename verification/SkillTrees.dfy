// Replacing many installed trees as one operation that can be rolled back.
module SkillTrees {
  import opened Common

  // A destination is a spelling of a place; two spellings of one place have the same key.
  datatype Destination = Destination(spelling: string, key: string)

  // Staged copies and backups are siblings under fresh names.
  datatype Path = Dest(key: string) | Staged(n: nat) | Backup(n: nat)

  function Peek(trees: map<Path, string>, p: Path): Option<string> {
    if p in trees then Some(trees[p]) else None
  }

  // The first spelling of every place, in order.
  function Unique(ds: seq<Destination>): seq<Destination> {
    if ds == [] then []
    else
      var front := Unique(ds[..|ds| - 1]);
      var d := ds[|ds| - 1];
      if exists e :: e in front && e.key == d.key then front else front + [d]
  }

  predicate DistinctKeys(ds: seq<Destination>) {
    forall i, j :: 0 <= i < j < |ds| ==> ds[i].key != ds[j].key
  }

  predicate HasKey(ds: seq<Destination>, key: string) {
    exists d :: d in ds && d.key == key
  }

  lemma {:induction false} UniqueMeans(ds: seq<Destination>)
    ensures DistinctKeys(Unique(ds))
    ensures forall key :: HasKey(Unique(ds), key) <==> HasKey(ds, key)
    ensures forall d :: d in Unique(ds) ==> d in ds
  {
    if ds != [] {
      var front, d := ds[..|ds| - 1], ds[|ds| - 1];
      UniqueMeans(front);
      assert ds == front + [d];
      forall key
        ensures HasKey(Unique(ds), key) <==> HasKey(ds, key)
      {
        assert HasKey(ds, key) <==> HasKey(front, key) || d.key == key;
        if d.key == key && HasKey(Unique(front), key) {
          assert HasKey(Unique(ds), key);
        }
      }
    }
  }

  // Each place keeps its first spelling, and the places keep their order.
  lemma {:induction false} UniqueFirst(ds: seq<Destination>) returns (picked: seq<nat>)
    ensures |picked| == |Unique(ds)|
    ensures forall i, j :: 0 <= i < j < |picked| ==> picked[i] < picked[j]
    ensures forall i :: 0 <= i < |picked| ==> picked[i] < |ds| && Unique(ds)[i] == ds[picked[i]]
    ensures forall i, j :: 0 <= i < |picked| && 0 <= j < picked[i] ==> ds[j].key != ds[picked[i]].key
  {
    if ds == [] {
      picked := [];
    } else {
      var front, d := ds[..|ds| - 1], ds[|ds| - 1];
      var before := UniqueFirst(front);
      UniqueMeans(front);
      if HasKey(Unique(front), d.key) {
        picked := before;
      } else {
        picked := before + [|ds| - 1];
        assert !HasKey(front, d.key);
        forall j | 0 <= j < |front|
          ensures ds[j].key != d.key
        {
          assert front[j] in front;
        }
      }
      assert forall j :: 0 <= j < |front| ==> front[j] == ds[j];
    }
  }

  datatype Outcome = Replaced | RolledBack | CleanupFailed

  // The one step that fails, for the n-th destination. Undoing does not fail.
  datatype Fault = NoFault | StageFails(n: nat) | BackupFails(n: nat) | SwapFails(n: nat) | CleanupFails(n: nat)

  // No staged copy or backup is lying around.
  ghost predicate Tidy(trees: map<Path, string>) {
    forall p :: p in trees ==> p.Dest?
  }

  // The destinations: the first `done` of ds are replaced, the others as before.
  ghost predicate DestsAt(trees: map<Path, string>, before: map<Path, string>, ds: seq<Destination>, content: string, done: nat)
    requires done <= |ds|
  {
    forall key :: Peek(trees, Dest(key)) == if HasKey(ds[..done], key) then Some(content) else Peek(before, Dest(key))
  }

  // Backups exist of what the destinations from `first` to `last` held.
  ghost predicate BackupsAt(trees: map<Path, string>, before: map<Path, string>, ds: seq<Destination>, first: nat, last: nat)
    requires last <= |ds|
  {
    forall n: nat :: Peek(trees, Backup(n)) == if first <= n < last then Peek(before, Dest(ds[n].key)) else None
  }

  ghost predicate StagedAt(trees: map<Path, string>, content: string, first: nat, last: nat) {
    forall n: nat :: Peek(trees, Staged(n)) == if first <= n < last then Some(content) else None
  }

  // Whether the fault stops a replacement of these destinations.
  predicate Strikes(fault: Fault, trees: map<Path, string>, ds: seq<Destination>) {
    match fault
    case StageFails(n) => n < |ds|
    case BackupFails(n) => n < |ds| && Dest(ds[n].key) in trees
    case SwapFails(n) => n < |ds|
    case _ => false
  }

  class FileTrees {
    var trees: map<Path, string>

    constructor ()
      ensures trees == map[]
    {
      trees := map[];
    }

    method Move(from: Path, to: Path)
      requires from in trees && from != to
      modifies this
      ensures forall p :: Peek(trees, p)
                       == if p == to then Peek(old(trees), from) else if p == from then None else Peek(old(trees), p)
    {
      trees := trees[to := trees[from]] - {from};
    }

    method RemovePath(p: Path)
      modifies this
      ensures forall q :: Peek(trees, q) == if q == p then None else Peek(old(trees), q)
    {
      trees := trees - {p};
    }

    method StageAll(content: string, ds: seq<Destination>, fault: Fault) returns (staged: nat, ok: bool)
      requires StagedAt(trees, content, 0, 0)
      modifies this
      ensures staged <= |ds| && (ok ==> staged == |ds|)
      ensures StagedAt(trees, content, 0, staged)
      ensures forall p: Path :: !p.Staged? ==> Peek(trees, p) == Peek(old(trees), p)
      ensures !ok <==> fault.StageFails? && fault.n < |ds|
    {
      for n := 0 to |ds|
        invariant StagedAt(trees, content, 0, n)
        invariant forall p: Path :: !p.Staged? ==> Peek(trees, p) == Peek(old(trees), p)
        invariant fault.StageFails? ==> n <= fault.n
      {
        if fault == StageFails(n) {
          return n, false;
        }
        trees := trees[Staged(n) := content];
      }
      staged, ok := |ds|, true;
    }

    // Undoes the first `done` replacements, the last first.
    method RollBack(ghost before: map<Path, string>, ds: seq<Destination>, content: string, done: nat)
      requires DistinctKeys(ds) && done <= |ds|
      requires DestsAt(trees, before, ds, content, done) && BackupsAt(trees, before, ds, 0, done)
      modifies this
      ensures DestsAt(trees, before, ds, content, 0) && BackupsAt(trees, before, ds, 0, 0)
      ensures forall n: nat :: Peek(trees, Staged(n)) == Peek(old(trees), Staged(n))
    {
      for j := done downto 0
        invariant DestsAt(trees, before, ds, content, j) && BackupsAt(trees, before, ds, 0, j)
        invariant forall n: nat :: Peek(trees, Staged(n)) == Peek(old(trees), Staged(n))
      {
        Latest(ds, j + 1);
        NotAgain(ds, j);
        assert Peek(trees, Backup(j)) == Peek(before, Dest(ds[j].key));
        RemovePath(Dest(ds[j].key));
        if Backup(j) in trees {
          Move(Backup(j), Dest(ds[j].key));
        }
      }
    }

    // Backs each destination up and puts its staged copy there.
    method SwapAll(ghost before: map<Path, string>, content: string, ds: seq<Destination>, fault: Fault) returns (ok: bool)
      requires DistinctKeys(ds)
      requires DestsAt(trees, before, ds, content, 0) && BackupsAt(trees, before, ds, 0, 0)
      requires StagedAt(trees, content, 0, |ds|)
      modifies this
      ensures ok ==> DestsAt(trees, before, ds, content, |ds|) && BackupsAt(trees, before, ds, 0, |ds|)
                     && StagedAt(trees, content, |ds|, |ds|)
      ensures !ok ==> DestsAt(trees, before, ds, content, 0) && BackupsAt(trees, before, ds, 0, 0)
                      && forall n: nat :: n >= |ds| ==> Peek(trees, Staged(n)) == None
      ensures !ok <==> !fault.StageFails? && Strikes(fault, before, ds)
    {
      for i := 0 to |ds|
        invariant DestsAt(trees, before, ds, content, i) && BackupsAt(trees, before, ds, 0, i)
        invariant StagedAt(trees, content, i, |ds|)
        invariant fault.SwapFails? ==> i <= fault.n
        invariant fault.BackupFails? && i > fault.n ==> Dest(ds[fault.n].key) !in before
      {
        var failed := SwapOne(before, content, ds, i, fault);
        if failed {
          RollBack(before, ds, content, i);
          return false;
        }
      }
      ok := true;
    }

    // Backs one destination up and puts its staged copy there; a failure leaves it as it was.
    method SwapOne(ghost before: map<Path, string>, content: string, ds: seq<Destination>, i: nat, fault: Fault)
      returns (failed: bool)
      requires DistinctKeys(ds) && i < |ds|
      requires DestsAt(trees, before, ds, content, i) && BackupsAt(trees, before, ds, 0, i)
      requires StagedAt(trees, content, i, |ds|)
      modifies this
      ensures failed <==> fault == SwapFails(i) || (fault == BackupFails(i) && Dest(ds[i].key) in before)
      ensures failed ==> DestsAt(trees, before, ds, content, i) && BackupsAt(trees, before, ds, 0, i)
                         && StagedAt(trees, content, i, |ds|)
      ensures !failed ==> DestsAt(trees, before, ds, content, i + 1) && BackupsAt(trees, before, ds, 0, i + 1)
                          && StagedAt(trees, content, i + 1, |ds|)
    {
      Latest(ds, i + 1);
      NotAgain(ds, i);
      var dest := Dest(ds[i].key);
      assert Peek(trees, dest) == Peek(before, dest);
      failed := fault == BackupFails(i) && dest in trees;
      if !failed {
        if dest in trees {
          Move(dest, Backup(i));
        }
        failed := fault == SwapFails(i);
        if failed {
          if Backup(i) in trees {
            Move(Backup(i), dest);
          }
        } else {
          Move(Staged(i), dest);
        }
      }
    }

    method DropStaged(staged: nat)
      requires forall n: nat :: n >= staged ==> Peek(trees, Staged(n)) == None
      modifies this
      ensures forall n: nat :: Peek(trees, Staged(n)) == None
      ensures forall p: Path :: !p.Staged? ==> Peek(trees, p) == Peek(old(trees), p)
    {
      for n := 0 to staged
        invariant forall m: nat :: m < n || m >= staged ==> Peek(trees, Staged(m)) == None
        invariant forall p: Path :: !p.Staged? ==> Peek(trees, p) == Peek(old(trees), p)
      {
        RemovePath(Staged(n));
      }
    }

    method DropBackups(ghost before: map<Path, string>, ds: seq<Destination>, fault: Fault) returns (ok: bool)
      requires BackupsAt(trees, before, ds, 0, |ds|)
      modifies this
      ensures forall p: Path :: !p.Backup? ==> Peek(trees, p) == Peek(old(trees), p)
      ensures ok ==> BackupsAt(trees, before, ds, 0, 0)
      ensures !ok <==> fault.CleanupFails? && fault.n < |ds| && Dest(ds[fault.n].key) in before
    {
      for n := 0 to |ds|
        invariant BackupsAt(trees, before, ds, n, |ds|)
        invariant forall p: Path :: !p.Backup? ==> Peek(trees, p) == Peek(old(trees), p)
        invariant fault.CleanupFails? && n > fault.n ==> Dest(ds[fault.n].key) !in before
      {
        assert Peek(trees, Backup(n)) == Peek(before, Dest(ds[n].key));
        if fault == CleanupFails(n) && Backup(n) in trees {
          return false;
        }
        RemovePath(Backup(n));
      }
      ok := true;
    }

    // All or nothing: whatever staging, backup or swap fails, everything is as before;
    // otherwise every destination holds the content and nothing else has changed.
    method ReplaceAll(content: string, destinations: seq<Destination>, fault: Fault)
      returns (outcome: Outcome, completed: seq<string>)
      requires Tidy(trees)
      modifies this
      ensures outcome.RolledBack? <==> Strikes(fault, old(trees), Unique(destinations))
      ensures (fault.StageFails? || fault.SwapFails?) && fault.n < |Unique(destinations)| ==> outcome.RolledBack?
      ensures fault.BackupFails? && fault.n < |Unique(destinations)| ==>
                (outcome.RolledBack? <==> Dest(Unique(destinations)[fault.n].key) in old(trees))
      ensures fault.NoFault? || fault.CleanupFails? ==> !outcome.RolledBack?
      ensures outcome.RolledBack? ==> trees == old(trees) && completed == []
      ensures !outcome.RolledBack? ==>
                forall key :: Peek(trees, Dest(key)) ==
                  if HasKey(destinations, key) then Some(content) else Peek(old(trees), Dest(key))
      ensures outcome.Replaced? ==> Tidy(trees) && completed == Spellings(Unique(destinations))
      ensures outcome.CleanupFailed? <==>
                && fault.CleanupFails? && fault.n < |Unique(destinations)|
                && Dest(Unique(destinations)[fault.n].key) in old(trees)
      ensures outcome.CleanupFailed? ==> completed == []
    {
      UniqueMeans(destinations);
      var ds := UniqueDestinations(destinations);
      ghost var before := trees;
      Untouched(before, ds, content);
      var staged, ok := StageAll(content, ds, fault);
      assert DestsAt(trees, before, ds, content, 0) && BackupsAt(trees, before, ds, 0, 0);
      if ok {
        ok := SwapAll(before, content, ds, fault);
      }
      DropStaged(staged);
      if !ok {
        Restored(trees, before, ds, content);
        return RolledBack, [];
      }
      assert ds[..|ds|] == ds;
      ok := DropBackups(before, ds, fault);
      if !ok {
        return CleanupFailed, [];
      }
      AllDests(trees, before, ds);
      return Replaced, Spellings(ds);
    }
  }

  lemma Untouched(before: map<Path, string>, ds: seq<Destination>, content: string)
    requires Tidy(before)
    ensures StagedAt(before, content, 0, 0)
    ensures DestsAt(before, before, ds, content, 0) && BackupsAt(before, before, ds, 0, 0)
  {
  }

  lemma Restored(trees: map<Path, string>, before: map<Path, string>, ds: seq<Destination>, content: string)
    requires Tidy(before)
    requires DestsAt(trees, before, ds, content, 0) && BackupsAt(trees, before, ds, 0, 0)
    requires forall n: nat :: Peek(trees, Staged(n)) == None
    ensures trees == before
  {
    forall p
      ensures Peek(trees, p) == Peek(before, p)
    {
      match p
      case Dest(key) => assert !HasKey(ds[..0], key);
      case Staged(n) =>
      case Backup(n) =>
    }
    SameTrees(trees, before);
  }

  lemma AllDests(trees: map<Path, string>, before: map<Path, string>, ds: seq<Destination>)
    requires BackupsAt(trees, before, ds, 0, 0)
    requires forall n: nat :: Peek(trees, Staged(n)) == None
    ensures Tidy(trees)
  {
    forall p | p in trees
      ensures p.Dest?
    {
      assert Peek(trees, p).Some?;
    }
  }

  function Spellings(ds: seq<Destination>): seq<string> {
    seq(|ds|, i requires 0 <= i < |ds| => ds[i].spelling)
  }

  lemma SameTrees(a: map<Path, string>, b: map<Path, string>)
    requires forall p :: Peek(a, p) == Peek(b, p)
    ensures a == b
  {
    forall p
      ensures p in a <==> p in b
      ensures p in a ==> a[p] == b[p]
    {
      assert Peek(a, p) == Peek(b, p);
    }
  }

  // One more destination adds exactly its key.
  lemma Latest(ds: seq<Destination>, j: nat)
    requires 0 < j <= |ds|
    ensures forall key :: HasKey(ds[..j], key) <==> HasKey(ds[..j - 1], key) || ds[j - 1].key == key
  {
    assert ds[..j] == ds[..j - 1] + [ds[j - 1]];
    forall key
      ensures HasKey(ds[..j], key) <==> HasKey(ds[..j - 1], key) || ds[j - 1].key == key
    {
      if HasKey(ds[..j - 1], key) {
        var d :| d in ds[..j - 1] && d.key == key;
        assert d in ds[..j];
      }
      if ds[j - 1].key == key {
        assert ds[j - 1] in ds[..j];
      }
    }
  }

  lemma NotAgain(ds: seq<Destination>, i: nat)
    requires DistinctKeys(ds) && i < |ds|
    ensures !HasKey(ds[..i], ds[i].key)
  {
  }

  method UniqueDestinations(ds: seq<Destination>) returns (unique: seq<Destination>)
    ensures unique == Unique(ds)
  {
    unique := [];
    var seen: set<string> := {};
    for i := 0 to |ds|
      invariant unique == Unique(ds[..i])
      invariant forall key :: key in seen <==> HasKey(unique, key)
    {
      assert ds[..i + 1][..i] == ds[..i];
      if ds[i].key !in seen {
        seen := seen + {ds[i].key};
        ghost var shorter := unique;
        unique := unique + [ds[i]];
        assert unique[..|shorter| + 1] == unique && unique[..|shorter|] == shorter;
        Latest(unique, |unique|);
      }
    }
    assert ds[..|ds|] == ds;
  }
}
