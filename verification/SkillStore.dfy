// The content-addressed skill store and its records over installs and removals.
module SkillStore {
  import opened Common

  // A record of an installed skill, under its name and its scope.
  datatype Id = Id(name: string, scope: string)

  // The tree stored for a digest under a skill name.
  datatype Tree = Tree(digest: string, name: string)

  // What a stored tree's content digests to; a drifted one differs from its place.
  datatype World = World(records: map<Id, string>, store: map<Tree, string>)

  const EMPTY := World(map[], map[])

  // The step of an install that fails, if any.
  datatype Fault = NoFault | CopyFails | SourceChanges(found: string) | ReplaceFails | RecordFails

  // `bindingsOk` says whether the bound copies let the operation pass.
  datatype Action =
    | Install(id: Id, digest: string, force: bool, bindingsOk: bool, fault: Fault)
    | RemoveSkill(id: Id, force: bool, bindingsOk: bool, removalFails: bool)
    | Drift(tree: Tree, content: string)

  predicate Referenced(w: World, digest: string) {
    exists id :: id in w.records && w.records[id] == digest
  }

  function Collect(w: World, digest: string): World {
    if Referenced(w, digest) then w
    else w.(store := map t | t in w.store && t.digest != digest :: w.store[t])
  }

  predicate Intact(w: World, t: Tree) {
    t in w.store && w.store[t] == t.digest
  }

  // The installed status looks at the stored tree and at the bound copies.
  predicate Installed(w: World, id: Id, bindingsOk: bool) {
    id in w.records && Intact(w, Tree(w.records[id], id.name)) && bindingsOk
  }

  predicate Admitted(w: World, a: Action)
    requires a.Install?
  {
    a.force || (a.bindingsOk && (a.id in w.records ==> Installed(w, a.id, a.bindingsOk)))
  }

  // The store with the tree in place, or without it where that failed.
  function Stocked(w: World, a: Action): (World, bool)
    requires a.Install?
  {
    var t := Tree(a.digest, a.id.name);
    if t in w.store && w.store[t] != a.digest && !a.force then (w, false)
    else if Intact(w, t) then (w, true)
    else
      var without := w.(store := w.store - {t});
      if a.fault.CopyFails? || (a.fault.SourceChanges? && a.fault.found != a.digest) then (without, false)
      else (w.(store := w.store[t := a.digest]), true)
  }

  function Installing(w: World, a: Action): World
    requires a.Install?
  {
    if !Admitted(w, a) then w
    else
      var (stocked, ok) := Stocked(w, a);
      if !ok || a.fault.ReplaceFails? || a.fault.RecordFails? then stocked
      else
        var recorded := stocked.(records := stocked.records[a.id := a.digest]);
        if a.id in w.records && w.records[a.id] != a.digest then Collect(recorded, w.records[a.id]) else recorded
  }

  function Removing(w: World, a: Action): World
    requires a.RemoveSkill?
  {
    if a.id !in w.records then w
    else if !a.force && !Installed(w, a.id, a.bindingsOk) then w
    else if a.removalFails then w
    else Collect(w.(records := w.records - {a.id}), w.records[a.id])
  }

  function Step(w: World, a: Action): World {
    match a
    case Install(_, _, _, _, _) => Installing(w, a)
    case RemoveSkill(_, _, _, _) => Removing(w, a)
    case Drift(t, content) => if t in w.store then w.(store := w.store[t := content]) else w
  }

  function Run(w: World, actions: seq<Action>): World
    decreases |actions|
  {
    if actions == [] then w else Run(Step(w, actions[0]), actions[1..])
  }

  // ---- Referenced trees stay -----------------------------------------------------------------

  // Every record's tree is in the store.
  ghost predicate Complete(w: World) {
    forall id :: id in w.records ==> Tree(w.records[id], id.name) in w.store
  }

  // A forced install that throws a drifted tree away and then cannot replace it,
  // while a record refers to it.
  ghost predicate Lossy(w: World, a: Action) {
    && a.Install? && a.force
    && var t := Tree(a.digest, a.id.name);
       && t in w.store && w.store[t] != a.digest
       && (a.fault.CopyFails? || (a.fault.SourceChanges? && a.fault.found != a.digest))
       && exists scope :: Id(a.id.name, scope) in w.records && w.records[Id(a.id.name, scope)] == a.digest
  }

  // Collecting never takes a tree that a record refers to.
  lemma CollectKeepsReferenced(w: World, digest: string)
    requires Complete(w)
    ensures Complete(Collect(w, digest))
    ensures Collect(w, digest).records == w.records
  {
    var after := Collect(w, digest);
    forall id | id in after.records
      ensures Tree(after.records[id], id.name) in after.store
    {
      assert w.records[id] == digest ==> Referenced(w, digest);
    }
  }

  // A step leaves every record's tree in the store exactly unless it is a lossy install.
  lemma StepKeepsReferenced(w: World, a: Action)
    requires Complete(w)
    ensures Complete(Step(w, a)) <==> !Lossy(w, a)
  {
    match a
    case Install(id, digest, force, bindingsOk, fault) => InstallKeepsReferenced(w, a);
    case RemoveSkill(id, force, bindingsOk, removalFails) =>
      if id in w.records {
        CollectKeepsReferenced(w.(records := w.records - {id}), w.records[id]);
      }
    case Drift(t, content) =>
  }

  lemma InstallKeepsReferenced(w: World, a: Action)
    requires Complete(w) && a.Install?
    ensures Complete(Step(w, a)) <==> !Lossy(w, a)
  {
    if Admitted(w, a) {
      var t := Tree(a.digest, a.id.name);
      var (stocked, ok) := Stocked(w, a);
      if Lossy(w, a) {
        var scope :| Id(a.id.name, scope) in w.records && w.records[Id(a.id.name, scope)] == a.digest;
        assert !ok && t !in stocked.store;
        assert Step(w, a) == stocked;
        assert Id(a.id.name, scope) in stocked.records;
      } else {
        StockedComplete(w, a);
        if ok && !a.fault.ReplaceFails? && !a.fault.RecordFails? {
          var recorded := stocked.(records := stocked.records[a.id := a.digest]);
          assert Complete(recorded);
          if a.id in w.records {
            CollectKeepsReferenced(recorded, w.records[a.id]);
          }
        }
      }
    }
  }

  lemma StockedComplete(w: World, a: Action)
    requires Complete(w) && a.Install? && !Lossy(w, a)
    ensures var (stocked, ok) := Stocked(w, a);
            && Complete(stocked) && stocked.records == w.records
            && (ok ==> Intact(stocked, Tree(a.digest, a.id.name)))
  {
    var t := Tree(a.digest, a.id.name);
    var (stocked, ok) := Stocked(w, a);
    forall id | id in stocked.records
      ensures Tree(stocked.records[id], id.name) in stocked.store
    {
      assert Tree(w.records[id], id.name) in w.store;
      if Tree(w.records[id], id.name) == t {
        assert Id(a.id.name, id.scope) == id;
      }
    }
  }

  ghost predicate NeverLossy(w: World, actions: seq<Action>)
    decreases |actions|
  {
    actions == [] || (!Lossy(w, actions[0]) && NeverLossy(Step(w, actions[0]), actions[1..]))
  }

  // No sequence of installs, removals and drifts without a lossy install collects a
  // tree that a recorded skill refers to.
  lemma {:induction false} RunKeepsReferenced(w: World, actions: seq<Action>)
    requires Complete(w) && NeverLossy(w, actions)
    ensures Complete(Run(w, actions))
    decreases |actions|
  {
    if actions != [] {
      StepKeepsReferenced(w, actions[0]);
      RunKeepsReferenced(Step(w, actions[0]), actions[1..]);
    }
  }

  lemma ReferencedNeverCollected(actions: seq<Action>)
    requires NeverLossy(EMPTY, actions)
    ensures Complete(Run(EMPTY, actions))
  {
    RunKeepsReferenced(EMPTY, actions);
  }

  // When an install goes through: it is forced, or the copies and the present record are in
  // order; a drifted tree in its place needs force; a tree that is not there intact is
  // copied without fault; and neither the replacement nor the record fails. It then records
  // the digest over an intact tree, and takes along the old digest's trees exactly when no
  // record is left for it. Otherwise no record changes.
  lemma InstallExact(w: World, id: Id, digest: string, force: bool, bindingsOk: bool, fault: Fault)
    ensures var after := Step(w, Install(id, digest, force, bindingsOk, fault)); var t := Tree(digest, id.name);
            var intact := t in w.store && w.store[t] == digest;
            var goes := && (force || (bindingsOk && (id in w.records ==>
                              Tree(w.records[id], id.name) in w.store
                              && w.store[Tree(w.records[id], id.name)] == w.records[id])))
                        && (force || t !in w.store || intact)
                        && (intact || !(fault.CopyFails? || (fault.SourceChanges? && fault.found != digest)))
                        && !fault.ReplaceFails? && !fault.RecordFails?;
            && (!goes ==> after.records == w.records)
            && (goes ==>
                  && after.records == w.records[id := digest]
                  && t in after.store && after.store[t] == digest
                  && forall x :: x != t ==>
                       (x in after.store
                        <==> x in w.store
                             && (id in w.records && x.digest == w.records[id] ==>
                                   exists other :: other in after.records && after.records[other] == x.digest))
                       && (x in after.store ==> after.store[x] == w.store[x]))
  {
    var after := Step(w, Install(id, digest, force, bindingsOk, fault));
    if id in after.records && after.records[id] == digest {
      assert Referenced(after, digest);
    }
  }

  // A repair whose copy fails does lose a tree that another scope's record refers to.
  lemma FailedRepairLosesTree(digest: string, name: string, drifted: string)
    requires drifted != digest
    ensures var first, second := Id(name, "personal"), Id(name, "project");
            var actions := [Install(first, digest, false, true, NoFault), Drift(Tree(digest, name), drifted),
                            Install(second, digest, true, true, CopyFails)];
            var w := Run(EMPTY, actions);
            first in w.records && w.records[first] == digest && Tree(digest, name) !in w.store
  {
    var first, second := Id(name, "personal"), Id(name, "project");
    var a1, a2, a3 := Install(first, digest, false, true, NoFault), Drift(Tree(digest, name), drifted),
                      Install(second, digest, true, true, CopyFails);
    assert [a1, a2, a3][1..] == [a2, a3] && [a2, a3][1..] == [a3] && [a3][1..] == [];
    var w1 := Step(EMPTY, a1);
    assert w1 == World(map[first := digest], map[Tree(digest, name) := digest]);
    var w2 := Step(w1, a2);
    var w3 := Step(w2, a3);
    assert Run(EMPTY, [a1, a2, a3]) == Run(w1, [a2, a3]) == Run(w2, [a3]) == Run(w3, []) == w3;
  }

  // ---- The collection as the manager runs it -----------------------------------------------------

  class Manager {
    var records: map<Id, string>
    var store: map<Tree, string>

    ghost function State(): World
      reads this
    {
      World(records, store)
    }

    constructor ()
      ensures State() == EMPTY
    {
      records, store := map[], map[];
    }

    method CollectDigest(digest: string)
      modifies this`store
      ensures State() == Collect(old(State()), digest)
    {
      if exists id :: id in records && records[id] == digest {
        return;
      }
      store := map t | t in store && t.digest != digest :: store[t];
    }

    method Remove(id: Id, force: bool, bindingsOk: bool, removalFails: bool) returns (removed: bool)
      modifies this
      ensures State() == Removing(old(State()), RemoveSkill(id, force, bindingsOk, removalFails))
      ensures removed <==>
                && id in old(records) && !removalFails
                && (force || (bindingsOk && Tree(old(records)[id], id.name) in old(store)
                              && old(store)[Tree(old(records)[id], id.name)] == old(records)[id]))
      ensures !removed ==> State() == old(State())
      ensures removed ==>
                && records == old(records) - {id}
                && (forall t :: t in store <==>
                      t in old(store)
                      && (t.digest != old(records)[id] || exists other :: other in records && records[other] == t.digest))
                && (forall t :: t in store ==> store[t] == old(store)[t])
    {
      if id !in records {
        return false;
      }
      var digest := records[id];
      var t := Tree(digest, id.name);
      if !force && !(t in store && store[t] == digest && bindingsOk) {
        return false;
      }
      if removalFails {
        return false;
      }
      records := records - {id};
      CollectDigest(digest);
      removed := true;
    }
  }
}
