// The single-writer lease of a native CLI session: an exclusive OS lock plus a
// journal that marks an active writer before the writer is started.
module NativeWriter {
  import opened Common
  import opened Journals

  // The lease file: its bytes and which lease, if any, holds the OS lock on it.
  datatype Disk = Disk(bytes: string, holder: Option<nat>)

  // A held lease. `failed` is set while a journal write is not known to have succeeded.
  datatype Lease = Lease(owner: Option<string>, failed: bool)

  const BUSY := "context.in_use"
  const RECOVERY := "context.recovery_required"
  const UNAVAILABLE := "context.writer_unavailable"

  // ---- Specification ------------------------------------------------------------------

  function Acquirable(disk: Disk): Result<()> {
    if disk.holder.Some? then Err(BUSY)
    else if Read(disk.bytes) != IsIdle then Err(RECOVERY)
    else Ok(())
  }

  function MayBegin(lease: Lease): bool {
    !lease.failed && lease.owner.None?
  }

  function MayClear(lease: Lease): bool {
    !lease.failed && lease.owner.Some?
  }

  function AfterWrite(file: string, j: Journal, cut: Cut): string {
    Written(file, Encode(j), cut)
  }

  // A write that did not end well leaves the lease failed, with the owner it had.
  function Begun(lease: Lease, j: Journal, cut: Cut): Lease {
    if j.Active? && cut.Whole? && |Encode(j)| <= MAX_JOURNAL
    then Lease(Some(j.owner), false) else Lease(lease.owner, true)
  }

  function Cleared(lease: Lease, cut: Cut): Lease {
    if cut.Whole? then Lease(None, false) else Lease(lease.owner, true)
  }

  // Only an exact, active, unlocked journal is cleared by hand.
  function Recoverable(disk: Disk, owner: string, confirmed: bool): Result<()> {
    if !confirmed || !ValidOwner(owner) then Err(RECOVERY)
    else if disk.holder.Some? then Err(BUSY)
    else if Read(disk.bytes) != IsActive(owner) then Err(RECOVERY)
    else Ok(())
  }

  // ---- Writing in short steps ----------------------------------------------------------------

  class LockFile {
    var bytes: string
    var holder: Option<nat>

    constructor ()
      ensures bytes == "" && holder == None
    {
      bytes, holder := "", None;
    }

    ghost function AsDisk(): Disk
      reads this
    {
      Disk(bytes, holder)
    }

    // `writes` says how many bytes each attempt to write the remaining text takes;
    // nothing or less is a failure, as is running out of attempts. `synced` says
    // whether the final synchronization succeeds.
    method WriteText(data: string, writes: seq<int>, synced: bool) returns (cut: Cut)
      modifies this`bytes
      ensures bytes == Written(old(bytes), data, cut)
      ensures |data| <= MAX_JOURNAL && synced && |writes| >= |data|
              && (forall i :: 0 <= i < |writes| ==> writes[i] > 0)
              ==> cut.Whole?
      ensures |data| > MAX_JOURNAL ==> !cut.Whole?
    {
      if |data| > MAX_JOURNAL {
        return Stopped(0);
      }
      var done, attempt := 0, 0;
      while done < |data|
        invariant attempt <= done <= |data|
        invariant attempt <= |writes|
        invariant bytes == WriteAt(old(bytes), 1, data[..done])
        decreases |data| - done
      {
        if attempt == |writes| || writes[attempt] <= 0 {
          return Stopped(done);
        }
        var written := if writes[attempt] < |data| - done then writes[attempt] else |data| - done;
        ShortWrite(old(bytes), data, done, written);
        bytes := WriteAt(bytes, 1 + done, data[done..done + written]);
        done, attempt := done + written, attempt + 1;
      }
      assert data[..done] == data;
      bytes := Truncate(bytes, 1 + |data|);
      cut := if synced then Whole else Unsynced;
    }

    method WriteJournal(j: Journal, writes: seq<int>, synced: bool) returns (cut: Cut)
      modifies this`bytes
      ensures bytes == AfterWrite(old(bytes), j, cut)
      ensures cut.Whole? && WellFormed(j) ==> Holds(bytes, j)
      ensures |Encode(j)| <= MAX_JOURNAL && synced && |writes| >= |Encode(j)|
              && (forall i :: 0 <= i < |writes| ==> writes[i] > 0)
              ==> cut.Whole?
      ensures |Encode(j)| > MAX_JOURNAL ==> !cut.Whole?
    {
      cut := WriteText(Encode(j), writes, synced);
      if cut.Whole? && WellFormed(j) {
        ReplacedHolds(old(bytes), j);
      }
    }
  }

  // Two writes back to back are one write.
  lemma ShortWrite(file: string, data: string, done: nat, written: nat)
    requires done + written <= |data| && written > 0
    ensures WriteAt(WriteAt(file, 1, data[..done]), 1 + done, data[done..done + written])
         == WriteAt(file, 1, data[..done + written])
  {
    assert data[..done + written] == data[..done] + data[done..done + written];
    Consecutive(if file == "" then "\0" else file, data[..done], data[done..done + written]);
    if file == "" {
      PadOnce(data[..done + written]);
      if done > 0 {
        PadOnce(data[..done]);
      } else {
        PadOnce(data[done..done + written]);
      }
    }
  }

  lemma PadOnce(chunk: string)
    requires chunk != ""
    ensures WriteAt("", 1, chunk) == WriteAt("\0", 1, chunk)
  {
  }

  lemma Consecutive(file: string, a: string, b: string)
    requires file != "" && b != ""
    ensures WriteAt(WriteAt(file, 1, a), 1 + |a|, b) == WriteAt(file, 1, a + b)
  {
    if a == "" {
      assert a + b == b;
    } else {
      var once := WriteAt(file, 1, a);
      assert once[..1 + |a|] == file[..1] + a;
      var n := 1 + |a| + |b|;
      if n <= |file| {
        assert once[n..] == file[n..];
      }
    }
  }

  // ---- The lease --------------------------------------------------------------------------------

  class NativeWriterLease {
    const file: LockFile
    const id: nat
    var held: bool
    var owner: Option<string>
    var failed: bool

    ghost predicate Valid()
      reads this, file
    {
      held <==> file.holder == Some(id)
    }

    ghost function State(): Lease
      reads this
    {
      Lease(owner, failed)
    }

    constructor (file: LockFile, id: nat)
      requires file.holder != Some(id)
      ensures Valid() && !held && this.file == file && this.id == id
    {
      this.file := file;
      this.id := id;
      held, owner, failed := false, None, false;
    }

    method Acquire() returns (r: Result<()>)
      requires Valid()
      modifies this, file`holder
      ensures Valid()
      ensures r == if old(held) then Err(UNAVAILABLE) else Acquirable(old(file.AsDisk()))
      ensures r.Ok? <==> !old(held) && old(file.holder).None? && Read(old(file.bytes)) == IsIdle
      ensures r.Ok? ==> held && State() == Lease(None, false)
      ensures r == Err(BUSY) <==> !old(held) && old(file.holder).Some?
      ensures r.Err? ==> held == old(held) && State() == old(State()) && file.holder == old(file.holder)
    {
      if held {
        return Err(UNAVAILABLE);
      }
      if file.holder.Some? {
        return Err(BUSY);
      }
      file.holder := Some(id);
      if Read(file.bytes) != IsIdle {
        file.holder := None;
        return Err(RECOVERY);
      }
      held, owner, failed := true, None, false;
      r := Ok(());
    }

    method BeginProcess(j: Journal, writes: seq<int>, synced: bool) returns (r: Result<string>)
      requires Valid() && j.Active?
      modifies this`owner, this`failed, file`bytes
      ensures Valid()
      ensures if held && MayBegin(old(State()))
              then exists cut :: file.bytes == AfterWrite(old(file.bytes), j, cut)
                                 && State() == Begun(old(State()), j, cut)
                                 && (r.Ok? <==> !State().failed)
              else r.Err? && file.bytes == old(file.bytes) && State() == old(State())
      ensures r.Ok? ==> r.value == j.owner && (WellFormed(j) ==> Holds(file.bytes, j))
      ensures r.Ok? ==> held && !old(failed) && old(owner).None? && State() == Lease(Some(j.owner), false)
      ensures r.Err? ==> owner == old(owner) && (held && old(owner).None? ==> failed)
      ensures held && !old(failed) && old(owner).None? && |Encode(j)| <= MAX_JOURNAL && synced
              && |writes| >= |Encode(j)| && (forall i :: 0 <= i < |writes| ==> writes[i] > 0)
              ==> r.Ok?
    {
      if !held || failed || owner.Some? {
        return Err(UNAVAILABLE);
      }
      failed := true;
      var cut := file.WriteJournal(j, writes, synced);
      if !cut.Whole? {
        return Err(UNAVAILABLE);
      }
      owner, failed := Some(j.owner), false;
      r := Ok(j.owner);
    }

    method ProcessReaped(writes: seq<int>, synced: bool) returns (ok: bool)
      requires Valid()
      modifies this`owner, this`failed, file`bytes
      ensures Valid()
      ensures if held && MayClear(old(State()))
              then exists cut :: file.bytes == AfterWrite(old(file.bytes), Idle, cut)
                                 && State() == Cleared(old(State()), cut)
                                 && (ok <==> !State().failed)
              else !ok && file.bytes == old(file.bytes) && State() == old(State())
      ensures ok ==> Holds(file.bytes, Idle)
      ensures ok ==> held && !old(failed) && old(owner).Some? && State() == Lease(None, false)
      ensures !ok ==> owner == old(owner) && (held && old(owner).Some? ==> failed)
      ensures held && !old(failed) && old(owner).Some? && synced
              && |writes| >= |Encode(Idle)| && (forall i :: 0 <= i < |writes| ==> writes[i] > 0)
              ==> ok
    {
      if !held || failed || owner.None? {
        return false;
      }
      failed := true;
      EncodeState("idle");
      HeadLength();
      var cut := file.WriteJournal(Idle, writes, synced);
      if !cut.Whole? {
        return false;
      }
      owner, failed := None, false;
      ok := true;
    }

    // The journal stays as it is.
    method Release()
      requires Valid()
      modifies this, file`holder
      ensures Valid() && !held && State() == Lease(None, false)
      ensures file.holder == if old(held) then None else old(file.holder)
    {
      if held {
        file.holder := None;
      }
      held, owner, failed := false, None, false;
    }
  }

  // Clears a journal by hand, for a supervisor that is gone.
  method RecoverNativeWriter(file: LockFile, owner: string, confirmed: bool, writes: seq<int>, synced: bool)
    returns (r: Result<()>)
    modifies file`bytes
    ensures Recoverable(old(file.AsDisk()), owner, confirmed).Err? ==>
              r == Recoverable(old(file.AsDisk()), owner, confirmed) && file.bytes == old(file.bytes)
    ensures Recoverable(old(file.AsDisk()), owner, confirmed).Ok? ==>
              exists cut :: file.bytes == AfterWrite(old(file.bytes), Idle, cut) && (r.Ok? <==> cut.Whole?)
    ensures r.Ok? ==> Holds(file.bytes, Idle)
    ensures r.Ok? ==> confirmed && ValidOwner(owner) && file.holder.None? && Read(old(file.bytes)) == IsActive(owner)
    ensures file.bytes != old(file.bytes) ==>
              confirmed && ValidOwner(owner) && file.holder.None? && Read(old(file.bytes)) == IsActive(owner)
    ensures confirmed && ValidOwner(owner) && file.holder.None? && Read(old(file.bytes)) == IsActive(owner) && synced
            && |writes| >= |Encode(Idle)| && (forall i :: 0 <= i < |writes| ==> writes[i] > 0)
            ==> r.Ok?
  {
    if !confirmed || !ValidOwner(owner) {
      return Err(RECOVERY);
    }
    if file.holder.Some? {
      return Err(BUSY);
    }
    if Read(file.bytes) != IsActive(owner) {
      return Err(RECOVERY);
    }
    EncodeState("idle");
    HeadLength();
    var cut := file.WriteJournal(Idle, writes, synced);
    r := if cut.Whole? then Ok(()) else Err(UNAVAILABLE);
  }
}
