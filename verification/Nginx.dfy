/** The vhost files of internal/nginx/manager.go: live, backup and staged configuration of
    each domain, and the steps by which they are replaced (internal/util/utilities.go). */
module NginxManager {
  import opened Text

  newtype byte = x: int | 0 <= x < 256
  type Bytes = seq<byte>
  type Files = map<string, Bytes>

  datatype Disk = Disk(live: Files, backup: Files, stage: Files)

  /** The three files of one domain. */
  datatype Cell = Cell(live: Option<Bytes>, backup: Option<Bytes>, stage: Option<Bytes>)

  function Get(m: Files, d: string): Option<Bytes> {
    if d in m then Some(m[d]) else None
  }

  function Set(m: Files, d: string, o: Option<Bytes>): Files {
    if o.Some? then m[d := o.value] else m - {d}
  }

  function CellOf(k: Disk, d: string): Cell {
    Cell(Get(k.live, d), Get(k.backup, d), Get(k.stage, d))
  }

  function SetCell(k: Disk, d: string, c: Cell): Disk {
    Disk(Set(k.live, d, c.live), Set(k.backup, d, c.backup), Set(k.stage, d, c.stage))
  }

  lemma SetCellOf(k: Disk, d: string, c: Cell)
    ensures CellOf(SetCell(k, d, c), d) == c
    ensures forall e :: e != d ==> CellOf(SetCell(k, d, c), e) == CellOf(k, e)
  {
  }

  lemma SetCellSame(k: Disk, d: string)
    ensures SetCell(k, d, CellOf(k, d)) == k
  {
    SetGet(k.live, d);
    SetGet(k.backup, d);
    SetGet(k.stage, d);
  }

  lemma SetGet(m: Files, d: string)
    ensures Set(m, d, Get(m, d)) == m
  {
  }

  lemma SetCellTwice(k: Disk, d: string, c1: Cell, c2: Cell)
    ensures SetCell(SetCell(k, d, c1), d, c2) == SetCell(k, d, c2)
  {
    SetTwice(k.live, d, c1.live, c2.live);
    SetTwice(k.backup, d, c1.backup, c2.backup);
    SetTwice(k.stage, d, c1.stage, c2.stage);
  }

  lemma SetTwice(m: Files, d: string, a: Option<Bytes>, b: Option<Bytes>)
    ensures Set(Set(m, d, a), d, b) == Set(m, d, b)
  {
  }

  lemma FilesExtensional(a: Files, b: Files)
    requires forall d :: Get(a, d) == Get(b, d)
    ensures a == b
  {
    forall d ensures d in a <==> d in b { assert Get(a, d) == Get(b, d); }
    forall d | d in a ensures a[d] == b[d] { assert Get(a, d) == Get(b, d); }
  }

  lemma DiskExtensional(a: Disk, b: Disk)
    requires forall d :: CellOf(a, d) == CellOf(b, d)
    ensures a == b
  {
    forall d
      ensures Get(a.live, d) == Get(b.live, d) && Get(a.backup, d) == Get(b.backup, d)
      ensures Get(a.stage, d) == Get(b.stage, d)
    {
      assert CellOf(a, d) == CellOf(b, d);
    }
    FilesExtensional(a.live, b.live);
    FilesExtensional(a.backup, b.backup);
    FilesExtensional(a.stage, b.stage);
  }

  // ---------------------------------------------------------------- what can go wrong

  /** How far an atomic write got: no temporary file, a partly written one, or a complete one
      that was never renamed. `leaks` says that removing the temporary file failed as well. */
  datatype WriteFault = NoFault | NoTemp | PartWritten(written: nat, leaks: bool) | NotRenamed(leaks: bool)

  datatype RemoveFaults = RemoveFaults(stat: bool, read: bool, backup: WriteFault, remove: bool)

  datatype PublishFaults = PublishFaults(readStage: bool, readLive: bool, stat: bool, readOld: bool, backup: WriteFault,
          live: WriteFault)

  datatype RollbackFaults = RollbackFaults(read: bool, write: WriteFault, remove: bool)

  datatype Published = Changed | Same | PublishError
  datatype Removed = Gone | Absent | RemoveError

  // ---------------------------------------------------------------- effects on one domain

  /** RemoveLiveSite: backup first, then remove. */
  function RemoveCell(c: Cell, f: RemoveFaults): (r: (Cell, Removed)) {
    if f.stat then (c, RemoveError)
    else if c.live.None? then (c, Absent)
    else if f.read || f.backup != NoFault then (c, RemoveError)
    else if f.remove then (c.(backup := c.live), RemoveError)
    else (c.(backup := c.live, live := None), Gone)
  }

  /** Publish: nothing to do when live and staged agree; otherwise backup (when a live file is
      seen) and replace. A failed stat of the live file skips the backup, as in the source. */
  function PublishCell(c: Cell, f: PublishFaults): (r: (Cell, Published)) {
    if c.stage.None? || f.readStage then (c, PublishError)
    else if !f.readLive && c.live == c.stage then (c, Same)
    else
      var saves := c.live.Some? && !f.stat;
      if saves && (f.readOld || f.backup != NoFault) then (c, PublishError)
      else
        var c1 := if saves then c.(backup := c.live) else c;
        if f.live != NoFault then (c1, PublishError) else (c1.(live := c.stage), Changed)
  }

  /** One round of rollbackFromBackup (internal/app/apply.go). */
  function RollbackCell(c: Cell, f: RollbackFaults): (r: Cell) {
    if !f.read && c.backup.Some? && c.backup.value != [] then
      if f.write == NoFault then c.(live := c.backup) else c
    else if f.remove then c else c.(live := None)
  }

  /** What a crash may leave of a domain whose live file is being replaced by `next`: the old
      live file, or the new one; and once the live file is no longer the old one, the backup
      holds the old one exactly (`saves` is false only if the old file could not be seen). */
  ghost predicate CrashPoint(before: Cell, next: Option<Bytes>, saves: bool, c: Cell) {
    && c.stage == before.stage
    && (c.live == before.live || c.live == next)
    && (c.live != before.live && before.live.Some? && saves ==> c.backup == before.live)
    && (c.backup == before.backup || c.backup == before.live)
  }

  datatype Area = LiveDir | BackupDir | StageDir

  function Put(c: Cell, area: Area, data: Bytes): Cell {
    match area
    case LiveDir => c.(live := Some(data))
    case BackupDir => c.(backup := Some(data))
    case StageDir => c.(stage := Some(data))
  }

  class Manager {
    var live: Files
    var backup: Files
    var stage: Files
    var temp: map<nat, Bytes>
    // The managed files after every file-system step so far: what a crash at that step leaves.
    ghost var trace: seq<Disk>

    function Now(): Disk
      reads this
    {
      Disk(live, backup, stage)
    }

    function Cell(d: string): Cell
      reads this
    {
      CellOf(Now(), d)
    }

    constructor (live: Files, backup: Files, stage: Files)
      ensures Now() == Disk(live, backup, stage) && temp == map[] && trace == []
    {
      this.live, this.backup, this.stage, temp, trace := live, backup, stage, map[], [];
    }

    /** Every step since `from` left domain `d` at a crash point and all other domains alone. */
    ghost predicate OnlyCrashPoints(from: nat, start: Disk, d: string, next: Option<Bytes>, saves: bool)
      reads this
    {
      forall k :: from <= k < |trace| ==>
        && CrashPoint(CellOf(start, d), next, saves, CellOf(trace[k], d))
        && (forall e :: e != d ==> CellOf(trace[k], e) == CellOf(start, e))
    }

    /** util.WriteFileAtomic: temporary file, write, sync, close, rename. */
    method WriteFileAtomic(area: Area, d: string, data: Bytes, f: WriteFault) returns (ok: bool)
      modifies this
      ensures ok <==> f == NoFault
      ensures Now() == if ok then SetCell(old(Now()), d, Put(CellOf(old(Now()), d), area, data)) else old(Now())
      ensures old(trace) <= trace
      ensures forall k :: |old(trace)| <= k < |trace| ==> trace[k] == old(Now()) || (ok && trace[k] == Now())
      ensures temp.Keys >= old(temp).Keys && forall t :: t in old(temp) ==> temp[t] == old(temp)[t]
      ensures ok ==> temp == old(temp)
      ensures f.PartWritten? || f.NotRenamed? ==> (temp == old(temp) <==> !f.leaks)
    {
      ghost var start, temps := Now(), temp;
      if f.NoTemp? { return false; }
      var name := FreshTemp();
      WriteTemp(name, []);                                 // os.CreateTemp
      if f.PartWritten? {
        WriteTemp(name, if f.written < |data| then data[..f.written] else data);
        Cleanup(name, f.leaks);
        TempGone(temps, name, if f.written < |data| then data[..f.written] else data);
        return false;
      }
      WriteTemp(name, data);                               // write, sync, close
      TempGone(temps, name, data);
      if f.NotRenamed? {
        Cleanup(name, f.leaks);
        return false;
      }
      Rename(name, area, d);
      return true;
    }

    static lemma TempGone(m: map<nat, Bytes>, name: nat, data: Bytes)
      requires name !in m
      ensures m[name := data] - {name} == m && m[name := data] != m
    {
      assert name in m[name := data];
    }

    method WriteTemp(name: nat, data: Bytes)
      modifies this`temp, this`trace
      ensures temp == old(temp)[name := data] && trace == old(trace) + [Now()]
    {
      temp := temp[name := data];
      trace := trace + [Now()];
    }

    /** os.Rename of a temporary file onto its destination: a single step. */
    method Rename(name: nat, area: Area, d: string)
      requires name in temp
      modifies this
      ensures Now() == SetCell(old(Now()), d, Put(CellOf(old(Now()), d), area, old(temp)[name]))
      ensures temp == old(temp) - {name} && trace == old(trace) + [Now()]
    {
      SetGet(live, d);
      SetGet(backup, d);
      SetGet(stage, d);
      match area {
        case LiveDir => live := live[d := temp[name]];
        case BackupDir => backup := backup[d := temp[name]];
        case StageDir => stage := stage[d := temp[name]];
      }
      temp := temp - {name};
      trace := trace + [Now()];
    }

    method FreshTemp() returns (name: nat)
      ensures name !in temp
    {
      var used := temp.Keys;
      name := 0;
      while used != {}
        invariant used <= temp.Keys
        invariant forall t :: t in temp && t !in used ==> t < name
        decreases |used|
      {
        var t :| t in used;
        if name <= t { name := t + 1; }
        used := used - {t};
      }
    }

    /** The deferred removal of the temporary file. */
    method Cleanup(name: nat, leaks: bool)
      modifies this`temp, this`trace
      ensures temp == if leaks then old(temp) else old(temp) - {name}
      ensures trace == old(trace) + [Now()]
    {
      if !leaks { temp := temp - {name}; }
      trace := trace + [Now()];
    }

    /** RemoveLiveSite, preceded by the stat of stageDeleteLiveConf. */
    method RemoveLiveSite(d: string, f: RemoveFaults) returns (r: Removed)
      modifies this
      ensures Now() == SetCell(old(Now()), d, RemoveCell(CellOf(old(Now()), d), f).0)
      ensures r == RemoveCell(CellOf(old(Now()), d), f).1
      ensures r == RemoveError ==> live == old(live)
      ensures old(trace) <= trace && OnlyCrashPoints(|old(trace)|, old(Now()), d, None, true)
    {
      ghost var k0, c0 := Now(), CellOf(Now(), d);
      SetCellSame(k0, d);
      if f.stat { return RemoveError; }
      if d !in live { return Absent; }
      if f.read { return RemoveError; }
      var saved := WriteFileAtomic(BackupDir, d, live[d], f.backup);
      if !saved { return RemoveError; }
      SetCellOf(k0, d, c0.(backup := c0.live));
      if f.remove { return RemoveError; }
      DropLive(d);
      SetCellOf(k0, d, c0.(backup := c0.live, live := None));
      SetCellTwice(k0, d, c0.(backup := c0.live), c0.(backup := c0.live, live := None));
      return Gone;
    }

    /** os.Remove of a live file: a single step. */
    method DropLive(d: string)
      modifies this`live, this`trace
      ensures live == old(live) - {d} && Now() == SetCell(old(Now()), d, CellOf(old(Now()), d).(live := None))
      ensures trace == old(trace) + [Now()]
    {
      SetGet(backup, d);
      SetGet(stage, d);
      live := live - {d};
      trace := trace + [Now()];
    }

    /** The write of RenderSiteToStaging. */
    method StageSite(d: string, content: Bytes, f: WriteFault) returns (ok: bool)
      modifies this
      ensures ok <==> f == NoFault
      ensures Now() == if ok then SetCell(old(Now()), d, CellOf(old(Now()), d).(stage := Some(content))) else old(Now())
      ensures live == old(live) && backup == old(backup)
      ensures old(trace) <= trace
      ensures forall k :: |old(trace)| <= k < |trace| ==> trace[k].live == old(live) && trace[k].backup == old(backup)
    {
      ok := WriteFileAtomic(StageDir, d, content, f);
    }

    method Publish(d: string, f: PublishFaults) returns (r: Published)
      modifies this
      ensures d == "" ==> r == PublishError && Now() == old(Now())
      ensures d != "" ==> Now() == SetCell(old(Now()), d, PublishCell(CellOf(old(Now()), d), f).0)
      ensures d != "" ==> r == PublishCell(CellOf(old(Now()), d), f).1
      ensures r == PublishError ==> live == old(live)
      ensures old(trace) <= trace
      ensures OnlyCrashPoints(|old(trace)|, old(Now()), d, Get(old(stage), d), !f.stat)
    {
      ghost var k0, c0 := Now(), CellOf(Now(), d);
      SetCellSame(k0, d);
      if d == "" { return PublishError; }
      if d !in stage || f.readStage { return PublishError; }
      var data := stage[d];
      if !f.readLive && d in live && live[d] == data { return Same; }
      ghost var c1 := c0;
      if !f.stat && d in live {
        if f.readOld { return PublishError; }
        var saved := WriteFileAtomic(BackupDir, d, live[d], f.backup);
        if !saved { return PublishError; }
        c1 := c0.(backup := c0.live);
        SetCellOf(k0, d, c1);
      }
      var written := WriteFileAtomic(LiveDir, d, data, f.live);
      SetCellOf(k0, d, c1.(live := c0.stage));
      SetCellTwice(k0, d, c1, c1.(live := c0.stage));
      return if written then Changed else PublishError;
    }

    /** rollbackFromBackup for one domain. */
    method Rollback(d: string, f: RollbackFaults)
      modifies this
      ensures Now() == SetCell(old(Now()), d, RollbackCell(CellOf(old(Now()), d), f))
    {
      SetCellSame(Now(), d);
      if !f.read && d in backup && backup[d] != [] {
        var _ := WriteFileAtomic(LiveDir, d, backup[d], f.write);
        return;
      }
      if !f.remove {
        DropLive(d);
      }
    }
  }

  // ---------------------------------------------------------------- undoing one change

  /** When a rollback of this domain would restore the live file exactly: an existing live file
      must be non-empty (and, if it cannot be seen at publish time, already backed up); a missing
      one must not have a non-empty backup left over from an earlier removal. */
  predicate Restorable(c: Cell, saves: bool) {
    match c.live
    case Some(was) => was != [] && (saves || c.backup == Some(was))
    case None => c.backup.None? || c.backup == Some([])
  }

  /** Publish then roll back is the identity on the live file exactly for restorable domains. */
  lemma PublishThenRollback(c: Cell, f: PublishFaults, g: RollbackFaults)
    requires PublishCell(c, f).1 == Changed
    requires !g.read && g.write == NoFault && !g.remove
    ensures RollbackCell(PublishCell(c, f).0, g).live == c.live <==> Restorable(c, !f.stat)
  {
  }

  /** Removal always backs up, so only an empty live file is lost. */
  lemma RemoveThenRollback(c: Cell, f: RemoveFaults, g: RollbackFaults)
    requires RemoveCell(c, f).1 == Gone
    requires !g.read && g.write == NoFault && !g.remove
    ensures RollbackCell(RemoveCell(c, f).0, g).live == c.live <==> Restorable(c, true)
  {
  }
}
