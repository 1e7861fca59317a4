/**
 Offline restore as a sequence of disk operations that may stop after any of them. Services
 start only without a restore marker; a restore runs alone, under the exclusive guard.
 */
module Restore {
  import opened DeliveryTypes

  /** A file by its content; `Torn` while a copy into it is unfinished. */
  datatype File = Absent | Torn | Whole(content: int)

  datatype Name = Db | Wal | Shm

  /** A database file and its two sidecars. */
  datatype Triple = Triple(db: File, wal: File, shm: File)

  /** The marker file exists before its text does. */
  datatype Marker = Unwritten | Names(safety: int)

  datatype Disk = Disk(live: Triple, staging: File, safety: map<int, Triple>, marker: Option<Marker>)

  function FileOf(t: Triple, n: Name): File {
    match n
    case Db => t.db
    case Wal => t.wal
    case Shm => t.shm
  }

  function WithFile(t: Triple, n: Name, f: File): Triple {
    match n
    case Db => t.(db := f)
    case Wal => t.(wal := f)
    case Shm => t.(shm := f)
  }

  // ---------------------------------------------------------------- the operations

  datatype Op =
    | BeginStaging | FinishStaging
    | MakeSafety
    | BeginCopy(name: Name) | FinishCopy(name: Name)
    | OpenMarker | WriteMarker
    | Retire(name: Name)
    | Replace
    | RemoveMarker

  /** `restore_database`, in its order. */
  const PROGRAM: seq<Op> := [
    BeginStaging, FinishStaging, MakeSafety,
    BeginCopy(Db), FinishCopy(Db), BeginCopy(Wal), FinishCopy(Wal), BeginCopy(Shm), FinishCopy(Shm),
    OpenMarker, WriteMarker, Retire(Wal), Retire(Shm), Replace, RemoveMarker]

  const MARKED: nat := 10
  const DONE: nat := 15

  function SafetyOf(d: Disk, id: int): Triple {
    if id in d.safety then d.safety[id] else Triple(Absent, Absent, Absent)
  }

  /** One operation of a restore of `backup` that keeps the old files in safety directory `id`. */
  function Do(d: Disk, op: Op, backup: int, id: int): Disk {
    match op
    case BeginStaging => d.(staging := Torn)
    case FinishStaging => d.(staging := Whole(backup))
    case MakeSafety => d.(safety := d.safety[id := Triple(Absent, Absent, Absent)])
    case BeginCopy(n) =>
      if FileOf(d.live, n).Absent? then d else d.(safety := d.safety[id := WithFile(SafetyOf(d, id), n, Torn)])
    case FinishCopy(n) =>
      if FileOf(d.live, n).Absent? then d
      else d.(safety := d.safety[id := WithFile(SafetyOf(d, id), n, FileOf(d.live, n))])
    case OpenMarker => d.(marker := Some(Unwritten))
    case WriteMarker => d.(marker := Some(Names(id)))
    case Retire(n) => d.(live := WithFile(d.live, n, Absent))
    case Replace => d.(live := d.live.(db := d.staging), staging := Absent)
    case RemoveMarker => d.(marker := None)
  }

  /** The disk after the first k operations. */
  function After(d: Disk, k: nat, backup: int, id: int): Disk
    requires k <= DONE
  {
    if k == 0 then d else Do(After(d, k - 1, backup, id), PROGRAM[k - 1], backup, id)
  }

  /** What is left when the restore stops after k operations: the staging file goes unless marked. */
  function Stopped(d: Disk, k: nat, crash: bool, backup: int, id: int): Disk
    requires k <= DONE
  {
    var d' := After(d, k, backup, id);
    if !crash && d'.marker.None? then d'.(staging := Absent) else d'
  }

  predicate MayRestore(d: Disk, id: int) {
    d.marker.None? && id !in d.safety
  }

  // ---------------------------------------------------------------- one restore

  function Replacement(backup: int): Triple {
    Triple(Whole(backup), Absent, Absent)
  }

  /** The saved files after k operations. */
  function Saved(live: Triple, k: nat): Triple {
    Triple(
      if k <= 3 || live.db.Absent? then Absent else if k == 4 then Torn else live.db,
      if k <= 5 || live.wal.Absent? then Absent else if k == 6 then Torn else live.wal,
      if k <= 7 || live.shm.Absent? then Absent else if k == 8 then Torn else live.shm)
  }

  /** Where the live files, the saved files and the marker stand after k operations. */
  ghost predicate Stands(d0: Disk, k: nat, backup: int, id: int, d: Disk) {
    && d.marker == (if k < MARKED || k == DONE then None else if k == MARKED then Some(Unwritten) else Some(Names(id)))
    && (2 <= k < 14 ==> d.staging == Whole(backup))
    && d.live == Triple(if k < 14 then d0.live.db else Whole(backup),
                        if k < 12 then d0.live.wal else Absent,
                        if k < 13 then d0.live.shm else Absent)
    && (k >= 3 ==> id in d.safety && d.safety[id] == Saved(d0.live, k))
    && (forall j :: j in d0.safety ==> j in d.safety && d.safety[j] == d0.safety[j])
  }

  lemma StandsStep(d0: Disk, k: nat, backup: int, id: int, d: Disk)
    requires MayRestore(d0, id) && k < DONE && Stands(d0, k, backup, id, d)
    ensures Stands(d0, k + 1, backup, id, Do(d, PROGRAM[k], backup, id))
  {
  }

  lemma {:induction false} StandsAfter(d0: Disk, k: nat, backup: int, id: int)
    requires MayRestore(d0, id) && k <= DONE
    ensures Stands(d0, k, backup, id, After(d0, k, backup, id))
  {
    if k > 0 {
      StandsAfter(d0, k - 1, backup, id);
      StandsStep(d0, k - 1, backup, id, After(d0, k - 1, backup, id));
    }
  }

  /**
   A restore that stops anywhere, by a crash or by an error: without a marker the live files
   are the old ones, or the replacement alone; with one, all the old files are in the safety
   directory, and either the marker names it or nothing live has been touched.
   */
  lemma CrashSafe(d: Disk, k: nat, crash: bool, backup: int, id: int)
    requires MayRestore(d, id) && k <= DONE
    ensures var s := Stopped(d, k, crash, backup, id);
            && (s.marker.None? ==> s.live == if k == DONE then Replacement(backup) else d.live)
            && (s.marker.Some? ==> id in s.safety && s.safety[id] == d.live)
            && (s.marker == Some(Unwritten) ==> s.live == d.live)
            && (s.marker.Some? && s.marker != Some(Unwritten) ==> s.marker == Some(Names(id)))
  {
    StandsAfter(d, k, backup, id);
  }

  // ---------------------------------------------------------------- the program itself

  class Database {
    var live: Triple
    var staging: File
    var safety: map<int, Triple>
    var marker: Option<Marker>

    function State(): Disk
      reads this
    {
      Disk(live, staging, safety, marker)
    }

    /** A service passes the shared guard. */
    method Start() returns (ok: bool)
      ensures ok <==> marker.None?
    {
      ok := marker.None?;
    }

    /** `stop` operations are performed; whatever comes next crashes or raises. */
    method RestoreDatabase(backup: int, id: int, stop: nat, crash: bool) returns (done: bool)
      modifies this
      ensures State() == if MayRestore(old(State()), id)
                         then Stopped(old(State()), if stop < DONE then stop else DONE, crash, backup, id)
                         else old(State())
      ensures done <==> MayRestore(old(State()), id) && stop >= DONE
    {
      if marker.Some? || id in safety {
        return false;
      }
      ghost var before := State();
      var k := 0;
      while k < DONE && k < stop
        invariant 0 <= k <= DONE && k <= stop
        invariant State() == After(before, k, backup, id)
      {
        Perform(PROGRAM[k], backup, id);
        k := k + 1;
      }
      if !crash && marker.None? {
        staging := Absent;
      }
      done := k == DONE;
    }

    method Perform(op: Op, backup: int, id: int)
      modifies this
      ensures State() == Do(old(State()), op, backup, id)
    {
      match op
      case BeginStaging => staging := Torn;
      case FinishStaging => staging := Whole(backup);
      case MakeSafety => safety := safety[id := Triple(Absent, Absent, Absent)];
      case BeginCopy(n) =>
        if !FileOf(live, n).Absent? {
          safety := safety[id := WithFile(SafetyOf(State(), id), n, Torn)];
        }
      case FinishCopy(n) =>
        if !FileOf(live, n).Absent? {
          safety := safety[id := WithFile(SafetyOf(State(), id), n, FileOf(live, n))];
        }
      case OpenMarker => marker := Some(Unwritten);
      case WriteMarker => marker := Some(Names(id));
      case Retire(n) => live := WithFile(live, n, Absent);
      case Replace => live, staging := live.(db := staging), Absent;
      case RemoveMarker => marker := None;
    }
  }

  // ---------------------------------------------------------------- every run

  /** Services write what they like; restores stop where they may. */
  datatype Action =
    | Service(files: Triple)
    | Recover(backup: int, id: int, stop: nat, crash: bool)

  /** The disk, and the files the last service or the last finished restore left. */
  datatype System = System(disk: Disk, intended: Triple)

  function Step(s: System, a: Action): System {
    match a
    case Service(files) => if s.disk.marker.Some? then s else System(s.disk.(live := files), files)
    case Recover(backup, id, stop, crash) =>
      if !MayRestore(s.disk, id) then s
      else
        var k := if stop < DONE then stop else DONE;
        System(Stopped(s.disk, k, crash, backup, id), if k == DONE then Replacement(backup) else s.intended)
  }

  function Run(s: System, actions: seq<Action>): System {
    if actions == [] then s else Step(Run(s, actions[..|actions| - 1]), actions[|actions| - 1])
  }

  /** A safety directory holds all the intended files. */
  ghost predicate Kept(s: System) {
    exists id :: id in s.disk.safety && s.disk.safety[id] == s.intended
                 && (s.disk.marker == Some(Unwritten) || s.disk.marker == Some(Names(id)))
  }

  ghost predicate Sound(s: System) {
    if s.disk.marker.None? then s.disk.live == s.intended
    else Kept(s) && (s.disk.marker == Some(Unwritten) ==> s.disk.live == s.intended)
  }

  lemma StepSound(s: System, a: Action)
    requires Sound(s)
    ensures Sound(Step(s, a))
  {
    if a.Recover? && MayRestore(s.disk, a.id) {
      var k := if a.stop < DONE then a.stop else DONE;
      CrashSafe(s.disk, k, a.crash, a.backup, a.id);
      StandsAfter(s.disk, k, a.backup, a.id);
    }
  }

  /**
   In every run of services and interrupted restores, a service that passes the guard finds
   exactly the files the last service or the last finished restore left; and while it is
   kept out, those files are complete in a safety directory.
   */
  lemma {:induction false} EveryRun(files: Triple, actions: seq<Action>)
    ensures Sound(Run(System(Disk(files, Absent, map[], None), files), actions))
  {
    if actions != [] {
      EveryRun(files, actions[..|actions| - 1]);
      StepSound(Run(System(Disk(files, Absent, map[], None), files), actions[..|actions| - 1]), actions[|actions| - 1]);
    }
  }
}
