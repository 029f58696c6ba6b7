/** The downgrade fence: an activation ladder over a directory whose unsynced entry changes a crash
    may lose, any subset of them.

    A disk is the three entries of `.meridian` the ladder touches, durable and pending, and the
    marker inside the tombstone directory. Every rung is one atomic step; `Workspace` runs the rungs
    in place, and `Next` interleaves any number of attempts with writers, failures and crashes. */
module Fence {
  import opened Bytes

  datatype Name = Tombstone | StagedLink | LockFile

  /** `FenceLink` is the symlink whose target is exactly the tombstone directory's name. */
  datatype Node = File | Dir | FenceLink | ForeignLink | Special

  type Entries = map<Name, Node>

  /** One unsynced entry change; a rename is one change of two entries. */
  datatype Change = Put(name: Name, node: Node) | Drop(dropped: Name) | Move(from: Name, to: Name, moved: Node)

  /** The tombstone directory's marker: the exact text, anything else, or nothing readable. */
  datatype Marker = Missing | Whole | Other | Unreadable

  datatype Disk = Disk(
    present: bool,         // `.meridian` is there
    rooted: bool,          // and its own entry is durable in the workspace root
    durable: Entries,
    pending: seq<Change>,
    marker: Marker,
    contentsSynced: bool,
    entrySynced: bool)

  datatype Status = NotInstalled | Active
  datatype Error = FenceState | WouldBlock | Io

  // ---- entries ---------------------------------------------------------------------------

  predicate Touches(c: Change, name: Name) {
    match c
    case Put(n, _) => n == name
    case Drop(n) => n == name
    case Move(from, to, _) => from == name || to == name
  }

  predicate Sets(c: Change, name: Name, node: Node) {
    match c
    case Put(n, v) => n == name && v == node
    case Drop(_) => false
    case Move(_, to, v) => to == name && v == node
  }

  function Apply(e: Entries, c: Change): Entries {
    match c
    case Put(name, node) => e[name := node]
    case Drop(name) => e - {name}
    case Move(from, to, node) => (e - {from})[to := node]
  }

  /** The entries once the changes at the kept positions reach the disk, in order. */
  function ApplyKept(e: Entries, changes: seq<Change>, keep: set<nat>): Entries {
    if changes == [] then e
    else
      var n := |changes| - 1;
      var before := ApplyKept(e, changes[..n], keep);
      if n in keep then Apply(before, changes[n]) else before
  }

  function ApplyAll(e: Entries, changes: seq<Change>): Entries {
    if changes == [] then e else Apply(ApplyAll(e, changes[..|changes| - 1]), changes[|changes| - 1])
  }

  function Current(d: Disk): Entries { ApplyAll(d.durable, d.pending) }

  function NodeAt(d: Disk, name: Name): Option<Node> {
    if d.present && name in Current(d) then Some(Current(d)[name]) else None
  }

  function Changed(d: Disk, c: Change): Disk { d.(pending := d.pending + [c]) }

  function SyncEntries(d: Disk): Disk { d.(durable := Current(d), pending := []) }

  function NoMeta(): Disk { Disk(false, false, map[], [], Missing, true, true) }

  /** `create_dir_all`: nothing when it is there, an empty directory when it is not. */
  function EnsureMeta(d: Disk): Disk {
    if d.present then d else NoMeta().(present := true)
  }

  // ---- status ----------------------------------------------------------------------------

  function StatusOf(d: Disk): Result<Status, Error> {
    match NodeAt(d, LockFile)
    case None => Ok(NotInstalled)
    case Some(File) => Ok(NotInstalled)
    case Some(FenceLink) =>
      (match NodeAt(d, Tombstone)
       case Some(Dir) =>
         if d.marker.Whole? then Ok(Active) else if d.marker.Unreadable? then Err(Io) else Err(FenceState)
       case _ => Err(FenceState))
    case Some(_) => Err(FenceState)
  }

  /** The hole the order exists for: the lock name links to a directory that is not there. */
  predicate Dangling(d: Disk) {
    NodeAt(d, LockFile) == Some(FenceLink) && NodeAt(d, Tombstone) == None
  }

  // ---- the steps of one attempt ----------------------------------------------------------

  datatype Pc =
    | Idle | Acquire | MakeTombstone | OpenMarker | WriteMarker | SyncMarker | SyncTombstone
    | SyncMeta | ClearStaged | Stage | Rename | SyncParent | Done(result: Result<(), Error>)

  function Rank(pc: Pc): nat {
    match pc
    case Idle => 12 case Acquire => 11 case MakeTombstone => 10 case OpenMarker => 9 case WriteMarker => 8
    case SyncMarker => 7 case SyncTombstone => 6 case SyncMeta => 5 case ClearStaged => 4 case Stage => 3
    case Rename => 2 case SyncParent => 1 case Done(_) => 0
  }

  /** The open half of `WriteLock::acquire`: it creates, and it follows a symlink. What lies behind
      a foreign symlink is not on this disk; opening through one is an I/O failure here. */
  function OpenLock(d0: Disk): (Result<(), Error>, Disk) {
    var d := EnsureMeta(d0);
    match NodeAt(d, LockFile)
    case None => (Ok(()), Changed(d, Put(LockFile, File)))
    case Some(File) => (Ok(()), d)
    case Some(FenceLink) =>
      (match NodeAt(d, Tombstone)
       case None => (Ok(()), Changed(d, Put(Tombstone, File)))
       case Some(File) => (Ok(()), d)
       case Some(_) => (Err(Io), d))
    case Some(_) => (Err(Io), d)
  }

  function BuildStep(pc: Pc, d: Disk): (Pc, Disk)
    requires pc.MakeTombstone? || pc.OpenMarker? || pc.WriteMarker? || pc.SyncMarker? || pc.SyncTombstone?
  {
    match pc
    case MakeTombstone =>
      var e := EnsureMeta(d);
      (match NodeAt(e, Tombstone)
       case Some(Dir) => (OpenMarker, e)
       case Some(_) => (Done(Err(FenceState)), e)
       case None => (OpenMarker, Changed(e, Put(Tombstone, Dir)).(marker := Missing, contentsSynced := false, entrySynced := false)))
    case OpenMarker =>
      if d.marker.Unreadable? then (Done(Err(Io)), d)
      else (WriteMarker, d.(marker := Other, contentsSynced := false, entrySynced := d.entrySynced && !d.marker.Missing?))
    case WriteMarker => (SyncMarker, d.(marker := Whole))
    case SyncMarker => (SyncTombstone, d.(contentsSynced := true))
    case SyncTombstone => (SyncMeta, d.(entrySynced := true))
  }

  function LinkStep(pc: Pc, d: Disk): (Pc, Disk)
    requires pc.ClearStaged? || pc.Stage? || pc.Rename?
  {
    match pc
    case ClearStaged =>
      (match NodeAt(d, StagedLink)
       case None => (Stage, d)
       case Some(Dir) => (Done(Err(Io)), d)
       case Some(_) => (Stage, Changed(d, Drop(StagedLink))))
    case Stage => (Rename, Changed(d, Put(StagedLink, FenceLink)))
    case Rename =>
      if NodeAt(d, StagedLink).None? || NodeAt(d, LockFile) == Some(Dir) then (Done(Err(Io)), d)
      else (SyncParent, Changed(d, Move(StagedLink, LockFile, NodeAt(d, StagedLink).value)))
  }

  /** One rung, the lock free to take: the next program counter and the disk it leaves. */
  function Step(pc: Pc, d: Disk): (r: (Pc, Disk))
    ensures pc.Done? || r.0.Done? || Rank(r.0) == Rank(pc) - 1
    ensures pc.Done? || Rank(r.0) < Rank(pc)
  {
    match pc
    case Idle =>
      (match StatusOf(d)
       case Ok(Active) => (Done(Ok(())), d)
       case Ok(NotInstalled) => (Acquire, d)
       case Err(e) => (Done(Err(e)), d))
    case Acquire => var (got, d') := OpenLock(d); (if got.Ok? then MakeTombstone else Done(got), d')
    case SyncMeta => (ClearStaged, SyncEntries(d))
    case ClearStaged => LinkStep(pc, d)
    case Stage => LinkStep(pc, d)
    case Rename => LinkStep(pc, d)
    case SyncParent => (Done(Ok(())), SyncEntries(d))
    case Done(_) => (pc, d)
    case _ => BuildStep(pc, d)
  }

  /** Running on from `pc`, undisturbed, until the attempt returns or `stop` is reached. */
  function RunTo(pc: Pc, d: Disk, stop: Pc): (r: (Pc, Disk))
    ensures r.0 == stop || r.0.Done?
    decreases Rank(pc)
  {
    if pc == stop || pc.Done? then (pc, d)
    else
      var (pc', d') := Step(pc, d);
      RunTo(pc', d', stop)
  }

  lemma RankTells(pc: Pc, mid: Pc)
    requires Rank(pc) == Rank(mid) && !pc.Done?
    ensures pc == mid
  {
  }

  lemma {:induction false} RunOn(pc: Pc, d: Disk, mid: Pc, stop: Pc)
    requires !mid.Done? && Rank(stop) < Rank(mid)
    requires pc.Done? || Rank(mid) <= Rank(pc)
    ensures var r := RunTo(pc, d, mid); RunTo(pc, d, stop) == RunTo(r.0, r.1, stop)
    decreases Rank(pc)
  {
    if pc != mid && !pc.Done? {
      if Rank(pc) == Rank(mid) { RankTells(pc, mid); }
      var next := Step(pc, d);
      RunOn(next.0, next.1, mid, stop);
    }
  }

  /** How a run reports: at its stop, or returned with the error. */
  predicate Reaches(pc: Pc, d: Disk, stop: Pc, r: Result<(), Error>, d': Disk) {
    RunTo(pc, d, stop) == (if r.Ok? then stop else Done(r), d')
  }

  lemma Continues(pc: Pc, d: Disk, mid: Pc, got: Result<(), Error>, d1: Disk, stop: Pc, r: Result<(), Error>, d2: Disk)
    requires Reaches(pc, d, mid, got, d1)
    requires !mid.Done? && Rank(stop) < Rank(mid) <= Rank(pc)
    requires if got.Ok? then Reaches(mid, d1, stop, r, d2) else r == got && d2 == d1
    ensures Reaches(pc, d, stop, r, d2)
  {
    RunOn(pc, d, mid, stop);
  }

  lemma Steps(pc: Pc, d: Disk, stop: Pc, r: Result<(), Error>, d': Disk)
    requires !pc.Done? && pc != stop
    requires Reaches(Step(pc, d).0, Step(pc, d).1, stop, r, d')
    ensures Reaches(pc, d, stop, r, d')
  {
  }

  lemma Locks(d: Disk, got: Result<(), Error>, locked: Disk, stop: Pc, r: Result<(), Error>, d': Disk)
    requires OpenLock(d) == (got, locked) && stop.Done?
    requires if got.Ok? then Reaches(MakeTombstone, locked, stop, r, d') else r == got && d' == locked
    ensures Reaches(Acquire, d, stop, r, d')
  {
    assert Step(Acquire, d) == (if got.Ok? then MakeTombstone else Done(got), locked);
  }

  lemma SyncSteps(d: Disk, stop: Pc, r: Result<(), Error>, d': Disk)
    requires stop != SyncMeta && Reaches(ClearStaged, SyncEntries(d), stop, r, d')
    ensures Reaches(SyncMeta, d, stop, r, d')
  {
    Steps(SyncMeta, d, stop, r, d');
  }

  /** Staging, then the rungs from the rename on if they are asked for. */
  lemma StagedThen(d: Disk, got: Result<(), Error>, staged: Disk, until: Phase, r: Result<(), Error>, d': Disk)
    requires until != TombstoneBuilt && until != MetaDirSynced && Reaches(ClearStaged, d, Rename, got, staged)
    requires if got.Ok? && until != Staged then Reaches(Rename, staged, After(until), r, d') else r == got && d' == staged
    ensures Reaches(ClearStaged, d, After(until), r, d')
  {
    if until != Staged { Continues(ClearStaged, d, Rename, got, staged, After(until), r, d'); }
  }

  // ---- the ladder in place ---------------------------------------------------------------

  datatype Phase = TombstoneBuilt | MetaDirSynced | Staged | Renamed | ParentSynced

  /** Where the ladder stands after a phase. */
  function After(phase: Phase): Pc {
    match phase
    case TombstoneBuilt => SyncMeta
    case MetaDirSynced => ClearStaged
    case Staged => Rename
    case Renamed => SyncParent
    case ParentSynced => Done(Ok(()))
  }

  class Workspace {
    var disk: Disk

    constructor (d: Disk)
      ensures disk == d
    {
      disk := d;
    }

    method CheckStatus() returns (r: Result<Status, Error>)
      ensures r == StatusOf(disk)
    {
      var lock := NodeAt(disk, LockFile);
      if lock.None? || lock.value.File? { return Ok(NotInstalled); }
      if lock.value.Dir? { return Err(FenceState); }
      if !lock.value.FenceLink? { return Err(FenceState); }
      var tomb := NodeAt(disk, Tombstone);
      if tomb.None? || !tomb.value.Dir? { return Err(FenceState); }
      if disk.marker.Unreadable? { return Err(Io); }
      if disk.marker.Whole? { return Ok(Active); }
      return Err(FenceState);
    }

    /** The marker, and it durable inside the tombstone directory. */
    method WriteTombstone() returns (r: Result<(), Error>)
      modifies this
      ensures Reaches(OpenMarker, old(disk), SyncMeta, r, disk)
    {
      ghost var start := disk;
      if disk.marker.Unreadable? { return Err(Io); }
      disk := disk.(marker := Other, contentsSynced := false, entrySynced := disk.entrySynced && !disk.marker.Missing?);
      ghost var open := disk;
      disk := disk.(marker := Whole);
      disk := disk.(contentsSynced := true);
      disk := disk.(entrySynced := true);
      r := Ok(());
      assert Reaches(WriteMarker, open, SyncMeta, r, disk);
    }

    /** The tombstone directory and its marker. */
    method BuildTombstone() returns (r: Result<(), Error>)
      modifies this
      ensures Reaches(MakeTombstone, old(disk), SyncMeta, r, disk)
    {
      ghost var start := disk;
      disk := EnsureMeta(disk);
      var tomb := NodeAt(disk, Tombstone);
      if tomb.Some? && !tomb.value.Dir? { return Err(FenceState); }
      if tomb.None? {
        disk := Changed(disk, Put(Tombstone, Dir)).(marker := Missing, contentsSynced := false, entrySynced := false);
      }
      r := WriteTombstone();
      Steps(MakeTombstone, start, SyncMeta, r, disk);
    }

    /** The inert symlink beside the lock file, whatever lay there before removed. */
    method StageLink() returns (r: Result<(), Error>)
      modifies this
      ensures Reaches(ClearStaged, old(disk), Rename, r, disk)
    {
      ghost var start := disk;
      var staged := NodeAt(disk, StagedLink);
      if staged.Some? {
        if staged.value.Dir? { return Err(Io); }
        disk := Changed(disk, Drop(StagedLink));
      }
      assert RunTo(ClearStaged, start, Rename) == RunTo(Stage, disk, Rename);
      disk := Changed(disk, Put(StagedLink, FenceLink));
      return Ok(());
    }

    /** The commit point: the symlink renamed over the lock file. */
    method RenameLink() returns (r: Result<(), Error>)
      modifies this
      ensures Reaches(Rename, old(disk), SyncParent, r, disk)
    {
      var link := NodeAt(disk, StagedLink);
      if link.None? || NodeAt(disk, LockFile) == Some(Dir) { return Err(Io); }
      disk := Changed(disk, Move(StagedLink, LockFile, link.value));
      return Ok(());
    }

    /** The rungs from the rename on. */
    method Commit(until: Phase) returns (r: Result<(), Error>)
      requires until == Renamed || until == ParentSynced
      modifies this
      ensures Reaches(Rename, old(disk), After(until), r, disk)
    {
      ghost var start := disk;
      r := RenameLink();
      if until == Renamed { return; }
      ghost var got, renamed := r, disk;
      if r.Ok? {
        disk := SyncEntries(disk);
        Steps(SyncParent, renamed, Done(Ok(())), r, disk);
      }
      Continues(Rename, start, SyncParent, got, renamed, Done(Ok(())), r, disk);
    }

    /** The rungs from the barrier on: the tombstone's entry durable before any link is staged. */
    method Publish(until: Phase) returns (r: Result<(), Error>)
      requires until != TombstoneBuilt
      modifies this
      ensures Reaches(SyncMeta, old(disk), After(until), r, disk)
    {
      ghost var start := disk;
      disk := SyncEntries(disk);
      if until == MetaDirSynced {
        SyncSteps(start, ClearStaged, Ok(()), disk);
        return Ok(());
      }
      r := StageLink();
      ghost var got, staged := r, disk;
      if r.Ok? && until != Staged { r := Commit(until); }
      StagedThen(SyncEntries(start), got, staged, until, r, disk);
      SyncSteps(start, After(until), r, disk);
    }

    /** The ladder up to and including a phase, rung by rung. */
    method ActivateUntil(until: Phase) returns (r: Result<(), Error>)
      modifies this
      ensures Reaches(MakeTombstone, old(disk), After(until), r, disk)
    {
      ghost var start := disk;
      r := BuildTombstone();
      if until == TombstoneBuilt { return; }
      ghost var got, built := r, disk;
      if r.Ok? { r := Publish(until); }
      Continues(MakeTombstone, start, SyncMeta, got, built, After(until), r, disk);
    }

    /** The lock, and under it the whole ladder. */
    method Install() returns (r: Result<(), Error>)
      modifies this
      ensures Reaches(Acquire, old(disk), Done(Ok(())), r, disk)
    {
      ghost var start := disk;
      var (got, locked) := OpenLock(disk);
      disk := locked;
      r := got;
      if got.Ok? { r := ActivateUntil(ParentSynced); }
      Locks(start, got, locked, Done(Ok(())), r, disk);
    }

    /** One whole attempt, the lock free to take. */
    method Activate() returns (r: Result<(), Error>)
      modifies this
      ensures Reaches(Idle, old(disk), Done(Ok(())), r, disk)
    {
      ghost var start := disk;
      r := Ok(());
      var status := CheckStatus();
      if status.Err? { return Err(status.error); }
      if status.value == NotInstalled { r := Install(); }
      Steps(Idle, start, Done(Ok(())), r, disk);
    }
  }
}
