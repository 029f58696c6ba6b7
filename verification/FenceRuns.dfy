/** Any number of activation attempts and writers over one disk, each step of which may be the last
    before a failure or a crash: what every reachable disk, and every crash survivor, looks like. */
module FenceRuns {
  import opened Bytes
  import opened Fence
  import opened Positions

  // ---- what the disk keeps ---------------------------------------------------------------

  /** Some crash leaves, or the current view shows, this node under this name. */
  ghost predicate Possible(d: Disk, name: Name, node: Node) {
    (name in d.durable && d.durable[name] == node) || exists c :: c in d.pending && Sets(c, name, node)
  }

  ghost predicate Untouched(d: Disk, name: Name) {
    forall c :: c in d.pending ==> !Touches(c, name)
  }

  /** The tombstone directory and its marker, beyond the reach of any crash. */
  ghost predicate Sealed(d: Disk) {
    && d.present && Tombstone in d.durable && d.durable[Tombstone] == Dir && Untouched(d, Tombstone)
    && d.marker.Whole? && d.contentsSynced && d.entrySynced
  }

  predicate LinkDurable(d: Disk) { LockFile in d.durable && d.durable[LockFile] == FenceLink }

  /** The lock name holds a plain file or nothing, unless over a sealed tombstone; and a link that is
      durable there is never unsettled again. */
  ghost predicate Sound(d: Disk) {
    && (!d.present ==> d.durable == map[] && d.pending == [])
    && (forall node :: Possible(d, LockFile, node) ==> node.File? || node.FenceLink?)
    && (Possible(d, LockFile, FenceLink) ==> Sealed(d) && NodeAt(d, LockFile) == Some(FenceLink))
    && (LinkDurable(d) ==> Untouched(d, LockFile))
  }

  /** Nothing the ladder cannot replace stands in its way. */
  ghost predicate Tidy(d: Disk) {
    && !d.marker.Unreadable?
    && (forall node :: Possible(d, Tombstone, node) ==> node.Dir?)
    && (forall node :: Possible(d, StagedLink, node) ==> !node.Dir?)
  }

  /** What an attempt at `pc`, holding the lock, knows of the disk. */
  ghost predicate Local(pc: Pc, d: Disk) {
    match pc
    case Idle => true
    case Acquire => true
    case MakeTombstone => NodeAt(d, LockFile) != Some(FenceLink)
    case OpenMarker => Built(d)
    case WriteMarker => Built(d) && !d.marker.Unreadable?
    case SyncMarker => Built(d) && d.marker.Whole?
    case SyncTombstone => Built(d) && d.marker.Whole? && d.contentsSynced
    case SyncMeta => Built(d) && d.marker.Whole? && d.contentsSynced && d.entrySynced
    case ClearStaged => Built(d) && Sealed(d)
    case Stage => Built(d) && Sealed(d)
    case Rename => Built(d) && Sealed(d) && NodeAt(d, StagedLink) == Some(FenceLink)
    case SyncParent => NodeAt(d, LockFile) == Some(FenceLink)
    case Done(r) => r.Ok? ==> NodeAt(d, LockFile) == Some(FenceLink)
  }

  predicate Built(d: Disk) {
    NodeAt(d, LockFile) != Some(FenceLink) && NodeAt(d, Tombstone) == Some(Dir)
  }

  // ---- entries ---------------------------------------------------------------------------

  lemma {:induction false} KeptFrom(e: Entries, changes: seq<Change>, keep: set<nat>, name: Name)
    requires name in ApplyKept(e, changes, keep)
    ensures var v := ApplyKept(e, changes, keep)[name];
            (name in e && e[name] == v) || exists c :: c in changes && Sets(c, name, v)
  {
    if changes != [] {
      var n := |changes| - 1;
      var v := ApplyKept(e, changes, keep)[name];
      if n in keep && Sets(changes[n], name, v) {
        assert changes[n] in changes;
      } else {
        KeptFrom(e, changes[..n], keep, name);
      }
    }
  }

  lemma {:induction false} KeptUntouched(e: Entries, changes: seq<Change>, keep: set<nat>, name: Name)
    requires forall c :: c in changes ==> !Touches(c, name)
    ensures name in ApplyKept(e, changes, keep) <==> name in e
    ensures name in e ==> ApplyKept(e, changes, keep)[name] == e[name]
  {
    if changes != [] {
      assert changes[|changes| - 1] in changes;
      KeptUntouched(e, changes[..|changes| - 1], keep, name);
    }
  }

  lemma {:induction false} AllKept(e: Entries, changes: seq<Change>, keep: set<nat>)
    requires forall i: nat :: i < |changes| ==> i in keep
    ensures ApplyAll(e, changes) == ApplyKept(e, changes, keep)
  {
    if changes != [] { AllKept(e, changes[..|changes| - 1], keep); }
  }

  /** The current view holds only what is durable or pending. */
  lemma CurrentFrom(d: Disk, name: Name)
    requires name in Current(d)
    ensures Possible(d, name, Current(d)[name])
  {
    var all := Below(|d.pending|);
    AllKept(d.durable, d.pending, all);
    KeptFrom(d.durable, d.pending, all, name);
  }

  lemma CurrentUntouched(d: Disk, name: Name)
    requires Untouched(d, name)
    ensures name in Current(d) <==> name in d.durable
    ensures name in d.durable ==> Current(d)[name] == d.durable[name]
  {
    var all := Below(|d.pending|);
    AllKept(d.durable, d.pending, all);
    KeptUntouched(d.durable, d.pending, all, name);
  }

  lemma CurrentChanged(d: Disk, c: Change)
    ensures Current(Changed(d, c)) == Apply(Current(d), c)
  {
    var p := d.pending + [c];
    assert p[..|p| - 1] == d.pending;
  }

  lemma PossibleChanged(d: Disk, c: Change, name: Name, node: Node)
    requires Possible(Changed(d, c), name, node)
    ensures Possible(d, name, node) || Sets(c, name, node)
  {
  }

  lemma PossibleSynced(d: Disk, name: Name, node: Node)
    requires Possible(SyncEntries(d), name, node)
    ensures Possible(d, name, node) && name in Current(d) && Current(d)[name] == node
  {
    CurrentFrom(d, name);
  }

  lemma SealedStaysThroughChange(d: Disk, c: Change)
    requires Sealed(d) && !Touches(c, Tombstone)
    ensures Sealed(Changed(d, c))
  {
  }

  lemma SealedStaysThroughSync(d: Disk)
    requires Sealed(d)
    ensures Sealed(SyncEntries(d))
  {
    CurrentUntouched(d, Tombstone);
  }

  lemma SealedShows(d: Disk)
    requires Sealed(d)
    ensures NodeAt(d, Tombstone) == Some(Dir)
  {
    CurrentUntouched(d, Tombstone);
  }

  /** Every sound disk answers one of the two states, and never dangles. */
  lemma SoundIsCertified(d: Disk)
    requires Sound(d)
    ensures !Dangling(d)
    ensures StatusOf(d) == Ok(if NodeAt(d, LockFile) == Some(FenceLink) then Active else NotInstalled)
  {
    if NodeAt(d, LockFile).Some? {
      CurrentFrom(d, LockFile);
      if NodeAt(d, LockFile) == Some(FenceLink) { SealedShows(d); }
    }
  }

  // ---- one step --------------------------------------------------------------------------

  /** A change that leaves the lock name alone keeps a disk whose lock is a plain file sound. */
  lemma PlainChange(d: Disk, c: Change)
    requires Sound(d) && d.present && !Possible(d, LockFile, FenceLink)
    requires forall node :: Sets(c, LockFile, node) ==> node.File?
    ensures Sound(Changed(d, c))
    ensures !Possible(Changed(d, c), LockFile, FenceLink)
  {
    var d' := Changed(d, c);
    forall node | Possible(d', LockFile, node) ensures Possible(d, LockFile, node) || node.File? {
      PossibleChanged(d, c, LockFile, node);
    }
    assert !Possible(d', LockFile, FenceLink);
  }

  lemma FileMeansUnfenced(d: Disk)
    requires Sound(d) && NodeAt(d, LockFile) != Some(FenceLink)
    ensures !Possible(d, LockFile, FenceLink)
  {
  }

  lemma EnsureMetaKeeps(d: Disk)
    requires Sound(d)
    ensures Sound(EnsureMeta(d)) && (Tidy(d) ==> Tidy(EnsureMeta(d)))
  {
  }

  lemma OpenLockKeeps(d: Disk)
    requires Sound(d)
    ensures var (got, d') := OpenLock(d);
            Sound(d') && (got.Ok? ==> NodeAt(d', LockFile) == Some(File))
            && (NodeAt(d, LockFile) == Some(FenceLink) ==> got.Err? && d' == d)
            && (NodeAt(d, LockFile) == Some(File) ==> got.Ok? && d' == d)
  {
    EnsureMetaKeeps(d);
    var e := EnsureMeta(d);
    match NodeAt(e, LockFile)
    case None =>
      FileMeansUnfenced(e);
      PlainChange(e, Put(LockFile, File));
      CurrentChanged(e, Put(LockFile, File));
    case Some(FenceLink) => CurrentFrom(e, LockFile); SealedShows(e);
    case Some(_) =>
  }

  lemma BuildStepKeeps(pc: Pc, d: Disk)
    requires pc.MakeTombstone? || pc.OpenMarker? || pc.WriteMarker? || pc.SyncMarker? || pc.SyncTombstone?
    requires Sound(d) && Local(pc, d)
    ensures var (pc', d') := BuildStep(pc, d); Sound(d') && Local(pc', d')
  {
    FileMeansUnfenced(d);
    if pc.MakeTombstone? {
      EnsureMetaKeeps(d);
      var e := EnsureMeta(d);
      FileMeansUnfenced(e);
      if NodeAt(e, Tombstone) == None {
        PlainChange(e, Put(Tombstone, Dir));
        CurrentChanged(e, Put(Tombstone, Dir));
        var c := Changed(e, Put(Tombstone, Dir));
        MarkerAside(c, Missing, false, false);
        MarkerAsideEntries(c, Missing, false, false);
      }
    } else {
      var d' := BuildStep(pc, d).1;
      MarkerAside(d, d'.marker, d'.contentsSynced, d'.entrySynced);
      MarkerAsideEntries(d, d'.marker, d'.contentsSynced, d'.entrySynced);
    }
  }

  lemma MarkerAside(d: Disk, m: Marker, contents: bool, entry: bool)
    requires Sound(d) && !Possible(d, LockFile, FenceLink)
    ensures Sound(d.(marker := m, contentsSynced := contents, entrySynced := entry))
  {
    var d' := d.(marker := m, contentsSynced := contents, entrySynced := entry);
    assert forall node :: Possible(d', LockFile, node) <==> Possible(d, LockFile, node);
  }

  lemma MarkerAsideEntries(d: Disk, m: Marker, contents: bool, entry: bool)
    ensures var d' := d.(marker := m, contentsSynced := contents, entrySynced := entry);
            forall name :: NodeAt(d', name) == NodeAt(d, name)
  {
  }

  lemma SyncKeeps(d: Disk)
    requires Sound(d)
    ensures Sound(SyncEntries(d))
    ensures forall name :: NodeAt(SyncEntries(d), name) == NodeAt(d, name)
  {
    var d' := SyncEntries(d);
    forall node | Possible(d', LockFile, node) ensures Possible(d, LockFile, node) {
      PossibleSynced(d, LockFile, node);
    }
    if Possible(d', LockFile, FenceLink) { SealedStaysThroughSync(d); }
  }

  /** The barrier: once `.meridian` is synced the tombstone is out of reach. */
  lemma BarrierSeals(d: Disk)
    requires Local(SyncMeta, d)
    ensures Sealed(SyncEntries(d))
  {
  }

  lemma LinkStepKeeps(pc: Pc, d: Disk)
    requires pc.ClearStaged? || pc.Stage?
    requires Sound(d) && Local(pc, d)
    ensures var (pc', d') := LinkStep(pc, d); Sound(d') && Local(pc', d')
  {
    FileMeansUnfenced(d);
    var c := if pc.Stage? then Put(StagedLink, FenceLink) else Drop(StagedLink);
    PlainChange(d, c);
    CurrentChanged(d, c);
    SealedStaysThroughChange(d, c);
  }

  /** The commit point: over a sealed tombstone, the link takes the lock name. */
  lemma RenameKeeps(d: Disk)
    requires Sound(d) && Local(Rename, d)
    ensures var (pc', d') := LinkStep(Rename, d); Sound(d') && pc' == SyncParent && Local(pc', d')
  {
    var c := Move(StagedLink, LockFile, FenceLink);
    var d' := Changed(d, c);
    FileMeansUnfenced(d);
    if NodeAt(d, LockFile).Some? { CurrentFrom(d, LockFile); }
    CurrentChanged(d, c);
    SealedStaysThroughChange(d, c);
    forall node | Possible(d', LockFile, node) ensures node.File? || node.FenceLink? {
      PossibleChanged(d, c, LockFile, node);
    }
  }

  lemma StepKeeps(pc: Pc, d: Disk)
    requires Sound(d) && Local(pc, d)
    ensures var (pc', d') := Step(pc, d); Sound(d') && Local(pc', d')
  {
    match pc
    case Idle => SoundIsCertified(d);
    case Acquire => OpenLockKeeps(d);
    case SyncMeta => SyncKeeps(d); BarrierSeals(d);
    case ClearStaged => LinkStepKeeps(pc, d);
    case Stage => LinkStepKeeps(pc, d);
    case Rename => RenameKeeps(d);
    case SyncParent => SyncKeeps(d);
    case Done(_) =>
    case _ => BuildStepKeeps(pc, d);
  }

  // ---- a rerun ---------------------------------------------------------------------------

  lemma TidyChanged(d: Disk, c: Change)
    requires Tidy(d)
    requires forall node :: Sets(c, Tombstone, node) ==> node.Dir?
    requires forall node :: Sets(c, StagedLink, node) ==> !node.Dir?
    ensures Tidy(Changed(d, c))
  {
    var d' := Changed(d, c);
    forall node | Possible(d', Tombstone, node) ensures node.Dir? { PossibleChanged(d, c, Tombstone, node); }
    forall node | Possible(d', StagedLink, node) ensures !node.Dir? { PossibleChanged(d, c, StagedLink, node); }
  }

  lemma TidyAside(d: Disk, m: Marker, contents: bool, entry: bool)
    requires Tidy(d) && !m.Unreadable?
    ensures Tidy(d.(marker := m, contentsSynced := contents, entrySynced := entry))
  {
    var d' := d.(marker := m, contentsSynced := contents, entrySynced := entry);
    assert forall name, node :: Possible(d', name, node) <==> Possible(d, name, node);
  }

  lemma TidySynced(d: Disk)
    requires Tidy(d)
    ensures Tidy(SyncEntries(d))
  {
    var d' := SyncEntries(d);
    forall node | Possible(d', Tombstone, node) ensures node.Dir? { PossibleSynced(d, Tombstone, node); }
    forall node | Possible(d', StagedLink, node) ensures !node.Dir? { PossibleSynced(d, StagedLink, node); }
  }

  lemma OpenLockTidy(d: Disk)
    requires Sound(d) && Tidy(d)
    ensures Tidy(OpenLock(d).1)
    ensures NodeAt(d, LockFile) != Some(FenceLink) ==> OpenLock(d).0.Ok?
  {
    EnsureMetaKeeps(d);
    var e := EnsureMeta(d);
    if NodeAt(e, LockFile).Some? {
      CurrentFrom(e, LockFile);
      if NodeAt(e, LockFile) == Some(FenceLink) { SealedShows(e); }
    } else {
      TidyChanged(e, Put(LockFile, File));
    }
  }

  lemma BuildStepTidy(pc: Pc, d: Disk)
    requires pc.MakeTombstone? || pc.OpenMarker? || pc.WriteMarker? || pc.SyncMarker? || pc.SyncTombstone?
    requires Sound(d) && Local(pc, d) && Tidy(d)
    ensures var (pc', d') := BuildStep(pc, d); Tidy(d') && !pc'.Done?
  {
    if pc.MakeTombstone? {
      EnsureMetaKeeps(d);
      var e := EnsureMeta(d);
      if NodeAt(e, Tombstone) == None {
        TidyChanged(e, Put(Tombstone, Dir));
        TidyAside(Changed(e, Put(Tombstone, Dir)), Missing, false, false);
      } else {
        CurrentFrom(e, Tombstone);
      }
    } else {
      var d' := BuildStep(pc, d).1;
      TidyAside(d, d'.marker, d'.contentsSynced, d'.entrySynced);
    }
  }

  lemma LinkStepTidy(pc: Pc, d: Disk)
    requires pc.ClearStaged? || pc.Stage? || pc.Rename?
    requires Sound(d) && Local(pc, d) && Tidy(d)
    ensures var (pc', d') := LinkStep(pc, d); Tidy(d') && !pc'.Done?
  {
    var c := match pc
      case ClearStaged => Drop(StagedLink)
      case Stage => Put(StagedLink, FenceLink)
      case Rename => Move(StagedLink, LockFile, FenceLink);
    TidyChanged(d, c);
    if pc.ClearStaged? && NodeAt(d, StagedLink).Some? { CurrentFrom(d, StagedLink); }
    if pc.Rename? && NodeAt(d, LockFile).Some? { CurrentFrom(d, LockFile); }
  }

  lemma StepTidy(pc: Pc, d: Disk)
    requires Sound(d) && Local(pc, d) && Tidy(d)
    ensures Tidy(Step(pc, d).1)
  {
    match pc
    case Idle =>
    case Acquire => OpenLockTidy(d);
    case SyncMeta => TidySynced(d);
    case ClearStaged => LinkStepTidy(pc, d);
    case Stage => LinkStepTidy(pc, d);
    case Rename => LinkStepTidy(pc, d);
    case SyncParent => TidySynced(d);
    case Done(_) =>
    case _ => BuildStepTidy(pc, d);
  }

  /** Under the lock, over a tidy disk, no rung fails. */
  lemma StepAdvances(pc: Pc, d: Disk)
    requires Sound(d) && Local(pc, d) && Tidy(d)
    requires !pc.Idle? && !pc.Acquire? && !pc.Done?
    ensures var pc' := Step(pc, d).0; pc' == Done(Ok(())) || (Rank(pc') == Rank(pc) - 1 && !pc'.Done?)
  {
    match pc
    case SyncMeta =>
    case ClearStaged => LinkStepTidy(pc, d);
    case Stage => LinkStepTidy(pc, d);
    case Rename => LinkStepTidy(pc, d);
    case SyncParent =>
    case _ => BuildStepTidy(pc, d);
  }

  lemma {:induction false} LadderCompletes(pc: Pc, d: Disk)
    requires Sound(d) && Local(pc, d) && Tidy(d)
    requires !pc.Idle? && !pc.Acquire? && (pc.Done? ==> pc == Done(Ok(())))
    ensures var r := RunTo(pc, d, Done(Ok(())));
            r.0 == Done(Ok(())) && Sound(r.1) && Tidy(r.1) && Local(r.0, r.1)
    decreases Rank(pc)
  {
    if !pc.Done? {
      var next := Step(pc, d);
      StepKeeps(pc, d);
      StepTidy(pc, d);
      StepAdvances(pc, d);
      LadderCompletes(next.0, next.1);
    }
  }

  /** From every sound and tidy disk one undisturbed attempt returns Ok and leaves the fence active. */
  lemma RerunEndsActive(d: Disk)
    requires Sound(d) && Tidy(d)
    ensures var r := RunTo(Idle, d, Done(Ok(())));
            r.0 == Done(Ok(())) && Sound(r.1) && StatusOf(r.1) == Ok(Active)
  {
    SoundIsCertified(d);
    if NodeAt(d, LockFile) != Some(FenceLink) {
      OpenLockKeeps(d);
      OpenLockTidy(d);
      LadderCompletes(MakeTombstone, OpenLock(d).1);
      var r := RunTo(MakeTombstone, OpenLock(d).1, Done(Ok(())));
      AttemptFromUnfenced(d, Done(Ok(())));
      SoundIsCertified(r.1);
    }
  }

  lemma AttemptFromUnfenced(d: Disk, stop: Pc)
    requires StatusOf(d) == Ok(NotInstalled) && OpenLock(d).0.Ok? && Rank(stop) < 10
    ensures RunTo(Idle, d, stop) == RunTo(MakeTombstone, OpenLock(d).1, stop)
  {
    assert Step(Idle, d) == (Acquire, d);
    assert Step(Acquire, d) == (MakeTombstone, OpenLock(d).1);
  }

  lemma {:induction false} RunKeeps(pc: Pc, d: Disk, stop: Pc)
    requires Sound(d) && Local(pc, d)
    ensures var r := RunTo(pc, d, stop); Sound(r.1) && Local(r.0, r.1)
    decreases Rank(pc)
  {
    if pc != stop && !pc.Done? {
      var next := Step(pc, d);
      StepKeeps(pc, d);
      RunKeeps(next.0, next.1, stop);
    }
  }

  /** The last rung makes the link durable. */
  lemma {:induction false} CompletedIsDurable(pc: Pc, d: Disk)
    requires Sound(d) && Local(pc, d) && 1 <= Rank(pc) <= 10
    ensures var r := RunTo(pc, d, Done(Ok(()))); r.0 == Done(Ok(())) ==> LinkDurable(r.1)
    decreases Rank(pc)
  {
    var next := Step(pc, d);
    StepKeeps(pc, d);
    if pc != SyncParent && !next.0.Done? { CompletedIsDurable(next.0, next.1); }
    if next.0.Done? && pc != SyncParent { OnlyTheLastReturns(pc, d); }
  }

  lemma OnlyTheLastReturns(pc: Pc, d: Disk)
    requires 1 < Rank(pc) <= 10 && Step(pc, d).0.Done?
    ensures Step(pc, d).0.result.Err?
  {
  }

  /** From an unfenced disk the ladder stops at `until` with the fence active exactly when the
      commit point was passed, and after the last phase with the link durable. */
  lemma ActiveFromTheCommitPointOn(d: Disk, until: Phase)
    requires Sound(d) && StatusOf(d) == Ok(NotInstalled)
    ensures var r := RunTo(MakeTombstone, d, After(until));
            r.0 == After(until) ==>
              && StatusOf(r.1) == Ok(if until.Renamed? || until.ParentSynced? then Active else NotInstalled)
              && (until.ParentSynced? ==> LinkDurable(r.1))
  {
    SoundIsCertified(d);
    if until.ParentSynced? { CompletedIsDurable(MakeTombstone, d); }
    RunKeeps(MakeTombstone, d, After(until));
    SoundIsCertified(RunTo(MakeTombstone, d, After(until)).1);
  }

  // ---- crashes ---------------------------------------------------------------------------

  /** What a crash can leave: any subset of the pending changes, any readable marker unless it was
      synced, and nothing at all when `.meridian` itself was never made durable. */
  ghost predicate Survives(d: Disk, d': Disk) {
    || (!d.rooted && d' == NoMeta())
    || (&& d'.present == d.present && d'.rooted == d.present && d'.pending == [] && d'.contentsSynced && d'.entrySynced
        && (exists keep: set<nat> :: d'.durable == ApplyKept(d.durable, d.pending, keep))
        && (d.contentsSynced && d.entrySynced ==> d'.marker == d.marker)
        && (d'.marker.Unreadable? ==> d.marker.Unreadable?))
  }

  lemma CrashFrom(d: Disk, d': Disk, name: Name, node: Node)
    requires Survives(d, d') && Possible(d', name, node)
    ensures Possible(d, name, node)
  {
    if d' != NoMeta() {
      var keep: set<nat> :| d'.durable == ApplyKept(d.durable, d.pending, keep);
      KeptFrom(d.durable, d.pending, keep, name);
    }
  }

  /** Either the link is absent, or its tombstone came through with it. */
  lemma CrashKeeps(d: Disk, d': Disk)
    requires Sound(d) && Survives(d, d')
    ensures Sound(d')
  {
    forall node | Possible(d', LockFile, node) ensures Possible(d, LockFile, node) {
      CrashFrom(d, d', LockFile, node);
    }
    if Possible(d', LockFile, FenceLink) {
      var keep: set<nat> :| d'.durable == ApplyKept(d.durable, d.pending, keep);
      KeptUntouched(d.durable, d.pending, keep, Tombstone);
    }
    if !d.present && d' != NoMeta() { assert d.pending == []; }
  }

  lemma CrashTidy(d: Disk, d': Disk)
    requires Tidy(d) && Survives(d, d')
    ensures Tidy(d')
  {
    forall node | Possible(d', Tombstone, node) ensures node.Dir? { CrashFrom(d, d', Tombstone, node); }
    forall node | Possible(d', StagedLink, node) ensures !node.Dir? { CrashFrom(d, d', StagedLink, node); }
  }

  function Lost(d: Disk): Disk {
    Disk(d.present, d.present, d.durable, [], d.marker, true, true)
  }

  lemma {:induction false} NothingKept(e: Entries, changes: seq<Change>)
    ensures ApplyKept(e, changes, {}) == e
  {
    if changes != [] { NothingKept(e, changes[..|changes| - 1]); }
  }

  /** An active fence outlives every crash exactly when the link itself, and `.meridian` in its
      root, are durable. */
  lemma DurableWhen(d: Disk)
    requires Sound(d) && StatusOf(d) == Ok(Active)
    ensures (forall d' :: Survives(d, d') ==> StatusOf(d') == Ok(Active)) <==> d.rooted && LinkDurable(d)
  {
    SoundIsCertified(d);
    CurrentFrom(d, LockFile);
    if d.rooted && LinkDurable(d) {
      forall d' | Survives(d, d') ensures StatusOf(d') == Ok(Active) {
        CrashKeeps(d, d');
        SoundIsCertified(d');
        var keep: set<nat> :| d'.durable == ApplyKept(d.durable, d.pending, keep);
        KeptUntouched(d.durable, d.pending, keep, LockFile);
      }
    } else if !d.rooted {
      assert Survives(d, NoMeta());
      assert StatusOf(NoMeta()) == Ok(NotInstalled);
    } else {
      LosesTheFence(d);
    }
  }

  lemma StepKeepsRoot(pc: Pc, d: Disk)
    requires d.present && Rank(pc) <= 10
    ensures Step(pc, d).1.present && Step(pc, d).1.rooted == d.rooted
  {
  }

  lemma {:induction false} RootStays(pc: Pc, d: Disk, stop: Pc)
    requires d.present && Rank(pc) <= 10
    ensures var r := RunTo(pc, d, stop); r.1.present && r.1.rooted == d.rooted
    decreases Rank(pc)
  {
    if pc != stop && !pc.Done? {
      var next := Step(pc, d);
      StepKeepsRoot(pc, d);
      RootStays(next.0, next.1, stop);
    }
  }

  /** What Ok promises: an attempt from any tidy disk returns it with the fence active, and that fence
      outlives every crash exactly when `.meridian` was already there, durable in its root, and the
      attempt either found no fence or found its link durable. */
  lemma OkIsDurableWhen(d: Disk)
    requires Sound(d) && Tidy(d)
    ensures var r := RunTo(Idle, d, Done(Ok(())));
            && r.0 == Done(Ok(())) && StatusOf(r.1) == Ok(Active)
            && ((forall d' :: Survives(r.1, d') ==> StatusOf(d') == Ok(Active))
                <==> d.present && d.rooted && (StatusOf(d) == Ok(NotInstalled) || LinkDurable(d)))
  {
    RerunEndsActive(d);
    SoundIsCertified(d);
    var r := RunTo(Idle, d, Done(Ok(())));
    DurableWhen(r.1);
    if StatusOf(d) == Ok(Active) {
      assert r.1 == d;
    } else {
      InstallsDurably(d);
    }
  }

  /** A ladder run to its end leaves the link durable, in a root that is no more durable than it was. */
  lemma InstallsDurably(d: Disk)
    requires Sound(d) && Tidy(d) && StatusOf(d) == Ok(NotInstalled) && RunTo(Idle, d, Done(Ok(()))).0 == Done(Ok(()))
    ensures var d' := RunTo(Idle, d, Done(Ok(()))).1; LinkDurable(d') && (d'.rooted <==> d.present && d.rooted)
  {
    SoundIsCertified(d);
    OpenLockKeeps(d);
    OpenLockTidy(d);
    AttemptFromUnfenced(d, Done(Ok(())));
    CompletedIsDurable(MakeTombstone, OpenLock(d).1);
    OpenKeepsRoot(d);
    RootStays(MakeTombstone, OpenLock(d).1, Done(Ok(())));
  }

  lemma OpenKeepsRoot(d: Disk)
    ensures var d' := OpenLock(d).1; d'.present && (d'.rooted <==> d.present && d.rooted)
  {
  }

  lemma {:induction false} ReachesCommit(pc: Pc, d: Disk) returns (staged: Disk)
    requires Sound(d) && Local(pc, d) && Tidy(d) && 2 <= Rank(pc) <= 10
    ensures Sound(staged) && Local(Rename, staged)
    ensures RunTo(pc, d, SyncParent) == (SyncParent, LinkStep(Rename, staged).1)
    decreases Rank(pc)
  {
    if pc == Rename {
      RenameKeeps(d);
      return d;
    }
    var next := Step(pc, d);
    StepKeeps(pc, d);
    StepTidy(pc, d);
    StepAdvances(pc, d);
    staged := ReachesCommit(next.0, next.1);
  }

  lemma RunsToRename(d: Disk) returns (staged: Disk)
    requires Sound(d) && Tidy(d) && StatusOf(d) == Ok(NotInstalled)
    ensures Sound(staged) && Local(Rename, staged)
    ensures RunTo(Idle, d, SyncParent) == (SyncParent, LinkStep(Rename, staged).1)
  {
    SoundIsCertified(d);
    OpenLockKeeps(d);
    OpenLockTidy(d);
    AttemptFromUnfenced(d, SyncParent);
    staged := ReachesCommit(MakeTombstone, OpenLock(d).1);
  }

  lemma ActiveReturnsOk(d: Disk)
    requires StatusOf(d) == Ok(Active)
    ensures RunTo(Idle, d, Done(Ok(()))) == (Done(Ok(())), d)
  {
    assert Step(Idle, d) == (Done(Ok(())), d);
  }

  /** Why Ok is no promise: the rename of one attempt still pending, a second attempt returns Ok
      without a sync, and a crash after it takes the fence away. */
  lemma OkBeforeDurable(d: Disk) returns (renamed: Disk, survivor: Disk)
    requires Sound(d) && Tidy(d) && StatusOf(d) == Ok(NotInstalled)
    ensures RunTo(Idle, d, SyncParent) == (SyncParent, renamed)
    ensures RunTo(Idle, renamed, Done(Ok(()))) == (Done(Ok(())), renamed)
    ensures Survives(renamed, survivor) && StatusOf(survivor) == Ok(NotInstalled)
  {
    var staged := RunsToRename(d);
    renamed := LinkStep(Rename, staged).1;
    RenamedNotSynced(staged);
    ActiveReturnsOk(renamed);
    survivor := Lost(renamed);
    LosesTheFence(renamed);
  }

  lemma RenamedNotSynced(staged: Disk)
    requires Sound(staged) && Local(Rename, staged)
    ensures var renamed := LinkStep(Rename, staged).1;
            Sound(renamed) && !LinkDurable(renamed) && StatusOf(renamed) == Ok(Active)
  {
    RenameKeeps(staged);
    FileMeansUnfenced(staged);
    SoundIsCertified(LinkStep(Rename, staged).1);
  }

  lemma LosesTheFence(d: Disk)
    requires Sound(d) && !LinkDurable(d)
    ensures Survives(d, Lost(d)) && StatusOf(Lost(d)) == Ok(NotInstalled)
  {
    NothingKept(d.durable, d.pending);
    CrashKeeps(d, Lost(d));
    SoundIsCertified(Lost(d));
  }

  // ---- what the guards are for -----------------------------------------------------------

  /** Run directly over an active fence, past the `status` check, the ladder truncates the marker:
      until it is rewritten the fence answers an error. */
  lemma BareLadderUnmakesTheMarker(d: Disk)
    requires Sound(d) && StatusOf(d) == Ok(Active)
    ensures var r := RunTo(MakeTombstone, d, WriteMarker); r.0 == WriteMarker && StatusOf(r.1) == Err(FenceState)
  {
    SoundIsCertified(d);
    CurrentFrom(d, LockFile);
    SealedShows(d);
    var open := d.(marker := Other, contentsSynced := false);
    assert Step(MakeTombstone, d) == (OpenMarker, d);
    assert Step(OpenMarker, d) == (WriteMarker, open);
    assert forall name :: NodeAt(open, name) == NodeAt(d, name);
  }

  lemma {:induction false} NoneKept(e: Entries, changes: seq<Change>, n: nat)
    requires |changes| <= n
    ensures ApplyKept(e, changes, {n}) == e
  {
    if changes != [] { NoneKept(e, changes[..|changes| - 1], n); }
  }

  lemma CommitLosesTheRest(d: Disk) returns (survivor: Disk)
    requires d.present && NodeAt(d, StagedLink) == Some(FenceLink) && NodeAt(d, LockFile) != Some(Dir)
    requires Tombstone !in d.durable
    ensures Survives(LinkStep(Rename, d).1, survivor) && Dangling(survivor)
  {
    var c := Move(StagedLink, LockFile, FenceLink);
    var renamed := Changed(d, c);
    var n := |d.pending|;
    assert renamed.pending[..n] == d.pending;
    NoneKept(d.durable, d.pending, n);
    survivor := Disk(true, true, Apply(d.durable, c), [], d.marker, true, true);
    assert survivor.durable == ApplyKept(d.durable, renamed.pending, {n});
  }

  /** Skipping the barrier, with the tombstone's entry not yet durable: a crash can keep the rename
      and lose the directory it points to. */
  lemma WithoutTheBarrier(d: Disk) returns (renamed: Disk, survivor: Disk)
    requires Sound(d) && Local(SyncMeta, d) && Tombstone !in d.durable && NodeAt(d, StagedLink) == None
    ensures RunTo(ClearStaged, d, SyncParent) == (SyncParent, renamed)
    ensures Survives(renamed, survivor) && Dangling(survivor)
  {
    var staged := Changed(d, Put(StagedLink, FenceLink));
    CurrentChanged(d, Put(StagedLink, FenceLink));
    if NodeAt(d, LockFile).Some? { CurrentFrom(d, LockFile); }
    renamed := LinkStep(Rename, staged).1;
    survivor := CommitLosesTheRest(staged);
    assert Step(ClearStaged, d) == (Stage, d);
    assert Step(Stage, d) == (Rename, staged);
    assert Step(Rename, staged) == (SyncParent, renamed);
  }

  // ---- attempts, writers, failures and crashes, interleaved --------------------------------

  datatype Holder = Nobody | Attempt(i: nat) | Writer

  datatype System = System(disk: Disk, attempts: seq<Pc>, holder: Holder)

  datatype Event =
    | Start
    | Run(i: nat)
    | Fail(i: nat, left: Disk)
    | WriterIn
    | WriterOut
    | Crash(survivor: Disk)

  /** What a failing or dying step can leave behind short of completing. */
  ghost predicate Leaves(pc: Pc, d: Disk, left: Disk) {
    || left == d
    || (pc.Acquire? && (left == EnsureMeta(d) || left == OpenLock(d).1))
    || (pc.MakeTombstone? && left == EnsureMeta(d))
    || (pc.WriteMarker? && left == d.(marker := left.marker) && !left.marker.Unreadable?)
  }

  ghost predicate Enabled(s: System, e: Event) {
    match e
    case Start => true
    case Run(i) => i < |s.attempts| && !s.attempts[i].Done?
    case Fail(i, left) => i < |s.attempts| && Leaves(s.attempts[i], s.disk, left)
    case WriterIn => true
    case WriterOut => s.holder == Writer
    case Crash(survivor) => Survives(s.disk, survivor)
  }

  function Released(holder: Holder, i: nat): Holder {
    if holder == Attempt(i) then Nobody else holder
  }

  /** `acquire` opens, creating, before it learns that the lock is held. */
  function Acquired(s: System, i: nat): System
    requires i < |s.attempts|
  {
    var (got, d) := OpenLock(s.disk);
    if got.Err? then System(d, s.attempts[i := Done(got)], s.holder)
    else if s.holder != Nobody then System(d, s.attempts[i := Done(Err(WouldBlock))], s.holder)
    else System(d, s.attempts[i := MakeTombstone], Attempt(i))
  }

  /** An attempt that returns an error drops the lock; one that returns Ok keeps it. */
  function Stepped(s: System, i: nat): System
    requires i < |s.attempts|
  {
    var (pc, d) := Step(s.attempts[i], s.disk);
    System(d, s.attempts[i := pc], if pc.Done? && pc.result.Err? then Released(s.holder, i) else s.holder)
  }

  ghost function Next(s: System, e: Event): System
    requires Enabled(s, e)
  {
    match e
    case Start => s.(attempts := s.attempts + [Idle])
    case Run(i) => if s.attempts[i].Acquire? then Acquired(s, i) else Stepped(s, i)
    case Fail(i, left) =>
      System(left, s.attempts[i := if s.attempts[i].Done? then s.attempts[i] else Done(Err(Io))], Released(s.holder, i))
    case WriterIn =>
      var (got, d) := OpenLock(s.disk);
      System(d, s.attempts, if got.Ok? && s.holder == Nobody then Writer else s.holder)
    case WriterOut => s.(holder := Nobody)
    case Crash(survivor) => System(survivor, [], Nobody)
  }

  predicate Laddered(pc: Pc) { !pc.Idle? && !pc.Acquire? && !pc.Done? }

  ghost predicate Inv(s: System) {
    && Sound(s.disk)
    && forall i | 0 <= i < |s.attempts| ::
         Local(s.attempts[i], s.disk) && (Laddered(s.attempts[i]) ==> s.holder == Attempt(i))
  }

  lemma LinkStays(pc: Pc, d: Disk)
    requires Sound(d) && Local(pc, d) && NodeAt(d, LockFile) == Some(FenceLink)
    ensures NodeAt(Step(pc, d).1, LockFile) == Some(FenceLink)
  {
    if pc.Acquire? { OpenLockKeeps(d); }
    if pc.SyncParent? { SyncKeeps(d); }
  }

  /** Another process opening the lock file disturbs no attempt. */
  lemma OpenLockFrames(pc: Pc, d: Disk)
    requires Sound(d) && Local(pc, d)
    ensures Local(pc, OpenLock(d).1)
  {
    OpenLockKeeps(d);
    if NodeAt(d, LockFile) == None && Laddered(pc) && !pc.SyncParent? {
      CurrentChanged(d, Put(LockFile, File));
      if pc.ClearStaged? || pc.Stage? || pc.Rename? { SealedStaysThroughChange(d, Put(LockFile, File)); }
    }
  }

  lemma LeftKeeps(pc: Pc, d: Disk, left: Disk)
    requires Sound(d) && Local(pc, d) && Leaves(pc, d, left)
    ensures Sound(left)
  {
    EnsureMetaKeeps(d);
    OpenLockKeeps(d);
    if pc.WriteMarker? {
      FileMeansUnfenced(d);
      MarkerAside(d, left.marker, d.contentsSynced, d.entrySynced);
    }
  }

  /** What a failing step of one attempt leaves, another attempt does not notice. */
  lemma LeftFrames(failing: Pc, other: Pc, d: Disk, left: Disk)
    requires Sound(d) && Local(failing, d) && Local(other, d) && Leaves(failing, d, left)
    requires !Laddered(failing) || !Laddered(other)
    ensures Local(other, left)
  {
    OpenLockFrames(other, d);
  }

  lemma AcquiredKeeps(s: System, i: nat)
    requires Inv(s) && i < |s.attempts| && s.attempts[i].Acquire?
    ensures Inv(Acquired(s, i))
  {
    OpenLockKeeps(s.disk);
    forall j | 0 <= j < |s.attempts| ensures Local(s.attempts[j], OpenLock(s.disk).1) {
      OpenLockFrames(s.attempts[j], s.disk);
    }
  }

  lemma OthersStay(pc: Pc, other: Pc, d: Disk)
    requires Sound(d) && Local(pc, d) && Local(other, d) && !pc.Acquire?
    requires !Laddered(pc) || !Laddered(other)
    ensures Local(other, Step(pc, d).1)
  {
    if other == Done(Ok(())) { LinkStays(pc, d); }
  }

  lemma SteppedKeeps(s: System, i: nat)
    requires Inv(s) && i < |s.attempts| && !s.attempts[i].Acquire? && !s.attempts[i].Done?
    ensures Inv(Stepped(s, i))
  {
    var pc := s.attempts[i];
    StepKeeps(pc, s.disk);
    forall j | 0 <= j < |s.attempts| && j != i ensures Local(s.attempts[j], Step(pc, s.disk).1) {
      OthersStay(pc, s.attempts[j], s.disk);
    }
    IdleStaysOffTheLadder(s.disk);
  }

  lemma IdleStaysOffTheLadder(d: Disk)
    ensures !Laddered(Step(Idle, d).0)
  {
  }

  lemma FailKeeps(s: System, i: nat, left: Disk)
    requires Inv(s) && i < |s.attempts| && Leaves(s.attempts[i], s.disk, left)
    ensures Inv(Next(s, Fail(i, left)))
  {
    var pc := s.attempts[i];
    LeftKeeps(pc, s.disk, left);
    forall j | 0 <= j < |s.attempts| && j != i ensures Local(s.attempts[j], left) {
      LeftFrames(pc, s.attempts[j], s.disk, left);
    }
  }

  lemma WriterKeeps(s: System)
    requires Inv(s)
    ensures Inv(Next(s, WriterIn))
  {
    OpenLockKeeps(s.disk);
    forall j | 0 <= j < |s.attempts| ensures Local(s.attempts[j], OpenLock(s.disk).1) {
      OpenLockFrames(s.attempts[j], s.disk);
    }
  }

  /** Every event keeps the invariant. */
  lemma NextKeeps(s: System, e: Event)
    requires Inv(s) && Enabled(s, e)
    ensures Inv(Next(s, e))
  {
    match e
    case Start =>
    case Run(i) => if s.attempts[i].Acquire? { AcquiredKeeps(s, i); } else { SteppedKeeps(s, i); }
    case Fail(i, left) => FailKeeps(s, i, left);
    case WriterIn => WriterKeeps(s);
    case WriterOut =>
    case Crash(survivor) => CrashKeeps(s.disk, survivor);
  }

  lemma NextTidy(s: System, e: Event)
    requires Inv(s) && Enabled(s, e) && Tidy(s.disk)
    ensures Tidy(Next(s, e).disk)
  {
    EnsureMetaKeeps(s.disk);
    OpenLockTidy(s.disk);
    match e
    case Run(i) => StepTidy(s.attempts[i], s.disk);
    case Fail(i, left) =>
      if s.attempts[i].WriteMarker? { TidyAside(s.disk, left.marker, s.disk.contentsSynced, s.disk.entrySynced); }
    case Crash(survivor) => CrashTidy(s.disk, survivor);
    case _ =>
  }

  // ---- every run -------------------------------------------------------------------------

  ghost predicate Legal(s: System, events: seq<Event>)
    decreases |events|
  {
    events == [] || (Enabled(s, events[0]) && Legal(Next(s, events[0]), events[1..]))
  }

  ghost function Outcome(s: System, events: seq<Event>): System
    requires Legal(s, events)
    decreases |events|
  {
    if events == [] then s else Outcome(Next(s, events[0]), events[1..])
  }

  lemma {:induction false} RunsKeep(s: System, events: seq<Event>)
    requires Inv(s) && Legal(s, events)
    ensures Inv(Outcome(s, events)) && (Tidy(s.disk) ==> Tidy(Outcome(s, events).disk))
    decreases |events|
  {
    if events != [] {
      NextKeeps(s, events[0]);
      if Tidy(s.disk) { NextTidy(s, events[0]); }
      RunsKeep(Next(s, events[0]), events[1..]);
    }
  }

  /** Through any run from a sound disk: never a dangling link, only the two certified states, and
      an attempt that returned Ok since the last crash means the fence is active. */
  lemma EveryRunIsCertified(d: Disk, events: seq<Event>)
    requires Sound(d) && Legal(System(d, [], Nobody), events)
    ensures var s := Outcome(System(d, [], Nobody), events);
            && !Dangling(s.disk)
            && (StatusOf(s.disk) == Ok(NotInstalled) || StatusOf(s.disk) == Ok(Active))
            && (Done(Ok(())) in s.attempts ==> StatusOf(s.disk) == Ok(Active))
  {
    var s := Outcome(System(d, [], Nobody), events);
    RunsKeep(System(d, [], Nobody), events);
    SoundIsCertified(s.disk);
  }

  /** And from every disk such a run reaches, crash survivors among them, a rerun ends active. */
  lemma EveryRunIsRerunnable(d: Disk, events: seq<Event>)
    requires Sound(d) && Tidy(d) && Legal(System(d, [], Nobody), events)
    ensures var s := Outcome(System(d, [], Nobody), events);
            var r := RunTo(Idle, s.disk, Done(Ok(())));
            r.0 == Done(Ok(())) && StatusOf(r.1) == Ok(Active)
  {
    RunsKeep(System(d, [], Nobody), events);
    RerunEndsActive(Outcome(System(d, [], Nobody), events).disk);
  }

  /** Which settled disks a run may start from: exactly those `status` certifies. */
  lemma SettledIsSound(d: Disk)
    requires d.pending == [] && d.contentsSynced && d.entrySynced && (!d.present ==> d.durable == map[])
    ensures Sound(d) <==> StatusOf(d) == Ok(NotInstalled) || StatusOf(d) == Ok(Active)
  {
    assert Current(d) == d.durable;
    if Sound(d) { SoundIsCertified(d); }
  }
}
