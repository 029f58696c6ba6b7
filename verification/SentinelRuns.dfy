/** Any number of processes on one unremoved drawer, interleaved step by step, each of which may die
    at any step; with the drawer lock, and without it. */
module SentinelRuns {
  import opened Bytes
  import opened Sentinel

  datatype Reply = Identity(record: Record) | Stamped(stamped: bool) | Busy | Failed

  datatype Pc =
    | Opening
    | Waiting
    | Reading
    | Creating(todo: Record)
    | Writing(todo: Record, name: TempName, inode: Inode)
    | Committing(todo: Record, name: TempName)
    | Rereading(todo: Record, name: TempName)
    | Replacing(todo: Record, name: TempName)
    | Cleaning(reply: Reply, name: TempName)
    | Returned(reply: Reply)

  datatype Process = Process(op: Op, pc: Pc)

  datatype System = System(drawer: Drawer, procs: seq<Process>, holder: Option<nat>)

  /** What a step takes from outside: the clock, the next temp name, how many bytes a write moves. */
  datatype Outside = Outside(now: U64, name: TempName, bytes: nat)

  // ---- one step of one process, the lock aside ---------------------------------------------

  function Rewrite(op: Op, now: U64, r: Record): Record
    requires !Registers(op)
  {
    match op
    case Supersede(heir) => r.(supersededBy := Some(heir))
    case _ => r.(lastUse := now)
  }

  function ReadStep(op: Op, state: State, now: U64): Pc {
    if Registers(op) then (if state.Valid? then Returned(Identity(state.record)) else Creating(Fresh(op.workspace, now)))
    else if state.Valid? then Creating(Rewrite(op, now, state.record)) else Returned(Stamped(false))
  }

  function Link(d: Drawer, name: TempName): Drawer
    requires name in d.temps
  {
    d.(sentinel := Some(d.temps[name]))
  }

  function Unlink(d: Drawer, name: TempName): Drawer { d.(temps := d.temps - {name}) }

  function Renamed(d: Drawer, name: TempName): Drawer
    requires name in d.temps
  {
    Unlink(Link(d, name), name)
  }

  /** `hard_link` for a registration, refused when the sentinel is there; `rename` for the others. */
  function CommitStep(op: Op, todo: Record, name: TempName, d: Drawer): (Pc, Drawer)
    requires name in d.temps
  {
    if !Registers(op) then (Returned(Stamped(true)), Renamed(d, name))
    else if d.sentinel.Some? then (Rereading(todo, name), d)
    else (Cleaning(Identity(todo), name), Link(d, name))
  }

  function RereadStep(todo: Record, name: TempName, state: State): Pc {
    match state
    case Valid(r) => Cleaning(Identity(r), name)
    case Future => Cleaning(Identity(todo), name)
    case _ => Replacing(todo, name)
  }

  /** Which outside inputs a step can meet. `create_new` refuses a taken name. */
  predicate Able(codec: Codec, pc: Pc, d: Drawer, out: Outside) {
    match pc
    case Waiting => false
    case Creating(_) => out.name !in d.temps
    case Writing(todo, _, inode) => inode < |d.contents| && |d.contents[inode]| + out.bytes <= |codec.encode(todo)|
    case Committing(_, name) => name in d.temps
    case Replacing(_, name) => name in d.temps
    case Returned(_) => false
    case _ => true
  }

  function WriteStep(codec: Codec, todo: Record, name: TempName, inode: Inode, d: Drawer, bytes: nat): (Pc, Drawer)
    requires inode < |d.contents| && |d.contents[inode]| + bytes <= |codec.encode(todo)|
  {
    var done := |d.contents[inode]|;
    if done == |codec.encode(todo)| then (Committing(todo, name), d)
    else (Writing(todo, name, inode), d.(contents := d.contents[inode := d.contents[inode] + codec.encode(todo)[done..done + bytes]]))
  }

  function Advance(codec: Codec, op: Op, pc: Pc, d: Drawer, out: Outside): (Pc, Drawer)
    requires Able(codec, pc, d, out)
  {
    match pc
    case Opening =>
      if Registers(op) then (Waiting, d.(present := true))
      else (if d.present then Waiting else Returned(Stamped(false)), d)
    case Reading => (ReadStep(op, Classify(codec, d), out.now), d)
    case Creating(todo) =>
      (Writing(todo, out.name, |d.contents|),
       d.(temps := d.temps[out.name := |d.contents|], contents := d.contents + [[]]))
    case Writing(todo, name, inode) => WriteStep(codec, todo, name, inode, d, out.bytes)
    case Committing(todo, name) => CommitStep(op, todo, name, d)
    case Rereading(todo, name) => (RereadStep(todo, name, Classify(codec, d)), d)
    case Replacing(todo, name) => (Returned(Identity(todo)), Renamed(d, name))
    case Cleaning(reply, name) => (Returned(reply), Unlink(d, name))
  }

  // ---- the system --------------------------------------------------------------------------

  datatype Event = Arrive(op: Op) | Enter(i: nat) | Go(i: nat, out: Outside) | Die(i: nat)

  predicate Tries(op: Op) { op.TryRegister? || op.TryStamp? }

  function BusyReply(op: Op): Reply { if op.TryStamp? then Stamped(false) else Busy }

  /** With `locking` off the lock is simply never in the way. */
  predicate Enabled(codec: Codec, locking: bool, s: System, e: Event) {
    match e
    case Arrive(_) => true
    case Enter(i) => i < |s.procs| && s.procs[i].pc.Waiting? && (locking && s.holder.Some? ==> Tries(s.procs[i].op))
    case Go(i, out) => i < |s.procs| && Able(codec, s.procs[i].pc, s.drawer, out)
    case Die(i) => i < |s.procs|
  }

  function Release(s: System, i: nat): Option<nat> { if s.holder == Some(i) then None else s.holder }

  function Next(codec: Codec, locking: bool, s: System, e: Event): System
    requires Enabled(codec, locking, s, e)
  {
    match e
    case Arrive(op) => s.(procs := s.procs + [Process(op, Opening)])
    case Enter(i) =>
      var op := s.procs[i].op;
      if locking && s.holder.Some? then s.(procs := s.procs[i := Process(op, Returned(BusyReply(op)))])
      else System(s.drawer, s.procs[i := Process(op, Reading)], if locking then Some(i) else s.holder)
    case Go(i, out) =>
      var op := s.procs[i].op;
      var (pc, d) := Advance(codec, op, s.procs[i].pc, s.drawer, out);
      System(d, s.procs[i := Process(op, pc)], if pc.Returned? then Release(s, i) else s.holder)
    case Die(i) =>
      var p := s.procs[i];
      System(s.drawer, s.procs[i := if p.pc.Returned? then p else p.(pc := Returned(Failed))], Release(s, i))
  }

  ghost predicate Legal(codec: Codec, locking: bool, s: System, events: seq<Event>)
    decreases |events|
  {
    events == [] || (Enabled(codec, locking, s, events[0]) && Legal(codec, locking, Next(codec, locking, s, events[0]), events[1..]))
  }

  ghost function Outcome(codec: Codec, locking: bool, s: System, events: seq<Event>): System
    requires Legal(codec, locking, s, events)
    decreases |events|
  {
    if events == [] then s else Outcome(codec, locking, Next(codec, locking, s, events[0]), events[1..])
  }

  // ---- whose file is whose: with the lock or without --------------------------------------

  predicate HasTemp(pc: Pc) { pc.Writing? || pc.Committing? || pc.Rereading? || pc.Replacing? || pc.Cleaning? }

  function Temp(pc: Pc): TempName
    requires HasTemp(pc)
  {
    pc.name
  }

  /** A process's temp file is whole once written, and not the sentinel until it commits. */
  ghost predicate Private(codec: Codec, pc: Pc, d: Drawer) {
    HasTemp(pc) ==>
      && pc.name in d.temps
      && (!pc.Cleaning? ==> Some(d.temps[pc.name]) != d.sentinel)
      && (pc.Writing? ==> d.temps[pc.name] == pc.inode && pc.inode < |d.contents| && d.contents[pc.inode] <= codec.encode(pc.todo))
      && ((pc.Committing? || pc.Rereading? || pc.Replacing?) ==>
           d.temps[pc.name] < |d.contents| && d.contents[d.temps[pc.name]] == codec.encode(pc.todo))
  }

  predicate Apart(a: Pc, b: Pc) { HasTemp(a) && HasTemp(b) ==> Temp(a) != Temp(b) }

  ghost predicate Filed(codec: Codec, s: System) {
    && Wf(s.drawer)
    && (forall i | 0 <= i < |s.procs| :: Private(codec, s.procs[i].pc, s.drawer))
    && (forall i, j | 0 <= i < |s.procs| && 0 <= j < |s.procs| && i != j :: Apart(s.procs[i].pc, s.procs[j].pc))
  }

  lemma RenamedWf(d: Drawer, name: TempName)
    requires Wf(d) && name in d.temps
    ensures Wf(Link(d, name)) && Wf(Unlink(d, name)) && Wf(Renamed(d, name))
  {
  }

  lemma OwnWrite(codec: Codec, op: Op, pc: Pc, d: Drawer, out: Outside)
    requires pc.Writing? && Wf(d) && Private(codec, pc, d) && Able(codec, pc, d, out)
    ensures var (pc', d') := Advance(codec, op, pc, d, out); Wf(d') && Private(codec, pc', d')
  {
    Written(codec.encode(pc.todo), d.contents[pc.inode], out.bytes);
  }

  lemma OwnCreate(codec: Codec, op: Op, pc: Pc, d: Drawer, out: Outside)
    requires pc.Creating? && Wf(d) && Able(codec, pc, d, out)
    ensures var (pc', d') := Advance(codec, op, pc, d, out); Wf(d') && Private(codec, pc', d')
  {
  }

  lemma OwnCommit(codec: Codec, op: Op, pc: Pc, d: Drawer, out: Outside)
    requires pc.Committing? || pc.Replacing? || pc.Cleaning?
    requires Wf(d) && Private(codec, pc, d) && Able(codec, pc, d, out)
    ensures var (pc', d') := Advance(codec, op, pc, d, out); Wf(d') && Private(codec, pc', d')
  {
    RenamedWf(d, pc.name);
  }

  lemma OwnRead(codec: Codec, op: Op, pc: Pc, d: Drawer, out: Outside)
    requires pc.Opening? || pc.Reading? || pc.Rereading?
    requires Wf(d) && Private(codec, pc, d) && Able(codec, pc, d, out)
    ensures var (pc', d') := Advance(codec, op, pc, d, out); Wf(d') && Private(codec, pc', d')
  {
  }

  lemma OwnPrivate(codec: Codec, op: Op, pc: Pc, d: Drawer, out: Outside)
    requires Wf(d) && Private(codec, pc, d) && Able(codec, pc, d, out)
    ensures Wf(Advance(codec, op, pc, d, out).1)
    ensures Private(codec, Advance(codec, op, pc, d, out).0, Advance(codec, op, pc, d, out).1)
  {
    if pc.Writing? {
      OwnWrite(codec, op, pc, d, out);
    } else if pc.Creating? {
      OwnCreate(codec, op, pc, d, out);
    } else if pc.Opening? || pc.Reading? || pc.Rereading? {
      OwnRead(codec, op, pc, d, out);
    } else {
      OwnCommit(codec, op, pc, d, out);
    }
  }

  lemma Written(whole: Bytes, part: Bytes, bytes: nat)
    requires part <= whole
    ensures |part| == |whole| ==> part == whole
    ensures |part| + bytes <= |whole| ==> part + whole[|part|..|part| + bytes] <= whole
  {
  }

  lemma RenamedFrames(codec: Codec, d: Drawer, name: TempName, other: Pc)
    requires Wf(d) && name in d.temps && Private(codec, other, d)
    requires HasTemp(other) ==> Temp(other) != name
    ensures Private(codec, other, Link(d, name)) && Private(codec, other, Unlink(d, name)) && Private(codec, other, Renamed(d, name))
  {
  }

  lemma WriteFrames(codec: Codec, op: Op, pc: Pc, d: Drawer, out: Outside, other: Pc)
    requires pc.Writing? && Wf(d) && Private(codec, pc, d) && Able(codec, pc, d, out)
    requires Private(codec, other, d) && Apart(pc, other)
    ensures var (pc', d') := Advance(codec, op, pc, d, out); Private(codec, other, d') && Apart(pc', other)
  {
  }

  lemma CommitFrames(codec: Codec, op: Op, pc: Pc, d: Drawer, out: Outside, other: Pc)
    requires pc.Committing? || pc.Replacing? || pc.Cleaning?
    requires Wf(d) && Private(codec, pc, d) && Able(codec, pc, d, out)
    requires Private(codec, other, d) && Apart(pc, other)
    ensures var (pc', d') := Advance(codec, op, pc, d, out); Private(codec, other, d') && Apart(pc', other)
  {
    RenamedFrames(codec, d, pc.name, other);
  }

  lemma CreateFrames(codec: Codec, op: Op, pc: Pc, d: Drawer, out: Outside, other: Pc)
    requires pc.Creating? && Wf(d) && Able(codec, pc, d, out) && Private(codec, other, d)
    ensures var (pc', d') := Advance(codec, op, pc, d, out); Private(codec, other, d') && Apart(pc', other)
  {
  }

  lemma ReadFrames(codec: Codec, op: Op, pc: Pc, d: Drawer, out: Outside, other: Pc)
    requires pc.Opening? || pc.Reading? || pc.Rereading?
    requires Able(codec, pc, d, out) && Private(codec, other, d) && Apart(pc, other)
    ensures var (pc', d') := Advance(codec, op, pc, d, out); Private(codec, other, d') && Apart(pc', other)
  {
  }

  lemma OthersPrivate(codec: Codec, op: Op, pc: Pc, d: Drawer, out: Outside, other: Pc)
    requires Wf(d) && Private(codec, pc, d) && Able(codec, pc, d, out)
    requires Private(codec, other, d) && Apart(pc, other)
    ensures Private(codec, other, Advance(codec, op, pc, d, out).1)
    ensures Apart(Advance(codec, op, pc, d, out).0, other)
  {
    if pc.Writing? {
      WriteFrames(codec, op, pc, d, out, other);
    } else if pc.Creating? {
      CreateFrames(codec, op, pc, d, out, other);
    } else if pc.Opening? || pc.Reading? || pc.Rereading? {
      ReadFrames(codec, op, pc, d, out, other);
    } else {
      CommitFrames(codec, op, pc, d, out, other);
    }
  }

  /** Only a commit changes what a reader gets, and it shows a whole record. */
  lemma OnlyCommitsShow(codec: Codec, op: Op, pc: Pc, d: Drawer, out: Outside)
    requires Wf(d) && Private(codec, pc, d) && Able(codec, pc, d, out)
    ensures var d' := Advance(codec, op, pc, d, out).1;
            || Content(d') == Content(d)
            || (&& (pc.Committing? || pc.Replacing?) && Content(d') == Some(codec.encode(pc.todo))
                && (pc.Committing? && Registers(op) ==> Content(d) == None))
  {
  }

  lemma GoFiled(codec: Codec, s: System, i: nat, out: Outside, j: nat)
    requires Filed(codec, s) && i < |s.procs| && j < |s.procs| && j != i && Able(codec, s.procs[i].pc, s.drawer, out)
    ensures var (pc', d') := Advance(codec, s.procs[i].op, s.procs[i].pc, s.drawer, out);
            Private(codec, s.procs[j].pc, d') && Apart(pc', s.procs[j].pc) && Apart(s.procs[j].pc, pc')
  {
    assert Private(codec, s.procs[i].pc, s.drawer) && Private(codec, s.procs[j].pc, s.drawer) && Apart(s.procs[i].pc, s.procs[j].pc);
    OthersPrivate(codec, s.procs[i].op, s.procs[i].pc, s.drawer, out, s.procs[j].pc);
  }

  /** One process's new step and drawer, apart from everyone else's. */
  lemma FiledWith(codec: Codec, s: System, i: nat, p: Process, d: Drawer, holder: Option<nat>)
    requires Filed(codec, s) && i < |s.procs| && Wf(d) && Private(codec, p.pc, d)
    requires forall j | 0 <= j < |s.procs| && j != i ::
               Private(codec, s.procs[j].pc, d) && Apart(p.pc, s.procs[j].pc) && Apart(s.procs[j].pc, p.pc)
    ensures Filed(codec, System(d, s.procs[i := p], holder))
  {
  }

  lemma GoStaysFiled(codec: Codec, locking: bool, s: System, i: nat, out: Outside)
    requires Filed(codec, s) && Enabled(codec, locking, s, Go(i, out))
    ensures Filed(codec, Next(codec, locking, s, Go(i, out)))
  {
    var p := s.procs[i];
    var (pc', d') := Advance(codec, p.op, p.pc, s.drawer, out);
    OwnPrivate(codec, p.op, p.pc, s.drawer, out);
    forall j | 0 <= j < |s.procs| && j != i
      ensures Private(codec, s.procs[j].pc, d') && Apart(pc', s.procs[j].pc) && Apart(s.procs[j].pc, pc')
    {
      GoFiled(codec, s, i, out, j);
    }
    FiledWith(codec, s, i, Process(p.op, pc'), d', Next(codec, locking, s, Go(i, out)).holder);
  }

  lemma FiledStays(codec: Codec, locking: bool, s: System, e: Event)
    requires Filed(codec, s) && Enabled(codec, locking, s, e)
    ensures Filed(codec, Next(codec, locking, s, e))
  {
    match e
    case Arrive(_) =>
    case Go(i, out) => GoStaysFiled(codec, locking, s, i, out);
    case Enter(i) => FiledWith(codec, s, i, Next(codec, locking, s, e).procs[i], s.drawer, Next(codec, locking, s, e).holder);
    case Die(i) => FiledWith(codec, s, i, Next(codec, locking, s, e).procs[i], s.drawer, Next(codec, locking, s, e).holder);
  }

  // ---- under the lock ----------------------------------------------------------------------

  /** What the lock holder still knows of the sentinel since it read it. */
  predicate Ready(op: Op, todo: Record, state: State) {
    if Registers(op) then !state.Valid? && todo == Fresh(op.workspace, todo.lastUse)
    else state.Valid? && todo == Rewrite(op, todo.lastUse, state.record)
  }

  predicate Agrees(reply: Reply, state: State) {
    reply.Identity? ==> state.Future? || (state.Valid? && SameIdentity(state.record, reply.record))
  }

  predicate Knows(op: Op, pc: Pc, state: State) {
    match pc
    case Creating(todo) => Ready(op, todo, state)
    case Writing(todo, _, _) => Ready(op, todo, state)
    case Committing(todo, _) => Ready(op, todo, state)
    case Rereading(todo, _) => Registers(op) && Ready(op, todo, state)
    case Replacing(todo, _) => Registers(op) && Ready(op, todo, state) && !state.Future?
    case Cleaning(reply, _) => reply.Identity? && Agrees(reply, state)
    case Returned(reply) => Agrees(reply, state)
    case _ => true
  }

  predicate Inside(pc: Pc) { !pc.Opening? && !pc.Waiting? && !pc.Returned? }

  ghost predicate Locked(codec: Codec, s: System) {
    && Filed(codec, s)
    && (forall i | 0 <= i < |s.procs| :: Knows(s.procs[i].op, s.procs[i].pc, Classify(codec, s.drawer)))
    && (forall i | 0 <= i < |s.procs| :: Inside(s.procs[i].pc) ==> s.holder == Some(i))
  }

  lemma Ready1(op: Op, todo: Record, state: State)
    requires Ready(op, todo, state) && !state.Future?
    ensures Effect(op, todo.lastUse, state) == Valid(todo)
    ensures state.Valid? ==> todo.schema == state.record.schema
  {
  }

  /** One step by the lock holder: the sentinel's reading is untouched, or takes the operation's one
      atomic effect; and the holder's own knowledge follows. */
  lemma StepTakesEffect(codec: Codec, op: Op, pc: Pc, d: Drawer, out: Outside) returns (now: U64)
    requires Lawful(codec) && Wf(d) && Private(codec, pc, d) && Able(codec, pc, d, out)
    requires Knows(op, pc, Classify(codec, d))
    ensures var (pc', d') := Advance(codec, op, pc, d, out);
            && (Content(d') == Content(d) || Classify(codec, d') == Effect(op, now, Classify(codec, d)))
            && Knows(op, pc', Classify(codec, d'))
  {
    OnlyCommitsShow(codec, op, pc, d, out);
    now := 0;
    if pc.Committing? || pc.Replacing? {
      now := pc.todo.lastUse;
      var state := Classify(codec, d);
      if !state.Future? { Ready1(op, pc.todo, state); }
    }
  }

  lemma AgreesThroughEffect(op: Op, now: U64, reply: Reply, state: State)
    requires Agrees(reply, state)
    ensures Agrees(reply, Effect(op, now, state))
  {
  }

  lemma GoKeeps(codec: Codec, s: System, i: nat, out: Outside) returns (now: U64)
    requires Lawful(codec) && Locked(codec, s) && Enabled(codec, true, s, Go(i, out))
    ensures var s' := Next(codec, true, s, Go(i, out));
            && Locked(codec, s')
            && (Content(s'.drawer) == Content(s.drawer)
                || Classify(codec, s'.drawer) == Effect(s.procs[i].op, now, Classify(codec, s.drawer)))
  {
    var p := s.procs[i];
    var s' := Next(codec, true, s, Go(i, out));
    FiledStays(codec, true, s, Go(i, out));
    now := StepTakesEffect(codec, p.op, p.pc, s.drawer, out);
    forall j | 0 <= j < |s.procs| && j != i
      ensures Knows(s.procs[j].op, s.procs[j].pc, Classify(codec, s'.drawer))
    {
      if Content(s'.drawer) != Content(s.drawer) {
        OnlyCommitsShow(codec, p.op, p.pc, s.drawer, out);
        if s.procs[j].pc.Returned? {
          AgreesThroughEffect(p.op, now, s.procs[j].pc.reply, Classify(codec, s.drawer));
        }
      }
    }
    OpeningStaysOut(codec, p.op, p.pc, s.drawer, out);
  }

  lemma OpeningStaysOut(codec: Codec, op: Op, pc: Pc, d: Drawer, out: Outside)
    requires Able(codec, pc, d, out)
    ensures Inside(Advance(codec, op, pc, d, out).0) ==> Inside(pc)
  {
  }

  /** One process's new state over the same drawer. */
  lemma LockedWith(codec: Codec, s: System, i: nat, p: Process, holder: Option<nat>)
    requires Locked(codec, s) && i < |s.procs| && Filed(codec, System(s.drawer, s.procs[i := p], holder))
    requires Knows(p.op, p.pc, Classify(codec, s.drawer)) && (Inside(p.pc) ==> holder == Some(i))
    requires forall j | 0 <= j < |s.procs| && j != i :: Inside(s.procs[j].pc) ==> holder == Some(j)
    ensures Locked(codec, System(s.drawer, s.procs[i := p], holder))
  {
  }

  lemma OthersStayLocked(codec: Codec, s: System, e: Event)
    requires Locked(codec, s) && Enabled(codec, true, s, e) && !e.Go?
    ensures Locked(codec, Next(codec, true, s, e)) && Next(codec, true, s, e).drawer == s.drawer
  {
    FiledStays(codec, true, s, e);
    var s' := Next(codec, true, s, e);
    match e
    case Arrive(_) =>
    case Enter(i) => LockedWith(codec, s, i, s'.procs[i], s'.holder);
    case Die(i) => LockedWith(codec, s, i, s'.procs[i], s'.holder);
  }

  /** Every event keeps the locked invariant, and shows a reader nothing but one operation's effect. */
  lemma LockedStays(codec: Codec, s: System, e: Event)
    requires Lawful(codec) && Locked(codec, s) && Enabled(codec, true, s, e)
    ensures Locked(codec, Next(codec, true, s, e))
    ensures Refines(codec, s, Next(codec, true, s, e))
  {
    if e.Go? {
      var now := GoKeeps(codec, s, e.i, e.out);
    } else {
      OthersStayLocked(codec, s, e);
    }
  }

  /** The file a reader opens is the same, or reads as one process's operation applied at once. */
  ghost predicate Refines(codec: Codec, s: System, s': System) {
    || Content(s'.drawer) == Content(s.drawer)
    || exists i, now :: 0 <= i < |s.procs| && Classify(codec, s'.drawer) == Effect(s.procs[i].op, now, Classify(codec, s.drawer))
  }

  /** This event makes its process answer true to a stamp or a supersede. */
  predicate AnswersTrue(codec: Codec, s: System, e: Event)
    requires Enabled(codec, true, s, e)
  {
    e.Go? && Next(codec, true, s, e).procs[e.i].pc == Returned(Stamped(true))
  }

  /** The time of the last stamp to answer true, as its process read the clock; `from` when none does. */
  ghost function LastStamp(codec: Codec, s: System, events: seq<Event>, from: U64): U64
    requires Legal(codec, true, s, events)
    decreases |events|
  {
    if events == [] then from
    else
      var e := events[0];
      var stamps := AnswersTrue(codec, s, e) && !s.procs[e.i].op.Supersede? && s.procs[e.i].pc.Committing?;
      LastStamp(codec, Next(codec, true, s, e), events[1..], if stamps then s.procs[e.i].pc.todo.lastUse else from)
  }

  /** The heir named by the last supersede to answer true; `from` when none does. */
  ghost function LastHeir(codec: Codec, s: System, events: seq<Event>, from: Option<Bytes>): Option<Bytes>
    requires Legal(codec, true, s, events)
    decreases |events|
  {
    if events == [] then from
    else
      var e := events[0];
      var names := AnswersTrue(codec, s, e) && s.procs[e.i].op.Supersede?;
      LastHeir(codec, Next(codec, true, s, e), events[1..], if names then Some(s.procs[e.i].op.heir) else from)
  }

  /** Over a valid sentinel nothing else changes what is shown. */
  lemma OnlySuccessShows(codec: Codec, s: System, e: Event)
    requires Lawful(codec) && Locked(codec, s) && Enabled(codec, true, s, e) && Classify(codec, s.drawer).Valid?
    requires !AnswersTrue(codec, s, e)
    ensures Content(Next(codec, true, s, e).drawer) == Content(s.drawer)
  {
    if e.Go? {
      var p := s.procs[e.i];
      assert Knows(p.op, p.pc, Classify(codec, s.drawer));
      OnlyCommitsShow(codec, p.op, p.pc, s.drawer, e.out);
    }
  }

  /** A stamp or supersede that answers true has, in that step, changed its own field and no other. */
  lemma SuccessIsVisible(codec: Codec, s: System, e: Event)
    requires Lawful(codec) && Locked(codec, s) && Enabled(codec, true, s, e) && AnswersTrue(codec, s, e)
    ensures s.procs[e.i].pc.Committing? && !Registers(s.procs[e.i].op) && Classify(codec, s.drawer).Valid?
    ensures Classify(codec, Next(codec, true, s, e).drawer)
            == Valid(Rewrite(s.procs[e.i].op, s.procs[e.i].pc.todo.lastUse, Classify(codec, s.drawer).record))
  {
    var p := s.procs[e.i];
    assert Knows(p.op, p.pc, Classify(codec, s.drawer));
    OnlyCommitsShow(codec, p.op, p.pc, s.drawer, e.out);
  }

  /** No update is lost over any run from a valid sentinel: it ends showing the time of the last stamp
      that answered true and the heir of the last supersede that did, whatever came between them, and
      everything else as it was. */
  lemma {:induction false} NoUpdateIsLost(codec: Codec, s: System, events: seq<Event>)
    requires Lawful(codec) && Locked(codec, s) && Legal(codec, true, s, events) && Classify(codec, s.drawer).Valid?
    ensures var r := Classify(codec, s.drawer).record;
            Classify(codec, Outcome(codec, true, s, events).drawer)
            == Valid(r.(lastUse := LastStamp(codec, s, events, r.lastUse),
                        supersededBy := LastHeir(codec, s, events, r.supersededBy)))
    decreases |events|
  {
    if events != [] {
      LockedStays(codec, s, events[0]);
      if AnswersTrue(codec, s, events[0]) {
        SuccessIsVisible(codec, s, events[0]);
      } else {
        OnlySuccessShows(codec, s, events[0]);
      }
      NoUpdateIsLost(codec, Next(codec, true, s, events[0]), events[1..]);
    }
  }

  lemma {:induction false} LockedRuns(codec: Codec, s: System, events: seq<Event>)
    requires Lawful(codec) && Locked(codec, s) && Legal(codec, true, s, events)
    ensures Locked(codec, Outcome(codec, true, s, events))
    decreases |events|
  {
    if events != [] {
      LockedStays(codec, s, events[0]);
      LockedRuns(codec, Next(codec, true, s, events[0]), events[1..]);
    }
  }

  /** Once valid, who the drawer belongs to and since when never change, and a retired drawer stays
      retired. */
  lemma {:induction false} IdentityIsForever(codec: Codec, s: System, events: seq<Event>)
    requires Lawful(codec) && Locked(codec, s) && Legal(codec, true, s, events)
    requires Classify(codec, s.drawer).Valid?
    ensures var before := Classify(codec, s.drawer); var after := Classify(codec, Outcome(codec, true, s, events).drawer);
            && after.Valid? && SameIdentity(after.record, before.record)
            && (before.record.supersededBy.Some? ==> after.record.supersededBy.Some?)
    decreases |events|
  {
    if events != [] {
      var s' := Next(codec, true, s, events[0]);
      LockedStays(codec, s, events[0]);
      if Content(s'.drawer) != Content(s.drawer) {
        var i, now :| 0 <= i < |s.procs| && Classify(codec, s'.drawer) == Effect(s.procs[i].op, now, Classify(codec, s.drawer));
        EffectKeepsIdentity(s.procs[i].op, now, Classify(codec, s.drawer));
      }
      IdentityIsForever(codec, s', events[1..]);
    }
  }

  /** A sentinel of a newer schema is left byte for byte alone. */
  lemma {:induction false} FutureIsUntouched(codec: Codec, s: System, events: seq<Event>)
    requires Lawful(codec) && Locked(codec, s) && Legal(codec, true, s, events)
    requires Classify(codec, s.drawer).Future?
    ensures Content(Outcome(codec, true, s, events).drawer) == Content(s.drawer)
    decreases |events|
  {
    if events != [] {
      FutureStep(codec, s, events[0]);
      LockedStays(codec, s, events[0]);
      FutureIsUntouched(codec, Next(codec, true, s, events[0]), events[1..]);
    }
  }

  lemma FutureStep(codec: Codec, s: System, e: Event)
    requires Lawful(codec) && Locked(codec, s) && Enabled(codec, true, s, e)
    requires Classify(codec, s.drawer).Future?
    ensures Content(Next(codec, true, s, e).drawer) == Content(s.drawer)
  {
    if e.Go? {
      var p := s.procs[e.i];
      OnlyCommitsShow(codec, p.op, p.pc, s.drawer, e.out);
    }
  }

  /** A reader, lock or no lock, gets the bytes that were there at the start or one whole record. */
  lemma {:induction false} ReadersSeeWhole(codec: Codec, locking: bool, s: System, events: seq<Event>)
    requires Filed(codec, s) && Legal(codec, locking, s, events)
    ensures var after := Content(Outcome(codec, locking, s, events).drawer);
            after == Content(s.drawer) || exists r :: after == Some(codec.encode(r))
    decreases |events|
  {
    if events != [] {
      FiledStays(codec, locking, s, events[0]);
      if events[0].Go? {
        var p := s.procs[events[0].i];
        OnlyCommitsShow(codec, p.op, p.pc, s.drawer, events[0].out);
      }
      ReadersSeeWhole(codec, locking, Next(codec, locking, s, events[0]), events[1..]);
    }
  }

  function Quiet(d: Drawer): System { System(d, [], None) }

  /** Through any run from any drawer: every registration that returned, while the format is not a
      newer one, returned the identity the sentinel now shows, so any two agree. */
  lemma RegistrarsConverge(codec: Codec, d: Drawer, events: seq<Event>, i: nat, j: nat)
    requires Lawful(codec) && Wf(d) && Legal(codec, true, Quiet(d), events)
    ensures var s := Outcome(codec, true, Quiet(d), events);
            i < |s.procs| && s.procs[i].pc.Returned? && s.procs[i].pc.reply.Identity? && !Classify(codec, s.drawer).Future? ==>
              && Classify(codec, s.drawer).Valid?
              && SameIdentity(Classify(codec, s.drawer).record, s.procs[i].pc.reply.record)
              && (j < |s.procs| && s.procs[j].pc.Returned? && s.procs[j].pc.reply.Identity? ==>
                    SameIdentity(s.procs[i].pc.reply.record, s.procs[j].pc.reply.record))
  {
    LockedRuns(codec, Quiet(d), events);
  }

  // ---- without the lock --------------------------------------------------------------------

  /** Registrations only, from a sentinel that is absent or already valid. */
  ghost predicate Linked(codec: Codec, s: System) {
    && Filed(codec, s)
    && (Classify(codec, s.drawer).Absent? || Classify(codec, s.drawer).Valid?)
    && (forall i | 0 <= i < |s.procs| :: Registers(s.procs[i].op) && LinkKnows(s.procs[i].pc, Classify(codec, s.drawer)))
  }

  predicate LinkKnows(pc: Pc, state: State) {
    match pc
    case Creating(todo) => todo.schema <= SENTINEL_SCHEMA
    case Writing(todo, _, _) => todo.schema <= SENTINEL_SCHEMA
    case Committing(todo, _) => todo.schema <= SENTINEL_SCHEMA
    case Rereading(_, _) => state.Valid?
    case Replacing(_, _) => false
    case Cleaning(reply, _) => reply.Identity? ==> state == Valid(reply.record)
    case Returned(reply) => reply.Identity? ==> state == Valid(reply.record)
    case _ => true
  }

  predicate OnlyRegisters(e: Event) { e.Arrive? ==> Registers(e.op) }

  /** One step of one registration, and what it leaves the others knowing. */
  lemma LinkSteps(codec: Codec, op: Op, pc: Pc, d: Drawer, out: Outside)
    requires Lawful(codec) && Wf(d) && Private(codec, pc, d) && Able(codec, pc, d, out)
    requires Registers(op) && LinkKnows(pc, Classify(codec, d)) && (Classify(codec, d).Absent? || Classify(codec, d).Valid?)
    ensures var (pc', d') := Advance(codec, op, pc, d, out);
            && LinkKnows(pc', Classify(codec, d'))
            && (Content(d') == Content(d) || (Classify(codec, d).Absent? && Classify(codec, d').Valid?))
  {
    OnlyCommitsShow(codec, op, pc, d, out);
  }

  lemma LinkKnowsMore(pc: Pc, was: State, state: State)
    requires LinkKnows(pc, was) && (was == state || (was.Absent? && state.Valid?))
    ensures LinkKnows(pc, state)
  {
  }

  lemma GoStaysLinked(codec: Codec, s: System, i: nat, out: Outside)
    requires Lawful(codec) && Linked(codec, s) && Enabled(codec, false, s, Go(i, out))
    ensures var s' := Next(codec, false, s, Go(i, out));
            && Linked(codec, s')
            && (Classify(codec, s.drawer).Valid? ==> Content(s'.drawer) == Content(s.drawer))
  {
    var p := s.procs[i];
    var s' := Next(codec, false, s, Go(i, out));
    FiledStays(codec, false, s, Go(i, out));
    LinkSteps(codec, p.op, p.pc, s.drawer, out);
    forall j | 0 <= j < |s.procs| && j != i ensures LinkKnows(s'.procs[j].pc, Classify(codec, s'.drawer)) {
      LinkKnowsMore(s.procs[j].pc, Classify(codec, s.drawer), Classify(codec, s'.drawer));
    }
  }

  lemma LinkedStays(codec: Codec, s: System, e: Event)
    requires Lawful(codec) && Linked(codec, s) && Enabled(codec, false, s, e) && OnlyRegisters(e)
    ensures var s' := Next(codec, false, s, e);
            && Linked(codec, s')
            && (Classify(codec, s.drawer).Valid? ==> Content(s'.drawer) == Content(s.drawer))
  {
    if e.Go? {
      GoStaysLinked(codec, s, e.i, e.out);
    } else {
      FiledStays(codec, false, s, e);
    }
  }

  lemma {:induction false} LinkedRuns(codec: Codec, s: System, events: seq<Event>)
    requires Lawful(codec) && Linked(codec, s) && Legal(codec, false, s, events)
    requires forall e :: e in events ==> OnlyRegisters(e)
    ensures Linked(codec, Outcome(codec, false, s, events))
    decreases |events|
  {
    if events != [] {
      assert events[0] in events;
      LinkedStays(codec, s, events[0]);
      LinkedRuns(codec, Next(codec, false, s, events[0]), events[1..]);
    }
  }

  /** From an absent sentinel the exclusive link alone makes every registrar return one record. */
  lemma LinkAloneConverges(codec: Codec, d: Drawer, events: seq<Event>, i: nat)
    requires Lawful(codec) && Wf(d) && d.sentinel == None && Legal(codec, false, Quiet(d), events)
    requires forall e :: e in events ==> OnlyRegisters(e)
    ensures var s := Outcome(codec, false, Quiet(d), events);
            i < |s.procs| && s.procs[i].pc.Returned? && s.procs[i].pc.reply.Identity? ==>
              Classify(codec, s.drawer) == Valid(s.procs[i].pc.reply.record)
  {
    LinkedRuns(codec, Quiet(d), events);
  }

  lemma {:induction false} RunsCompose(codec: Codec, s: System, a: seq<Event>, b: seq<Event>)
    requires Legal(codec, false, s, a) && Legal(codec, false, Outcome(codec, false, s, a), b)
    ensures Legal(codec, false, s, a + b)
    ensures Outcome(codec, false, s, a + b) == Outcome(codec, false, Outcome(codec, false, s, a), b)
    decreases |a|
  {
    if a == [] {
      assert a + b == b;
    } else {
      assert (a + b)[0] == a[0] && (a + b)[1..] == a[1..] + b;
      RunsCompose(codec, Next(codec, false, s, a[0]), a[1..], b);
    }
  }

  lemma OneMore(codec: Codec, s: System, a: seq<Event>, e: Event)
    requires Legal(codec, false, s, a) && Enabled(codec, false, Outcome(codec, false, s, a), e)
    ensures Legal(codec, false, s, a + [e])
    ensures Outcome(codec, false, s, a + [e]) == Next(codec, false, Outcome(codec, false, s, a), e)
  {
    var mid := Outcome(codec, false, s, a);
    assert [e][1..] == [];
    assert Legal(codec, false, mid, [e]) && Outcome(codec, false, mid, [e]) == Next(codec, false, mid, e);
    RunsCompose(codec, s, a, [e]);
  }

  // A registrar alone, from reading garbage to being about to replace it.

  function WithTemp(codec: Codec, d: Drawer, todo: Record, name: TempName): Drawer {
    d.(temps := d.temps[name := |d.contents|], contents := d.contents + [codec.encode(todo)])
  }

  function Put(s: System, i: nat, d: Drawer, pc: Pc): System
    requires i < |s.procs|
  {
    System(d, s.procs[i := s.procs[i].(pc := pc)], s.holder)
  }

  lemma GoPut(codec: Codec, s: System, events: seq<Event>, at: System, i: nat, d: Drawer, pc: Pc, out: Outside, pc': Pc, d': Drawer)
    returns (more: seq<Event>)
    requires i < |at.procs| && Legal(codec, false, s, events) && Outcome(codec, false, s, events) == Put(at, i, d, pc)
    requires Able(codec, pc, d, out) && Advance(codec, at.procs[i].op, pc, d, out) == (pc', d')
    requires at.holder == None
    ensures Legal(codec, false, s, more) && Outcome(codec, false, s, more) == Put(at, i, d', pc')
    ensures more == events + [Go(i, out)]
  {
    more := events + [Go(i, out)];
    var mid := Put(at, i, d, pc);
    OneMore(codec, s, events, Go(i, out));
    assert mid.procs[i := Process(at.procs[i].op, pc')] == at.procs[i := at.procs[i].(pc := pc')];
  }

  lemma GarbageStays(codec: Codec, d: Drawer, todo: Record, name: TempName)
    requires Wf(d) && Classify(codec, d).Garbage? && name !in d.temps
    ensures Content(WithTemp(codec, d, todo, name)) == Content(d) && Wf(WithTemp(codec, d, todo, name))
  {
  }

  lemma ToReplacing(codec: Codec, s: System, events: seq<Event>, at: System, i: nat, now: U64, name: TempName)
    returns (more: seq<Event>)
    requires Lawful(codec) && Legal(codec, false, s, events) && Outcome(codec, false, s, events) == at
    requires i < |at.procs| && at.procs[i].pc == Reading && Registers(at.procs[i].op) && at.holder == None
    requires Wf(at.drawer) && Classify(codec, at.drawer).Garbage? && name !in at.drawer.temps
    ensures var todo := Fresh(at.procs[i].op.workspace, now);
            && Legal(codec, false, s, more)
            && Outcome(codec, false, s, more) == Put(at, i, WithTemp(codec, at.drawer, todo, name), Replacing(todo, name))
  {
    var d := at.drawer;
    var todo := Fresh(at.procs[i].op.workspace, now);
    var inode := |d.contents|;
    var empty := d.(temps := d.temps[name := inode], contents := d.contents + [[]]);
    var whole := WithTemp(codec, d, todo, name);
    var out := Outside(now, name, |codec.encode(todo)|);
    var still := Outside(now, name, 0);
    GarbageStays(codec, d, todo, name);
    assert Put(at, i, d, Reading) == at;
    more := GoPut(codec, s, events, at, i, d, Reading, out, Creating(todo), d);
    more := GoPut(codec, s, more, at, i, d, Creating(todo), out, Writing(todo, name, inode), empty);
    if |codec.encode(todo)| > 0 {
      WritesAll(codec, todo, name, d);
      more := GoPut(codec, s, more, at, i, empty, Writing(todo, name, inode), out, Writing(todo, name, inode), whole);
    }
    assert whole.contents[inode] == codec.encode(todo);
    more := GoPut(codec, s, more, at, i, whole, Writing(todo, name, inode), still, Committing(todo, name), whole);
    more := GoPut(codec, s, more, at, i, whole, Committing(todo, name), out, Rereading(todo, name), whole);
    more := GoPut(codec, s, more, at, i, whole, Rereading(todo, name), out, Replacing(todo, name), whole);
  }

  lemma WritesAll(codec: Codec, todo: Record, name: TempName, d: Drawer)
    requires |codec.encode(todo)| > 0
    ensures var inode := |d.contents|; var bytes := codec.encode(todo);
            var empty := d.(temps := d.temps[name := inode], contents := d.contents + [[]]);
            WriteStep(codec, todo, name, inode, empty, |bytes|) == (Writing(todo, name, inode), WithTemp(codec, d, todo, name))
  {
    var bytes := codec.encode(todo);
    assert [] + bytes[0..|bytes|] == bytes;
    assert (d.contents + [[]])[|d.contents| := bytes] == d.contents + [bytes];
  }

  function Registrars(workspace: Bytes, pc: Pc): seq<Process> {
    [Process(Register(workspace), pc), Process(Register(workspace), pc)]
  }

  lemma BothReading(codec: Codec, d: Drawer, workspace: Bytes, out: Outside) returns (events: seq<Event>)
    requires d.present
    ensures Legal(codec, false, Quiet(d), events)
    ensures Outcome(codec, false, Quiet(d), events) == System(d, Registrars(workspace, Reading), None)
  {
    var s := Quiet(d);
    var op := Register(workspace);
    events := [];
    OneMore(codec, s, events, Arrive(op));
    events := events + [Arrive(op)];
    OneMore(codec, s, events, Arrive(op));
    events := events + [Arrive(op)];
    assert Outcome(codec, false, s, events) == System(d, Registrars(workspace, Opening), None);
    OneMore(codec, s, events, Go(0, out));
    events := events + [Go(0, out)];
    OneMore(codec, s, events, Go(1, out));
    events := events + [Go(1, out)];
    assert Outcome(codec, false, s, events) == System(d, Registrars(workspace, Waiting), None);
    OneMore(codec, s, events, Enter(0));
    events := events + [Enter(0)];
    OneMore(codec, s, events, Enter(1));
    events := events + [Enter(1)];
  }

  /** From garbage the lock is needed: without it two registrars of one drawer, a clock tick apart,
      can both heal it and return different identities. */
  lemma GarbageNeedsTheLock(codec: Codec, d: Drawer, workspace: Bytes, now0: U64, now1: U64, name0: TempName, name1: TempName)
    returns (events: seq<Event>)
    requires Lawful(codec) && Wf(d) && d.present && Classify(codec, d).Garbage?
    requires now0 != now1 && name0 != name1 && name0 !in d.temps && name1 !in d.temps
    ensures Legal(codec, false, Quiet(d), events)
    ensures var procs := Outcome(codec, false, Quiet(d), events).procs;
            && |procs| == 2
            && procs[0].pc == Returned(Identity(Fresh(workspace, now0)))
            && procs[1].pc == Returned(Identity(Fresh(workspace, now1)))
            && !SameIdentity(Fresh(workspace, now0), Fresh(workspace, now1))
  {
    var todo0, todo1 := Fresh(workspace, now0), Fresh(workspace, now1);
    var out := Outside(now0, name0, 0);
    events := BothReading(codec, d, workspace, out);
    var at := System(d, Registrars(workspace, Reading), None);
    events := ToReplacing(codec, Quiet(d), events, at, 0, now0, name0);
    at := Put(at, 0, WithTemp(codec, d, todo0, name0), Replacing(todo0, name0));
    GarbageStays(codec, d, todo0, name0);
    events := ToReplacing(codec, Quiet(d), events, at, 1, now1, name1);
    var both := WithTemp(codec, at.drawer, todo1, name1);
    at := Put(at, 1, both, Replacing(todo1, name1));
    assert at == Put(at, 0, both, Replacing(todo0, name0));
    events := GoPut(codec, Quiet(d), events, at, 0, both, Replacing(todo0, name0), out,
                    Returned(Identity(todo0)), Renamed(both, name0));
    at := Put(at, 0, Renamed(both, name0), Returned(Identity(todo0)));
    assert at == Put(at, 1, at.drawer, Replacing(todo1, name1));
    events := GoPut(codec, Quiet(d), events, at, 1, at.drawer, Replacing(todo1, name1), out,
                    Returned(Identity(todo1)), Renamed(at.drawer, name1));
  }
}
