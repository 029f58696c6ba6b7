/** The replay law of the script plane: an attempt re-run against its own recording.

    A script is any deterministic strategy: what it does next is a function of its inputs and of the
    responses it has had. A live host is any function of the call's number, arguments and the edits
    armed so far; a recorded host serves a recording in call order and refuses on divergence. */
module Replay {
  import opened Bytes

  /** Selectors are compared by structure, never by spelling. */
  datatype Segment = Segment(heading: Bytes, occurrence: Option<nat>)
  datatype ReadSel = Hpath(hpath: seq<Segment>) | Dewey(n: Bytes) | Anchor(anchor: Bytes)

  datatype Face = Toc(facts: Bytes) | Section(facts: Bytes)

  datatype ReadRecord = ReadRecord(path: Bytes, section: Option<ReadSel>, line: nat, echo: bool, face: Face)

  datatype ArmedEdit = ArmedEdit(path: Bytes, edit: Bytes, line: nat, depth: nat)

  datatype Site = Site(line: nat, column: nat)

  datatype Inputs = Inputs(actor: Bytes, args: map<Bytes, Bytes>, files: seq<Bytes>)

  datatype Action =
    | Read(path: Bytes, section: Option<ReadSel>, site: Option<Site>)
    | Arm(target: Bytes, items: seq<Bytes>, line: nat, depth: nat)
    | Finish(bindings: map<Bytes, Bytes>)
    | Raise(reason: Bytes)

  datatype Response = Served(face: Face) | Armed

  datatype Script = Script(echoAt: set<Site>, next: (Inputs, seq<Response>) -> Action)

  datatype Limits = Limits(maxReads: nat, maxArmedEdits: nat, fuel: nat)

  datatype Fault = HostFault(reason: Bytes) | NoFurtherRead | Diverges | WrongFace

  datatype Outcome =
    | Facts(bindings: map<Bytes, Bytes>)
    | ReadBudget(limit: nat)
    | ArmedBudget(line: nat, limit: nat)
    | FuelBudget
    | ReadFailed(fault: Fault)
    | Raised(reason: Bytes)
    | EffectsRefused

  // ---- hosts -----------------------------------------------------------------------------

  /** A live host answers with the facts of the face asked for: `toc` without a section, `cat` with. */
  datatype World =
    | Live(answer: (nat, Bytes, Option<ReadSel>, seq<ArmedEdit>) -> Result<Bytes, Fault>)
    | Recorded(rows: seq<ReadRecord>)

  function FaceOf(section: Option<ReadSel>, facts: Bytes): Face {
    if section.Some? then Section(facts) else Toc(facts)
  }

  /** The recorded read at the cursor; the cursor moves past it once path and selector match. */
  function Recall(rows: seq<ReadRecord>, next: nat, path: Bytes, section: Option<ReadSel>): (Result<Bytes, Fault>, nat) {
    if next >= |rows| then (Err(NoFurtherRead), next)
    else if rows[next].path != path || rows[next].section != section then (Err(Diverges), next)
    else if rows[next].face.Section? != section.Some? then (Err(WrongFace), next + 1)
    else (Ok(rows[next].face.facts), next + 1)
  }

  function Answer(world: World, next: nat, path: Bytes, section: Option<ReadSel>, armed: seq<ArmedEdit>): (Result<Bytes, Fault>, nat) {
    match world
    case Live(answer) => (answer(next, path, section, armed), next + 1)
    case Recorded(rows) => Recall(rows, next, path, section)
  }

  // ---- one attempt -----------------------------------------------------------------------

  datatype ArmRefusal = ArmRefusal(line: nat, limit: nat)

  datatype Entry = Entry(
    records: seq<ReadRecord>, armed: seq<ArmedEdit>, overReadBudget: bool, fault: Option<Fault>,
    armRefusal: Option<ArmRefusal>, next: nat)

  function Start(): Entry { Entry([], [], false, None, None, 0) }

  function Record(script: Script, path: Bytes, section: Option<ReadSel>, site: Option<Site>, face: Face): ReadRecord {
    ReadRecord(path, section, if site.Some? then site.value.line + 1 else 0, site.Some? && site.value in script.echoAt, face)
  }

  function ReadStep(script: Script, limits: Limits, world: World, e: Entry, path: Bytes, section: Option<ReadSel>, site: Option<Site>)
    : (Option<Face>, Entry)
  {
    if |e.records| >= limits.maxReads then (None, e.(overReadBudget := true))
    else
      var (answered, next) := Answer(world, e.next, path, section, e.armed);
      match answered
      case Err(fault) => (None, e.(fault := Some(fault), next := next))
      case Ok(facts) =>
        var face := FaceOf(section, facts);
        (Some(face), e.(records := e.records + [Record(script, path, section, site, face)], next := next))
  }

  function Edits(path: Bytes, items: seq<Bytes>, line: nat, depth: nat): seq<ArmedEdit> {
    seq(|items|, i requires 0 <= i < |items| => ArmedEdit(path, items[i], line, depth))
  }

  function ArmStep(limits: Limits, e: Entry, path: Bytes, items: seq<Bytes>, line: nat, depth: nat): (bool, Entry) {
    if |e.armed| + |items| > limits.maxArmedEdits then (false, e.(armRefusal := Some(ArmRefusal(line, limits.maxArmedEdits))))
    else (true, e.(armed := e.armed + Edits(path, items, line, depth)))
  }

  /** Why an aborted attempt refused: the read ceiling, then the arm ceiling, then the abort's own. */
  function Classified(limits: Limits, e: Entry, abort: Outcome): Outcome {
    if e.overReadBudget then ReadBudget(limits.maxReads)
    else if e.armRefusal.Some? then ArmedBudget(e.armRefusal.value.line, e.armRefusal.value.limit)
    else abort
  }

  function Aborted(e: Entry): Outcome { if e.fault.Some? then ReadFailed(e.fault.value) else Raised([]) }

  /** The attempt from a given history on. The meter stops a script that never finishes. */
  function Run(script: Script, inputs: Inputs, limits: Limits, world: World, history: seq<Response>, e: Entry, fuel: nat)
    : (Outcome, Entry)
    decreases fuel
  {
    if fuel == 0 then (Classified(limits, e, FuelBudget), e)
    else
      match script.next(inputs, history)
      case Finish(bindings) => (Facts(bindings), e)
      case Raise(reason) => (Classified(limits, e, Raised(reason)), e)
      case Read(path, section, site) =>
        var (face, e') := ReadStep(script, limits, world, e, path, section, site);
        if face.None? then (Classified(limits, e', Aborted(e')), e')
        else Run(script, inputs, limits, world, history + [Served(face.value)], e', fuel - 1)
      case Arm(path, items, line, depth) =>
        var (armed, e') := ArmStep(limits, e, path, items, line, depth);
        if !armed then (Classified(limits, e', Aborted(e')), e')
        else Run(script, inputs, limits, world, history + [Armed], e', fuel - 1)
  }

  function Attempt(script: Script, inputs: Inputs, limits: Limits, world: World): (Outcome, Entry) {
    Run(script, inputs, limits, world, [], Start(), limits.fuel)
  }

  // ---- the law ---------------------------------------------------------------------------

  lemma {:induction false} ReadsGrow(script: Script, inputs: Inputs, limits: Limits, world: World, history: seq<Response>, e: Entry, fuel: nat)
    ensures var final := Run(script, inputs, limits, world, history, e, fuel).1;
            e.records <= final.records && e.armed <= final.armed
    decreases fuel
  {
    if fuel > 0 {
      match script.next(inputs, history)
      case Read(path, section, site) =>
        var (face, e') := ReadStep(script, limits, world, e, path, section, site);
        if face.Some? { ReadsGrow(script, inputs, limits, world, history + [Served(face.value)], e', fuel - 1); }
      case Arm(path, items, line, depth) =>
        var (armed, e') := ArmStep(limits, e, path, items, line, depth);
        if armed { ReadsGrow(script, inputs, limits, world, history + [Armed], e', fuel - 1); }
      case _ =>
    }
  }

  /** The replaying entry in the live one's place: same reads, same edits, the cursor at their end. */
  function Mirrored(e: Entry): Entry { e.(next := |e.records|) }

  /** How a live ending looks replayed: the same, but a host's refusal becomes the recording's end. */
  function Replayed(outcome: Outcome, e: Entry): (Outcome, Entry) {
    if e.fault.Some? then (ReadFailed(NoFurtherRead), Mirrored(e).(fault := Some(NoFurtherRead))) else (outcome, Mirrored(e))
  }

  ghost predicate Unrefused(e: Entry) { !e.overReadBudget && e.armRefusal.None? && e.fault.None? }

  lemma {:induction false} Follows(script: Script, inputs: Inputs, limits: Limits, live: World, history: seq<Response>, e: Entry, fuel: nat)
    requires live.Live? && Unrefused(e)
    ensures var (outcome, final) := Run(script, inputs, limits, live, history, e, fuel);
            Run(script, inputs, limits, Recorded(final.records), history, Mirrored(e), fuel) == Replayed(outcome, final)
    decreases fuel
  {
    var final := Run(script, inputs, limits, live, history, e, fuel).1;
    if fuel > 0 {
      match script.next(inputs, history)
      case Read(path, section, site) =>
        var (face, e') := ReadStep(script, limits, live, e, path, section, site);
        if face.Some? {
          var h := history + [Served(face.value)];
          ReadsGrow(script, inputs, limits, live, h, e', fuel - 1);
          assert final.records[|e.records|] == e'.records[|e.records|];
          assert ReadStep(script, limits, Recorded(final.records), Mirrored(e), path, section, site) == (face, Mirrored(e'));
          Follows(script, inputs, limits, live, h, e', fuel - 1);
        }
      case Arm(path, items, line, depth) =>
        var (armed, e') := ArmStep(limits, e, path, items, line, depth);
        if armed {
          Follows(script, inputs, limits, live, history + [Armed], e', fuel - 1);
        }
      case _ =>
    }
  }

  /** A recording of this kernel never pairs a selector with the other face. */
  ghost predicate Genuine(rows: seq<ReadRecord>) {
    forall r :: r in rows ==> (r.face.Section? <==> r.section.Some?)
  }

  lemma {:induction false} RecordingsAreGenuine(script: Script, inputs: Inputs, limits: Limits, world: World, history: seq<Response>, e: Entry, fuel: nat)
    requires Genuine(e.records)
    ensures Genuine(Run(script, inputs, limits, world, history, e, fuel).1.records)
    decreases fuel
  {
    if fuel > 0 {
      match script.next(inputs, history)
      case Read(path, section, site) =>
        var (face, e') := ReadStep(script, limits, world, e, path, section, site);
        if face.Some? { RecordingsAreGenuine(script, inputs, limits, world, history + [Served(face.value)], e', fuel - 1); }
      case Arm(path, items, line, depth) =>
        var (armed, e') := ArmStep(limits, e, path, items, line, depth);
        if armed { RecordingsAreGenuine(script, inputs, limits, world, history + [Armed], e', fuel - 1); }
      case _ =>
    }
  }

  /** Over a genuine recording no call, whatever it asks and wherever the cursor stands, meets the
      wrong face; over one that is not, exactly a row pairing a selector with a toc, or none with a
      section, does. */
  lemma WrongFaceExactlyWhenForged(rows: seq<ReadRecord>)
    ensures Genuine(rows) <==> forall next: nat, path, section :: Recall(rows, next, path, section).0 != Err(WrongFace)
  {
    if !Genuine(rows) {
      var i :| 0 <= i < |rows| && !(rows[i].face.Section? <==> rows[i].section.Some?);
      assert Recall(rows, i, rows[i].path, rows[i].section).0 == Err(WrongFace);
    }
  }

  /** Whatever recording a replay is given, its own reads are the recording's, row by row: same path,
      same selector, same face. */
  ghost predicate Echoes(records: seq<ReadRecord>, rows: seq<ReadRecord>) {
    && |records| <= |rows|
    && forall k | 0 <= k < |records| ::
         records[k].path == rows[k].path && records[k].section == rows[k].section && records[k].face == rows[k].face
  }

  lemma {:induction false} ReplayNeverForges(script: Script, inputs: Inputs, limits: Limits, rows: seq<ReadRecord>, history: seq<Response>, e: Entry, fuel: nat)
    requires e.next == |e.records| && Echoes(e.records, rows)
    ensures Echoes(Run(script, inputs, limits, Recorded(rows), history, e, fuel).1.records, rows)
    decreases fuel
  {
    if fuel > 0 {
      match script.next(inputs, history)
      case Read(path, section, site) =>
        var (face, e') := ReadStep(script, limits, Recorded(rows), e, path, section, site);
        if face.Some? { ReplayNeverForges(script, inputs, limits, rows, history + [Served(face.value)], e', fuel - 1); }
      case Arm(path, items, line, depth) =>
        var (armed, e') := ArmStep(limits, e, path, items, line, depth);
        if armed { ReplayNeverForges(script, inputs, limits, rows, history + [Armed], e', fuel - 1); }
      case _ =>
    }
  }

  // ---- the `files` binding ---------------------------------------------------------------

  datatype ExpansionRecord = ExpansionRecord(pattern: Bytes, matched: seq<Bytes>)

  /** A glob grammar: which members are patterns, and what each matched at entry, sorted. */
  datatype Globs = Globs(isPattern: Bytes -> bool, matches: Bytes -> seq<Bytes>)

  function Dedup(paths: seq<Bytes>, seen: set<Bytes>): seq<Bytes> {
    if paths == [] then []
    else if paths[0] in seen then Dedup(paths[1..], seen)
    else [paths[0]] + Dedup(paths[1..], seen + {paths[0]})
  }

  function Spread(globs: Globs, members: seq<Bytes>): seq<Bytes> {
    if members == [] then []
    else (if globs.isPattern(members[0]) then globs.matches(members[0]) else [members[0]]) + Spread(globs, members[1..])
  }

  function Rows(globs: Globs, members: seq<Bytes>): seq<ExpansionRecord> {
    if members == [] then []
    else (if globs.isPattern(members[0]) then [ExpansionRecord(members[0], globs.matches(members[0]))] else []) + Rows(globs, members[1..])
  }

  /** What the serving lane binds: patterns spread in place and doubles dropped, or, with no pattern,
      the members as they are. */
  function Bound(globs: Globs, members: seq<Bytes>): seq<Bytes> {
    if Rows(globs, members) == [] then members else Dedup(Spread(globs, members), {})
  }

  function Recalled(rows: seq<ExpansionRecord>, member: Bytes): seq<Bytes> {
    if rows == [] then [member] else if rows[0].pattern == member then rows[0].matched else Recalled(rows[1..], member)
  }

  function Respread(rows: seq<ExpansionRecord>, members: seq<Bytes>): seq<Bytes> {
    if members == [] then [] else Recalled(rows, members[0]) + Respread(rows, members[1..])
  }

  function Rebound(rows: seq<ExpansionRecord>, members: seq<Bytes>): seq<Bytes> {
    if rows == [] then members else Dedup(Respread(rows, members), {})
  }

  lemma {:induction false} RecalledIs(globs: Globs, members: seq<Bytes>, member: Bytes)
    ensures member in members && globs.isPattern(member) ==> Recalled(Rows(globs, members), member) == globs.matches(member)
    ensures !globs.isPattern(member) ==> Recalled(Rows(globs, members), member) == [member]
  {
    if members != [] {
      RecalledIs(globs, members[1..], member);
      var rows := Rows(globs, members);
      if globs.isPattern(members[0]) {
        assert rows[0] == ExpansionRecord(members[0], globs.matches(members[0])) && rows[1..] == Rows(globs, members[1..]);
      } else {
        assert rows == Rows(globs, members[1..]);
      }
    }
  }

  lemma {:induction false} RespreadIs(globs: Globs, all: seq<Bytes>, members: seq<Bytes>)
    requires forall m :: m in members ==> m in all
    ensures Respread(Rows(globs, all), members) == Spread(globs, members)
  {
    if members != [] {
      RecalledIs(globs, all, members[0]);
      RespreadIs(globs, all, members[1..]);
    }
  }

  /** The original members and the recorded expansions give back the binding the attempt ran under. */
  lemma FilesComeBack(globs: Globs, members: seq<Bytes>)
    ensures Rebound(Rows(globs, members), members) == Bound(globs, members)
  {
    RespreadIs(globs, members, members);
  }

  // ---- replay ----------------------------------------------------------------------------

  datatype Recording = Recording(actor: Bytes, records: seq<ReadRecord>, expansions: seq<ExpansionRecord>)

  datatype Context = Context(args: map<Bytes, Bytes>, files: seq<Bytes>, effects: seq<Bytes>)

  function ReplayOf(script: Script, ctx: Context, limits: Limits, recording: Recording): (Outcome, seq<ArmedEdit>, seq<ReadRecord>) {
    if ctx.effects != [] then (EffectsRefused, [], recording.records)
    else
      var inputs := Inputs(recording.actor, ctx.args, Rebound(recording.expansions, ctx.files));
      var (outcome, e) := Attempt(script, inputs, limits, Recorded(recording.records));
      (outcome, e.armed, e.records)
  }

  /** The law. Against its own recording, and the members it was called with, a pure attempt has the
      same armed edits and the same reads; and the same outcome, ceilings included, unless the live
      host refused a read, when the replay is refused that read too. */
  lemma ReplayLaw(script: Script, ctx: Context, limits: Limits, actor: Bytes, globs: Globs, live: World)
    requires live.Live? && ctx.effects == []
    ensures var inputs := Inputs(actor, ctx.args, Bound(globs, ctx.files));
            var (outcome, e) := Attempt(script, inputs, limits, live);
            ReplayOf(script, ctx, limits, Recording(actor, e.records, Rows(globs, ctx.files)))
            == (if e.fault.Some? then ReadFailed(NoFurtherRead) else outcome, e.armed, e.records)
    ensures var (outcome, e) := Attempt(script, Inputs(actor, ctx.args, Bound(globs, ctx.files)), limits, live);
            e.fault.Some? <==> outcome.ReadFailed?
  {
    var inputs := Inputs(actor, ctx.args, Bound(globs, ctx.files));
    FilesComeBack(globs, ctx.files);
    Follows(script, inputs, limits, live, [], Start(), limits.fuel);
    FaultMeansRefused(script, inputs, limits, live, [], Start(), limits.fuel);
  }

  lemma {:induction false} FaultMeansRefused(script: Script, inputs: Inputs, limits: Limits, world: World, history: seq<Response>, e: Entry, fuel: nat)
    requires Unrefused(e)
    ensures var (outcome, final) := Run(script, inputs, limits, world, history, e, fuel);
            final.fault.Some? <==> outcome.ReadFailed?
    decreases fuel
  {
    if fuel > 0 {
      match script.next(inputs, history)
      case Read(path, section, site) =>
        var (face, e') := ReadStep(script, limits, world, e, path, section, site);
        if face.Some? { FaultMeansRefused(script, inputs, limits, world, history + [Served(face.value)], e', fuel - 1); }
      case Arm(path, items, line, depth) =>
        var (armed, e') := ArmStep(limits, e, path, items, line, depth);
        if armed { FaultMeansRefused(script, inputs, limits, world, history + [Armed], e', fuel - 1); }
      case _ =>
    }
  }

  /** No list is ever truncated: the ceilings hold throughout, and one refuses only when met. */
  lemma {:induction false} CeilingsHold(script: Script, inputs: Inputs, limits: Limits, world: World, history: seq<Response>, e: Entry, fuel: nat)
    requires Unrefused(e) && |e.records| <= limits.maxReads && |e.armed| <= limits.maxArmedEdits
    ensures var (outcome, final) := Run(script, inputs, limits, world, history, e, fuel);
            && |final.records| <= limits.maxReads && |final.armed| <= limits.maxArmedEdits
            && (outcome.ReadBudget? ==> outcome.limit == |final.records|)
            && (outcome.Facts? ==> Unrefused(final))
    decreases fuel
  {
    if fuel > 0 {
      match script.next(inputs, history)
      case Read(path, section, site) =>
        var (face, e') := ReadStep(script, limits, world, e, path, section, site);
        if face.Some? { CeilingsHold(script, inputs, limits, world, history + [Served(face.value)], e', fuel - 1); }
      case Arm(path, items, line, depth) =>
        var (armed, e') := ArmStep(limits, e, path, items, line, depth);
        if armed { CeilingsHold(script, inputs, limits, world, history + [Armed], e', fuel - 1); }
      case _ =>
    }
  }

  // ---- in place --------------------------------------------------------------------------

  class Host {
    const world: World
    var next: nat

    constructor (world: World)
      ensures this.world == world && next == 0
    {
      this.world := world;
      next := 0;
    }

    /** Take the next recorded response, refusing on divergence. */
    method NextFace(path: Bytes, section: Option<ReadSel>) returns (r: Result<Face, Fault>)
      requires world.Recorded?
      modifies this`next
      ensures var served := old(next) < |world.rows| && world.rows[old(next)].path == path && world.rows[old(next)].section == section;
              && next == (if served then old(next) + 1 else old(next))
              && (served ==> r == Ok(world.rows[old(next)].face))
              && (!served ==> r == Err(if old(next) < |world.rows| then Diverges else NoFurtherRead))
    {
      if next >= |world.rows| { return Err(NoFurtherRead); }
      var record := world.rows[next];
      if record.path != path || record.section != section { return Err(Diverges); }
      next := next + 1;
      r := Ok(record.face);
    }

    /** `toc` without a section, `cat` with one. */
    method Ask(path: Bytes, section: Option<ReadSel>, armed: seq<ArmedEdit>) returns (r: Result<Bytes, Fault>)
      modifies this`next
      ensures (r, next) == Answer(world, old(next), path, section, armed)
    {
      if world.Live? {
        r := world.answer(next, path, section, armed);
        next := next + 1;
        return;
      }
      var face := NextFace(path, section);
      if face.Err? { return Err(face.error); }
      if face.value.Section? != section.Some? { return Err(WrongFace); }
      r := Ok(face.value.facts);
    }
  }

  class ScriptEntry {
    const script: Script
    const limits: Limits
    const host: Host
    var records: seq<ReadRecord>
    var armed: seq<ArmedEdit>
    var overReadBudget: bool
    var fault: Option<Fault>
    var armRefusal: Option<ArmRefusal>

    constructor (script: Script, limits: Limits, host: Host)
      ensures this.script == script && this.limits == limits && this.host == host
      ensures State() == Start().(next := host.next)
    {
      this.script := script;
      this.limits := limits;
      this.host := host;
      records := [];
      armed := [];
      overReadBudget := false;
      fault := None;
      armRefusal := None;
    }

    ghost function State(): Entry
      reads this, host
    {
      Entry(records, armed, overReadBudget, fault, armRefusal, host.next)
    }

    method Read(path: Bytes, section: Option<ReadSel>, site: Option<Site>) returns (face: Option<Face>)
      modifies this, host
      ensures (face, State()) == ReadStep(script, limits, host.world, old(State()), path, section, site)
    {
      if |records| >= limits.maxReads {
        overReadBudget := true;
        return None;
      }
      var answered := host.Ask(path, section, armed);
      if answered.Err? {
        fault := Some(answered.error);
        return None;
      }
      face := Some(FaceOf(section, answered.value));
      records := records + [Record(script, path, section, site, face.value)];
    }

    /** Arm one call's items, all or none. */
    method Arm(path: Bytes, items: seq<Bytes>, line: nat, depth: nat) returns (ok: bool)
      modifies this
      ensures (ok, State()) == ArmStep(limits, old(State()), path, items, line, depth)
    {
      if |armed| + |items| > limits.maxArmedEdits {
        armRefusal := Some(ArmRefusal(line, limits.maxArmedEdits));
        return false;
      }
      armed := armed + Edits(path, items, line, depth);
      ok := true;
    }

    /** The whole attempt, metered. */
    method RunScript(inputs: Inputs) returns (outcome: Outcome)
      modifies this, host
      ensures (outcome, State()) == Run(script, inputs, limits, host.world, [], old(State()), limits.fuel)
    {
      var history: seq<Response> := [];
      var fuel := limits.fuel;
      ghost var all := Run(script, inputs, limits, host.world, [], State(), fuel);
      while fuel > 0
        invariant Run(script, inputs, limits, host.world, history, State(), fuel) == all
      {
        match script.next(inputs, history) {
          case Finish(bindings) => return Facts(bindings);
          case Raise(reason) => return Refusal(Raised(reason));
          case Read(path, section, site) =>
            var face := Read(path, section, site);
            if face.None? { return Refusal(if fault.Some? then ReadFailed(fault.value) else Raised([])); }
            history := history + [Served(face.value)];
          case Arm(path, items, line, depth) =>
            var ok := Arm(path, items, line, depth);
            if !ok { return Refusal(if fault.Some? then ReadFailed(fault.value) else Raised([])); }
            history := history + [Armed];
        }
        fuel := fuel - 1;
      }
      outcome := Refusal(FuelBudget);
    }

    function Refusal(abort: Outcome): (r: Outcome)
      reads this, host
      ensures r == Classified(limits, State(), abort)
    {
      if overReadBudget then ReadBudget(limits.maxReads)
      else if armRefusal.Some? then ArmedBudget(armRefusal.value.line, armRefusal.value.limit)
      else abort
    }
  }

  lemma Regroup(a: seq<Bytes>, b: seq<Bytes>, c: seq<Bytes>)
    ensures (a + b) + c == a + (b + c)
  {
  }

  /** The expansions put back in place, then the later doubles dropped. */
  method RebindFiles(rows: seq<ExpansionRecord>, members: seq<Bytes>) returns (files: seq<Bytes>)
    ensures files == Rebound(rows, members)
  {
    if rows == [] { return members; }
    var spread: seq<Bytes> := [];
    for i := 0 to |members|
      invariant spread + Respread(rows, members[i..]) == Respread(rows, members)
    {
      var found := Recalled(rows, members[i]);
      assert members[i..][1..] == members[i + 1..];
      Regroup(spread, found, Respread(rows, members[i + 1..]));
      spread := spread + found;
    }
    assert spread == Respread(rows, members);
    files := [];
    var seen: set<Bytes> := {};
    for i := 0 to |spread|
      invariant files + Dedup(spread[i..], seen) == Dedup(spread, {})
    {
      assert spread[i..][1..] == spread[i + 1..];
      if spread[i] !in seen {
        Regroup(files, [spread[i]], Dedup(spread[i + 1..], seen + {spread[i]}));
        files := files + [spread[i]];
        seen := seen + {spread[i]};
      }
    }
  }
}
