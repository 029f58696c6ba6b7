/** The registration sentinel of one cache drawer: what a locked operation does to it, run alone.

    A drawer is the `registered.json` entry, the temp entries beside it, and the files they name, as
    inodes: a hard link shares one, a rename moves an entry. How a record is spelled as JSON is a
    parameter, `Codec`, of which only the round trip is asked. */
module Sentinel {
  import opened Bytes

  const SENTINEL_SCHEMA := 1

  datatype Record = Record(
    schema: nat, workspace: Bytes, createdAt: U64, lastUse: U64, supersededBy: Option<Bytes>)

  datatype State = Valid(record: Record) | Future | Garbage | Absent

  datatype Codec = Codec(encode: Record -> Bytes, judge: Bytes -> State)

  /** What the JSON layer promises: a record this binary may write reads back as itself; what reads
      as valid is of a schema it understands; and a file that is there is never absent. */
  ghost predicate Lawful(codec: Codec) {
    && (forall r: Record :: r.schema <= SENTINEL_SCHEMA ==> codec.judge(codec.encode(r)) == Valid(r))
    && (forall b :: codec.judge(b).Valid? ==> codec.judge(b).record.schema <= SENTINEL_SCHEMA)
    && (forall b :: !codec.judge(b).Absent?)
  }

  type Inode = nat

  /** `.registered.json.<pid>.<nanos>.<counter>.tmp` */
  datatype TempName = TempName(pid: nat, nanos: nat, counter: nat)

  datatype Drawer = Drawer(
    present: bool, sentinel: Option<Inode>, temps: map<TempName, Inode>, contents: seq<Bytes>)

  ghost predicate Wf(d: Drawer) {
    && (d.sentinel.Some? ==> d.sentinel.value < |d.contents|)
    && (forall name :: name in d.temps ==> d.temps[name] < |d.contents|)
    && (forall a, b :: a in d.temps && b in d.temps && a != b ==> d.temps[a] != d.temps[b])
  }

  /** The bytes a reader of `registered.json` gets. */
  function Content(d: Drawer): Option<Bytes> {
    if d.sentinel.Some? && d.sentinel.value < |d.contents| then Some(d.contents[d.sentinel.value]) else None
  }

  function Classify(codec: Codec, d: Drawer): State {
    if Content(d).Some? then codec.judge(Content(d).value) else Absent
  }

  function Fresh(workspace: Bytes, now: U64): Record {
    Record(SENTINEL_SCHEMA, workspace, now, now, None)
  }

  // ---- what each operation means ---------------------------------------------------------

  datatype Op = Register(workspace: Bytes) | TryRegister(workspace: Bytes) | Stamp | TryStamp | Supersede(heir: Bytes)

  predicate Registers(op: Op) { op.Register? || op.TryRegister? }

  /** The one atomic effect of an operation at time `now` on what the sentinel says. */
  function Effect(op: Op, now: U64, state: State): State {
    match op
    case Stamp => if state.Valid? then Valid(state.record.(lastUse := now)) else state
    case TryStamp => if state.Valid? then Valid(state.record.(lastUse := now)) else state
    case Supersede(heir) => if state.Valid? then Valid(state.record.(supersededBy := Some(heir))) else state
    case _ => if state.Garbage? || state.Absent? then Valid(Fresh(op.workspace, now)) else state
  }

  /** Two states that no operation of this binary distinguishes as registrations. */
  predicate SameIdentity(a: Record, b: Record) {
    a.schema == b.schema && a.workspace == b.workspace && a.createdAt == b.createdAt
  }

  lemma EffectKeepsIdentity(op: Op, now: U64, state: State)
    requires state.Valid?
    ensures var after := Effect(op, now, state);
            && after.Valid? && SameIdentity(after.record, state.record)
            && (state.record.supersededBy.Some? ==> after.record.supersededBy.Some?)
  {
  }

  /** A stamp and a supersede commute: neither loses the other's field. */
  lemma StampAndSupersedeCommute(now: U64, at: U64, heir: Bytes, state: State)
    ensures Effect(Op.Stamp, now, Effect(Supersede(heir), at, state)) == Effect(Supersede(heir), at, Effect(Op.Stamp, now, state))
  {
  }

  // ---- the operations in place, the lock held --------------------------------------------

  /** Names still ahead of the counter. */
  ghost function Ahead(temps: map<TempName, Inode>, pid: nat, nanos: nat, counter: nat): set<TempName> {
    set name | name in temps && name.pid == pid && name.nanos == nanos && counter <= name.counter
  }

  /** The drawer with a new file of these bytes under `path`. */
  function WithTemp(d: Drawer, path: TempName, data: Bytes): Drawer {
    d.(temps := d.temps[path := |d.contents|], contents := d.contents + [data])
  }

  /** A whole record written under a free name and renamed over the sentinel: it is what the drawer then
      reads as, and no temp entry is left of it. */
  lemma Rewritten(codec: Codec, d: Drawer, path: TempName, r: Record)
    requires Lawful(codec) && Wf(d) && path !in d.temps && r.schema <= SENTINEL_SCHEMA
    ensures var written := WithTemp(d, path, codec.encode(r));
            var after := written.(sentinel := Some(written.temps[path]), temps := written.temps - {path});
            && after.temps == d.temps && d.contents <= after.contents && Classify(codec, after) == Valid(r)
  {
    assert (d.contents + [codec.encode(r)])[|d.contents|] == codec.encode(r);
  }

  /** A new file changes nothing a reader gets. */
  lemma TempIsUnread(codec: Codec, d: Drawer, path: TempName, data: Bytes)
    requires Wf(d) && path !in d.temps
    ensures Classify(codec, WithTemp(d, path, data)) == Classify(codec, d) && Content(WithTemp(d, path, data)) == Content(d)
    ensures WithTemp(d, path, data).temps - {path} == d.temps
  {
  }

  class LockedDrawer {
    var drawer: Drawer
    const codec: Codec
    const pid: nat

    constructor (codec: Codec, pid: nat, drawer: Drawer)
      ensures this.codec == codec && this.pid == pid && this.drawer == drawer
    {
      this.codec := codec;
      this.pid := pid;
      this.drawer := drawer;
    }

    /** The `create_new` loop: the first counter whose name is free. */
    method FreeName(nanos: nat) returns (path: TempName)
      ensures path !in drawer.temps && path.pid == pid && path.nanos == nanos
      ensures forall c: nat | c < path.counter :: TempName(pid, nanos, c) in drawer.temps
    {
      var counter: nat := 0;
      while TempName(pid, nanos, counter) in drawer.temps
        invariant forall c: nat | c < counter :: TempName(pid, nanos, c) in drawer.temps
        decreases |Ahead(drawer.temps, pid, nanos, counter)|
      {
        ghost var tried := TempName(pid, nanos, counter);
        assert Ahead(drawer.temps, pid, nanos, counter) == Ahead(drawer.temps, pid, nanos, counter + 1) + {tried};
        counter := counter + 1;
      }
      path := TempName(pid, nanos, counter);
    }

    /** A new file with the data, under a name of its own. */
    method WriteTmp(data: Bytes, nanos: nat) returns (path: TempName)
      requires Wf(drawer)
      modifies this
      ensures Wf(drawer) && path !in old(drawer.temps)
      ensures drawer == WithTemp(old(drawer), path, data)
    {
      path := FreeName(nanos);
      drawer := WithTemp(drawer, path, data);
    }

    /** `rename(2)` of a temp entry over the sentinel. */
    method Install(path: TempName)
      requires Wf(drawer) && path in drawer.temps
      modifies this
      ensures Wf(drawer)
      ensures drawer == old(drawer).(sentinel := Some(old(drawer.temps)[path]), temps := old(drawer.temps) - {path})
    {
      drawer := drawer.(sentinel := Some(drawer.temps[path]), temps := drawer.temps - {path});
    }

    /** Link the temp file exclusively; if the sentinel was there first, adopt a valid one, leave a newer
        format, heal anything else. */
    method Settle(path: TempName, mine: Record) returns (r: Record)
      requires Wf(drawer) && path in drawer.temps
      modifies this
      ensures Wf(drawer) && drawer.temps == old(drawer.temps) - {path} && drawer.contents == old(drawer.contents)
      ensures var before := Classify(codec, old(drawer));
              && r == (if before.Valid? then before.record else mine)
              && drawer.sentinel == if before.Valid? || before.Future? then old(drawer.sentinel) else Some(old(drawer.temps)[path])
    {
      r := mine;
      if drawer.sentinel.None? {
        drawer := drawer.(sentinel := Some(drawer.temps[path]));
        drawer := drawer.(temps := drawer.temps - {path});
        return;
      }
      var state := Classify(codec, drawer);
      if state.Garbage? || state.Absent? {
        Install(path);
        return;
      }
      if state.Valid? { r := state.record; }
      drawer := drawer.(temps := drawer.temps - {path});
    }

    method RegisterLocked(workspace: Bytes, now: U64, nanos: nat) returns (r: Record)
      requires Wf(drawer) && Lawful(codec)
      modifies this
      ensures Wf(drawer) && drawer.temps == old(drawer.temps) && old(drawer.contents) <= drawer.contents
      ensures Classify(codec, drawer) == Effect(Register(workspace), now, Classify(codec, old(drawer)))
      ensures Classify(codec, old(drawer)).Future? ==> Content(drawer) == Content(old(drawer))
      ensures r == if Classify(codec, drawer).Valid? then Classify(codec, drawer).record else Fresh(workspace, now)
    {
      var state := Classify(codec, drawer);
      if state.Valid? { return state.record; }
      r := Fresh(workspace, now);
      var path := WriteTmp(codec.encode(r), nanos);
      TempIsUnread(codec, old(drawer), path, codec.encode(r));
      Rewritten(codec, old(drawer), path, r);
      r := Settle(path, r);
    }

    method StampLocked(now: U64, nanos: nat) returns (stamped: bool)
      requires Wf(drawer) && Lawful(codec)
      modifies this
      ensures Wf(drawer) && drawer.temps == old(drawer.temps) && old(drawer.contents) <= drawer.contents
      ensures Classify(codec, drawer) == Effect(Op.Stamp, now, Classify(codec, old(drawer)))
      ensures stamped == Classify(codec, old(drawer)).Valid?
      ensures !stamped ==> drawer == old(drawer)
    {
      var state := Classify(codec, drawer);
      if !state.Valid? { return false; }
      var path := WriteTmp(codec.encode(state.record.(lastUse := now)), nanos);
      Rewritten(codec, old(drawer), path, state.record.(lastUse := now));
      Install(path);
      stamped := true;
    }

    method SupersedeLocked(heir: Bytes, nanos: nat) returns (stamped: bool)
      requires Wf(drawer) && Lawful(codec)
      modifies this
      ensures Wf(drawer) && drawer.temps == old(drawer.temps) && old(drawer.contents) <= drawer.contents
      ensures Classify(codec, drawer) == Effect(Supersede(heir), 0, Classify(codec, old(drawer)))
      ensures stamped == Classify(codec, old(drawer)).Valid?
      ensures !stamped ==> drawer == old(drawer)
    {
      var state := Classify(codec, drawer);
      if !state.Valid? { return false; }
      var path := WriteTmp(codec.encode(state.record.(supersededBy := Some(heir))), nanos);
      Rewritten(codec, old(drawer), path, state.record.(supersededBy := Some(heir)));
      Install(path);
      stamped := true;
    }
  }
}
