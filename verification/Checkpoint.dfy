/** The disposable checkpoint: a memo's leaf rows and replay cursor under an identity tuple,
    restored whole or not at all.

    A path map is its iteration sequence, so every result holds for every iteration order. The
    checksum and the radix fold are parameters (`Env`). */
module Checkpoint {
  import opened Bytes
  import opened Paths
  import opened Stat

  const VERSION_LINE: Bytes := "mrd-checkpoint v2"
  /** The header's prefixes, in order, each with the defect its absence is labelled. */
  const HEADER: seq<(Bytes, string)> := [
    ("workspace ", "bad workspace line"), ("version ", "bad version line"), ("journal ", "bad journal line"),
    ("tree-root ", "bad tree-root line"), ("leaves ", "bad leaves line")]
  const SUM: Bytes := "sum "
  const HASH_LAW_RADIX: U32 := 2

  datatype LeafSeen = LeafSeen(key: StatKey, digest: Digest, seen: Option<Stamp>)
  datatype Row = Row(path: Bytes, leaf: LeafSeen)

  /** The memo's map: by a path's components, with the spelling it first saw. */
  type Leaves = Table<LeafSeen>

  datatype Calibration = Unavailable | Measured(granuleNs: U64)

  /** The resident memo, as far as a checkpoint reads and writes it. */
  datatype Memo = Memo(domainSeen: Option<U32>, rows: seq<Row>, calibration: Calibration)

  datatype Identity = Identity(workspace: Bytes, instance: Bytes, cursor: U64)
  datatype Snapshot = Snapshot(identity: Identity, domain: U32, treeRoot: Digest, rows: seq<Row>)
  datatype Restored = Restored(leaves: Leaves, domainSeen: U32, unobserved: bool,
                               instance: Bytes, cursor: U64, count: nat)

  datatype Discard =
    | Format(what: string)
    | Workspace(found: Bytes)
    | Version(stored: (U32, U32), current: (U32, U32))
    | TreeRoot

  datatype Env = Env(checksum: Bytes -> Digest, fold: map<PathKey, Digest> -> Digest)

  function Digests(leaves: Leaves): map<PathKey, Digest> {
    map k | k in leaves :: leaves[k].value.digest
  }

  function Insert(leaves: Leaves, row: Row): Leaves { Put(leaves, row.path, row.leaf) }

  function InsertAll(leaves: Leaves, rows: seq<Row>): (m: Leaves)
    decreases |rows|
  {
    if rows == [] then leaves else InsertAll(Insert(leaves, rows[0]), rows[1..])
  }

  lemma {:induction false} InsertAllAppend(leaves: Leaves, rows: seq<Row>, row: Row)
    ensures InsertAll(leaves, rows + [row]) == Insert(InsertAll(leaves, rows), row)
    decreases |rows|
  {
    if rows == [] {
      assert rows + [row] == [row] && [row][1..] == [];
    } else {
      InsertAllAppend(Insert(leaves, rows[0]), rows[1..], row);
      assert (rows + [row])[1..] == rows[1..] + [row];
    }
  }

  ghost predicate DistinctPaths(rows: seq<Row>) {
    forall i, j | 0 <= i < j < |rows| :: Key(rows[i].path) != Key(rows[j].path)
  }

  // ---- saving ----------------------------------------------------------------------------

  function StampNs(t: Stamp): int { t.secs as int * 1_000_000_000 + t.nanos as int }

  /** The stamps sit within one granule of the observation watermark, or after it. */
  predicate Racy(key: StatKey, watermark: Stamp, granuleNs: U64) {
    var floor := StampNs(watermark) - granuleNs as int;
    StampNs(key.mtime) >= floor || StampNs(key.ctime) >= floor
  }

  /** The watermark a leaf is saved with: spoiled unless a measured granule clears it. */
  function Smudge(leaf: LeafSeen, calibration: Calibration): LeafSeen {
    if leaf.seen.Some? && calibration.Measured? && !Racy(leaf.key, leaf.seen.value, calibration.granuleNs)
    then leaf else leaf.(seen := None)
  }

  function SmudgeAll(rows: seq<Row>, calibration: Calibration): (r: seq<Row>)
    ensures |r| == |rows|
    ensures forall i | 0 <= i < |rows| :: r[i] == Row(rows[i].path, Smudge(rows[i].leaf, calibration))
  {
    seq(|rows|, i requires 0 <= i < |rows| => Row(rows[i].path, Smudge(rows[i].leaf, calibration)))
  }

  method Prepare(memo: Memo, identity: Identity, env: Env) returns (r: Option<Snapshot>)
    ensures r.Some? <==> memo.domainSeen.Some? && forall row | row in memo.rows :: '\n' !in row.path
    ensures r.Some? ==> r.value == Snapshot(identity, memo.domainSeen.value,
                                            env.fold(Digests(InsertAll(map[], memo.rows))),
                                            SmudgeAll(memo.rows, memo.calibration))
  {
    if memo.domainSeen.None? { return None; }
    var treeRoot := env.fold(Digests(InsertAll(map[], memo.rows)));
    var rows := memo.rows;
    for i := 0 to |rows|
      invariant |rows| == |memo.rows|
      invariant forall k | 0 <= k < i :: '\n' !in memo.rows[k].path
      invariant forall k | 0 <= k < i :: rows[k] == Row(memo.rows[k].path, Smudge(memo.rows[k].leaf, memo.calibration))
      invariant forall k | i <= k < |rows| :: rows[k] == memo.rows[k]
    {
      var entry := rows[i].leaf;
      if '\n' in rows[i].path {
        assert memo.rows[i] in memo.rows;
        return None;
      }
      var spoil := true;
      if entry.seen.Some? && memo.calibration.Measured? {
        spoil := Racy(entry.key, entry.seen.value, memo.calibration.granuleNs);
      }
      if spoil {
        entry := entry.(seen := None);
      }
      rows := rows[i := Row(rows[i].path, entry)];
    }
    assert rows == SmudgeAll(memo.rows, memo.calibration);
    r := Some(Snapshot(identity, memo.domainSeen.value, treeRoot, rows));
  }

  function SeenText(seen: Option<Stamp>): Bytes {
    match seen
    case None => "-"
    case Some(t) => PrintStamp(t)
  }

  function RowText(row: Row): Bytes {
    PrintKey(row.leaf.key, Field(SeenText(row.leaf.seen), Field(LowerHex(row.leaf.digest), row.path)))
  }

  function RowTexts(rows: seq<Row>): (lines: seq<Bytes>)
    ensures |lines| == |rows|
    ensures forall i | 0 <= i < |rows| :: lines[i] == RowText(rows[i])
  {
    seq(|rows|, i requires 0 <= i < |rows| => RowText(rows[i]))
  }

  function VersionText(s: Snapshot): Bytes { Field(Decimal(s.domain), Decimal(HASH_LAW_RADIX)) }

  function JournalText(s: Snapshot): Bytes { Field(Decimal(s.identity.cursor), s.identity.instance) }

  function HeaderTexts(s: Snapshot): seq<Bytes> {
    [s.identity.workspace, VersionText(s), JournalText(s), LowerHex(s.treeRoot), Decimal(|s.rows|)]
  }

  /** The five header lines, each value behind its prefix. */
  function HeaderLines(texts: seq<Bytes>): (lines: seq<Bytes>)
    requires |texts| <= |HEADER|
    ensures |lines| == |texts|
    ensures forall i | 0 <= i < |texts| :: lines[i] == HEADER[i].0 + texts[i]
  {
    seq(|texts|, i requires 0 <= i < |texts| => HEADER[i].0 + texts[i])
  }

  function PayloadLines(s: Snapshot): seq<Bytes> {
    HeaderLines(HeaderTexts(s)) + RowTexts(s.rows)
  }

  /** A payload under its own checksum. */
  function Sealed(payload: Bytes, env: Env): Bytes {
    VERSION_LINE + ['\n'] + (SUM + LowerHex(env.checksum(payload)) + ['\n'] + payload)
  }

  method Encode(s: Snapshot, env: Env) returns (out: Bytes)
    ensures out == Sealed(JoinLines(PayloadLines(s)), env)
  {
    ghost var lines := PayloadLines(s);
    var payload: Bytes := [];
    PushLineJoins(lines[..0], lines[0]);
    payload := PushLine(payload, HEADER[0].0 + s.identity.workspace);
    PushLineJoins(lines[..1], lines[1]);
    payload := PushLine(payload, HEADER[1].0 + VersionText(s));
    PushLineJoins(lines[..2], lines[2]);
    payload := PushLine(payload, HEADER[2].0 + JournalText(s));
    PushLineJoins(lines[..3], lines[3]);
    payload := PushLine(payload, HEADER[3].0 + LowerHex(s.treeRoot));
    PushLineJoins(lines[..4], lines[4]);
    payload := PushLine(payload, HEADER[4].0 + Decimal(|s.rows|));
    PrefixesAgree(lines);
    payload := EncodeRows(s.rows, payload, lines);
    out := VERSION_LINE + ['\n'] + (SUM + LowerHex(env.checksum(payload)) + ['\n'] + payload);
  }

  method EncodeRows(rows: seq<Row>, header: Bytes, ghost lines: seq<Bytes>) returns (payload: Bytes)
    requires |lines| == 5 + |rows| && header == JoinLines(lines[..5])
    requires forall i | 0 <= i < |rows| :: lines[5 + i] == RowText(rows[i])
    ensures payload == JoinLines(lines)
  {
    payload := header;
    for i := 0 to |rows|
      invariant payload == JoinLines(lines[..5 + i])
    {
      PushLineJoins(lines[..5 + i], lines[5 + i]);
      assert lines[..5 + i] + [lines[5 + i]] == lines[..5 + i + 1];
      payload := PushLine(payload, RowText(rows[i]));
    }
    assert lines[..5 + |rows|] == lines;
  }

  lemma PrefixesAgree(lines: seq<Bytes>)
    requires |lines| >= 5
    ensures lines[..0] == [] && JoinLines(lines[..0]) == []
    ensures lines[..0] + [lines[0]] == lines[..1] && lines[..1] + [lines[1]] == lines[..2]
    ensures lines[..2] + [lines[2]] == lines[..3] && lines[..3] + [lines[3]] == lines[..4]
    ensures lines[..4] + [lines[4]] == lines[..5]
  {}

  // ---- restoring -------------------------------------------------------------------------

  function HeaderLine(lines: Bytes, prefix: Bytes, defect: string): Result<(Bytes, Bytes), Discard> {
    var (line, rest) :- SplitOnce(lines, '\n').OkOr(Format("truncated header"));
    var text :- StripPrefix(line, prefix).OkOr(Format(defect));
    Ok((text, rest))
  }

  /** The header lines, in order, each value stripped of its prefix; then the rows. */
  function ParseHeader(lines: Bytes, k: nat): (r: Result<(seq<Bytes>, Bytes), Discard>)
    requires k <= |HEADER|
    ensures r.Ok? ==> |r.value.0| == |HEADER| - k
    decreases |HEADER| - k
  {
    if k == |HEADER| then Ok(([], lines))
    else
      var (text, rest) :- HeaderLine(lines, HEADER[k].0, HEADER[k].1);
      var (texts, rows) :- ParseHeader(rest, k + 1);
      Ok(([text] + texts, rows))
  }

  function ParseVersion(line: Bytes): Option<(U32, U32)> {
    var (a, b) :- SplitOnce(line, ' ');
    var domain :- ParseUnsigned(a, U32_MAX);
    var law :- ParseUnsigned(b, U32_MAX);
    Some((domain, law))
  }

  function ParseJournal(line: Bytes): Option<(U64, Bytes)> {
    var (cursor, instance) :- TakeU64(line);
    if Utf8(instance) then Some((cursor, instance)) else None
  }

  function ParseSeen(text: Bytes): Option<Option<Stamp>> {
    if text == "-" then Some(None)
    else
      var t :- ParseStamp(text);
      Some(Some(t))
  }

  function ParseRow(line: Bytes): (r: Option<Row>)
    ensures r.Some? ==> r.value.path != [] && Within(r.value.path, line)
  {
    var (key, r1) :- ParseKey(line);
    var (seenText, r2) :- SplitOnce(r1, ' ');
    var seen :- ParseSeen(seenText);
    var (hexText, path) :- SplitOnce(r2, ' ');
    var digest :- ParseHex32(hexText);
    if path == [] then None else Some(Row(path, LeafSeen(key, digest, seen)))
  }

  lemma BehindNothing(more: Result<seq<Row>, Discard>)
    ensures Behind([], more) == more
  {
    if more.Ok? {
      assert [] + more.value == more.value;
    }
  }

  /** The next row, and what follows its line. */
  function NextRow(parse: Bytes -> Option<Row>, lines: Bytes): (r: Result<(Row, Bytes), Discard>)
    ensures r.Ok? ==> |r.value.1| < |lines|
  {
    var (line, rest) :- SplitOnce(lines, '\n').OkOr(Format("unterminated row"));
    var row :- parse(line).OkOr(Format("unparseable row"));
    Ok((row, rest))
  }

  /** The rows of `lines`; any defect refuses the whole. */
  function ParseRows(parse: Bytes -> Option<Row>, lines: Bytes): Result<seq<Row>, Discard>
    decreases |lines|
  {
    if lines == [] then Ok([])
    else
      var (row, rest) :- NextRow(parse, lines);
      Behind([row], ParseRows(parse, rest))
  }

  function Behind(rows: seq<Row>, more: Result<seq<Row>, Discard>): Result<seq<Row>, Discard> {
    if more.Ok? then Ok(rows + more.value) else more
  }

  datatype Gate = Gate(cursor: U64, instance: Bytes, treeRoot: Digest)

  /** The identity gates, cheap fields first. */
  function CheckIdentity(header: seq<Bytes>, workspace: Bytes, domain: U32): Result<Gate, Discard>
    requires |header| == 5
  {
    if header[0] != workspace then Err(Workspace(header[0]))
    else CheckParts(ParseVersion(header[1]), ParseJournal(header[2]), ParseHex32(header[3]), domain)
  }

  /** The other three lines, as they parse, judged in their order. */
  function CheckParts(version: Option<(U32, U32)>, journal: Option<(U64, Bytes)>, root: Option<Digest>, domain: U32)
    : Result<Gate, Discard>
  {
    var stored :- version.OkOr(Format("bad version pair"));
    if stored != (domain, HASH_LAW_RADIX) then Err(Version(stored, (domain, HASH_LAW_RADIX)))
    else
      var (cursor, instance) :- journal.OkOr(Format("bad journal line"));
      var treeRoot :- root.OkOr(Format("bad tree-root value"));
      Ok(Gate(cursor, instance, treeRoot))
  }

  /** The payload under a checksum line that covers it. */
  function Unseal(bytes: Bytes, env: Env): Result<Bytes, Discard> {
    var rest :- StripPrefix(bytes, VERSION_LINE + "\n").OkOr(Format("unknown version tag"));
    var (sumLine, payload) :- SplitOnce(rest, '\n').OkOr(Format("missing checksum"));
    var sum :- StripPrefix(sumLine, SUM).OkOr(Format("missing checksum"));
    if LowerHex(env.checksum(payload)) != sum then Err(Format("checksum mismatch")) else Ok(payload)
  }

  function Restoring(bytes: Bytes, workspace: Bytes, domain: U32, env: Env): Result<Restored, Discard> {
    var payload :- Unseal(bytes, env);
    RestoringPayload(payload, workspace, domain, env)
  }

  function RestoringPayload(payload: Bytes, workspace: Bytes, domain: U32, env: Env): Result<Restored, Discard> {
    var (header, lines) :- ParseHeader(payload, 0);
    Judge(header, ParseRows(ParseRow, lines), workspace, domain, env)
  }

  /** The gates in order: the declared count, the identity, the rows, their number, their fold. */
  function Judge(header: seq<Bytes>, parsed: Result<seq<Row>, Discard>, workspace: Bytes, domain: U32, env: Env)
    : Result<Restored, Discard>
    requires |header| == 5
  {
    var declared :- ParseUnsigned(header[4], U64_MAX).OkOr(Format("bad leaves count"));
    var gate :- CheckIdentity(header, workspace, domain);
    var rows :- parsed;
    var leaves := InsertAll(map[], rows);
    if |rows| != declared then Err(Format("row count mismatch"))
    else if env.fold(Digests(leaves)) != gate.treeRoot then Err(TreeRoot)
    else Ok(Restored(leaves, domain, true, gate.instance, gate.cursor, |rows|))
  }

  method Restore(bytes: Bytes, workspace: Bytes, domain: U32, env: Env) returns (r: Result<Restored, Discard>)
    ensures r == Restoring(bytes, workspace, domain, env)
  {
    var payload :- Unseal(bytes, env);
    var parsed :- ParseHeader(payload, 0);
    var header := parsed.0;
    var declared :- ParseUnsigned(header[4], U64_MAX).OkOr(Format("bad leaves count"));
    var gate :- CheckIdentity(header, workspace, domain);
    var memo := ReadRows(parsed.1);
    if memo.Err? { return Err(memo.error); }
    var leaves, rows := memo.value.0, memo.value.1;
    if rows != declared { return Err(Format("row count mismatch")); }
    if env.fold(Digests(leaves)) != gate.treeRoot { return Err(TreeRoot); }
    r := Ok(Restored(leaves, domain, true, gate.instance, gate.cursor, rows));
  }

  lemma RowConsumed(parse: Bytes -> Option<Row>, rows: seq<Row>, lines: Bytes)
    requires lines != []
    ensures var next := NextRow(parse, lines);
            Behind(rows, ParseRows(parse, lines))
            == if next.Ok? then Behind(rows + [next.value.0], ParseRows(parse, next.value.1)) else Err(next.error)
  {
    var next := NextRow(parse, lines);
    if next.Ok? {
      BehindBehind(rows, [next.value.0], ParseRows(parse, next.value.1));
    }
  }

  /** The row loop: every row inserted into the memo as it is read. */
  method ReadRows(text: Bytes) returns (r: Result<(Leaves, nat), Discard>)
    ensures var rows := ParseRows(ParseRow, text);
            r == if rows.Ok? then Ok((InsertAll(map[], rows.value), |rows.value|)) else Err(rows.error)
  {
    var lines, leaves: Leaves, count := text, map[], 0;
    ghost var rows: seq<Row> := [];
    BehindNothing(ParseRows(ParseRow, text));
    while lines != []
      invariant Behind(rows, ParseRows(ParseRow, lines)) == ParseRows(ParseRow, text)
      invariant count == |rows| && leaves == InsertAll(map[], rows)
      decreases |lines|
    {
      RowConsumed(ParseRow, rows, lines);
      var next :- NextRow(ParseRow, lines);
      var row := next.0;
      lines := next.1;
      InsertAllAppend(map[], rows, row);
      rows := rows + [row];
      leaves := Insert(leaves, row);
      count := count + 1;
    }
    assert rows + [] == rows;
    r := Ok((leaves, count));
  }

  // ---- lines -----------------------------------------------------------------------------

  lemma RowTextHasNoNewline(row: Row)
    requires '\n' !in row.path
    ensures '\n' !in RowText(row)
  {
    PrintedKeyBytes(row.leaf.key, Field(SeenText(row.leaf.seen), Field(LowerHex(row.leaf.digest), row.path)));
  }

  lemma SeenReads(seen: Option<Stamp>)
    ensures ' ' !in SeenText(seen) && ParseSeen(SeenText(seen)) == Some(seen)
  {
    if seen.Some? { ParsePrintedStamp(seen.value); }
  }

  /** A printed row parses back exactly when its path is not empty. */
  lemma ParsePrintedRow(row: Row)
    ensures ParseRow(RowText(row)) == if row.path == [] then None else Some(row)
  {
    var hex, seen := LowerHex(row.leaf.digest), SeenText(row.leaf.seen);
    SeenReads(row.leaf.seen);
    ParsePrintedKey(row.leaf.key, Field(seen, Field(hex, row.path)));
    SplitOnceAt(seen, ' ', Field(hex, row.path));
    SplitOnceAt(hex, ' ', row.path);
    ParsePrintedHex(row.leaf.digest);
  }

  lemma PrefixesAreOneLine(k: nat)
    requires k < |HEADER|
    ensures '\n' !in HEADER[k].0
  {}

  /** One line of a header, by itself: the text behind the prefix, then the rest. */
  lemma HeaderLineReads(prefix: Bytes, text: Bytes, rest: Bytes, defect: string)
    requires '\n' !in prefix && '\n' !in text
    ensures HeaderLine(prefix + text + ['\n'] + rest, prefix, defect) == Ok((text, rest))
  {
    SplitOnceAt(prefix + text, '\n', rest);
    StripPrefixOf(prefix, text);
  }

  lemma JoinedBehind(lines: seq<Bytes>, more: Bytes)
    requires lines != []
    ensures JoinLines(lines) + more == lines[0] + ['\n'] + (JoinLines(lines[1..]) + more)
  {
    Associate(lines[0] + ['\n'], JoinLines(lines[1..]), more);
  }

  lemma HeaderStep(texts: seq<Bytes>, k: nat, more: Bytes)
    requires k < |texts| <= |HEADER| && OneLineEach(texts)
    ensures HeaderLine(JoinLines(HeaderLines(texts)[k..]) + more, HEADER[k].0, HEADER[k].1)
         == Ok((texts[k], JoinLines(HeaderLines(texts)[k + 1..]) + more))
  {
    var lines := HeaderLines(texts)[k..];
    PrefixesAreOneLine(k);
    assert lines[1..] == HeaderLines(texts)[k + 1..];
    JoinedBehind(lines, more);
    HeaderLineReads(HEADER[k].0, texts[k], JoinLines(lines[1..]) + more, HEADER[k].1);
  }

  lemma ParsedOn(lines: Bytes, k: nat, all: seq<Bytes>, rest: Bytes, more: Bytes)
    requires k < |HEADER| && all != [] && HeaderLine(lines, HEADER[k].0, HEADER[k].1) == Ok((all[0], rest))
    requires ParseHeader(rest, k + 1) == Ok((all[1..], more))
    ensures ParseHeader(lines, k) == Ok((all, more))
  {
    assert [all[0]] + all[1..] == all;
  }

  lemma RefusedOn(lines: Bytes, k: nat, text: Bytes, rest: Bytes)
    requires k < |HEADER| && HeaderLine(lines, HEADER[k].0, HEADER[k].1) == Ok((text, rest)) && ParseHeader(rest, k + 1).Err?
    ensures ParseHeader(lines, k) == ParseHeader(rest, k + 1)
  {
  }

  function HeaderFrom(texts: seq<Bytes>, k: nat, more: Bytes): Bytes
    requires k <= |texts| <= |HEADER|
  {
    JoinLines(HeaderLines(texts)[k..]) + more
  }

  lemma HeaderIsOver(texts: seq<Bytes>, more: Bytes)
    requires |texts| <= |HEADER|
    ensures HeaderFrom(texts, |texts|, more) == more
  {
  }

  /** Header lines that are all there parse whole. */
  lemma {:induction false} HeaderWhole(texts: seq<Bytes>, k: nat, more: Bytes)
    requires k <= |texts| == |HEADER| && OneLineEach(texts)
    ensures ParseHeader(HeaderFrom(texts, k, more), k) == Ok((texts[k..], more))
    decreases |HEADER| - k
  {
    if k < |texts| {
      HeaderStep(texts, k, more);
      HeaderWhole(texts, k + 1, more);
      DroppedOnce(texts, k);
      ParsedOn(HeaderFrom(texts, k, more), k, texts[k..], HeaderFrom(texts, k + 1, more), more);
    } else {
      HeaderIsOver(texts, more);
      assert texts[k..] == [];
    }
  }

  lemma DroppedOnce(texts: seq<Bytes>, k: nat)
    requires k < |texts|
    ensures texts[k..] != [] && texts[k..][0] == texts[k] && texts[k..][1..] == texts[k + 1..]
  {
  }

  lemma HeaderMissing(more: Bytes, k: nat)
    requires k < |HEADER| && '\n' !in more
    ensures ParseHeader(more, k) == Err(Format("truncated header"))
  {
    assert HeaderLine(more, HEADER[k].0, HEADER[k].1) == Err(Format("truncated header"));
  }

  /** Fewer of them break at the tear. */
  lemma {:induction false} HeaderTorn(texts: seq<Bytes>, k: nat, more: Bytes)
    requires k <= |texts| < |HEADER| && OneLineEach(texts) && '\n' !in more
    ensures ParseHeader(HeaderFrom(texts, k, more), k) == Err(Format("truncated header"))
    decreases |HEADER| - k
  {
    if k < |texts| {
      HeaderStep(texts, k, more);
      HeaderTorn(texts, k + 1, more);
      RefusedOn(HeaderFrom(texts, k, more), k, texts[k], HeaderFrom(texts, k + 1, more));
    } else {
      HeaderIsOver(texts, more);
      HeaderMissing(more, k);
    }
  }

  // ---- rows ------------------------------------------------------------------------------

  lemma BehindBehind(a: seq<Row>, b: seq<Row>, more: Result<seq<Row>, Discard>)
    ensures Behind(a, Behind(b, more)) == Behind(a + b, more)
  {
    if more.Ok? {
      assert a + (b + more.value) == (a + b) + more.value;
    }
  }

  /** One line that parses: consumed and kept. */
  lemma RowStep(parse: Bytes -> Option<Row>, line: Bytes, rest: Bytes)
    requires '\n' !in line && parse(line).Some?
    ensures ParseRows(parse, line + ['\n'] + rest) == Behind([parse(line).value], ParseRows(parse, rest))
  {
    SplitOnceAt(line, '\n', rest);
  }

  /** Printed rows that a parser reads back are consumed and kept, one by one. */
  lemma {:induction false} RowsOf(parse: Bytes -> Option<Row>, lines: seq<Bytes>, rows: seq<Row>, more: Bytes)
    requires |lines| == |rows| && OneLineEach(lines)
    requires forall i | 0 <= i < |rows| :: parse(lines[i]) == Some(rows[i])
    ensures ParseRows(parse, JoinLines(lines) + more) == Behind(rows, ParseRows(parse, more))
    decreases |lines|
  {
    if lines == [] {
      assert JoinLines(lines) + more == more;
      BehindNothing(ParseRows(parse, more));
    } else {
      var rest := JoinLines(lines[1..]) + more;
      calc {
        ParseRows(parse, JoinLines(lines) + more);
        { assert JoinLines(lines) + more == lines[0] + ['\n'] + rest; }
        ParseRows(parse, lines[0] + ['\n'] + rest);
        { RowStep(parse, lines[0], rest); }
        Behind([rows[0]], ParseRows(parse, rest));
        { RowsOf(parse, lines[1..], rows[1..], more); }
        Behind([rows[0]], Behind(rows[1..], ParseRows(parse, more)));
        { BehindBehind([rows[0]], rows[1..], ParseRows(parse, more)); assert rows == [rows[0]] + rows[1..]; }
        Behind(rows, ParseRows(parse, more));
      }
    }
  }

  /** A row parser that yields no empty path leaves none behind. */
  lemma {:induction false} ParsedPathsAreClean(parse: Bytes -> Option<Row>, lines: Bytes)
    requires forall line :: parse(line).Some? ==> parse(line).value.path != []
    ensures var r := ParseRows(parse, lines); r.Ok? ==> forall row | row in r.value :: row.path != []
    decreases |lines|
  {
    if lines != [] && NextRow(parse, lines).Ok? {
      ParsedPathsAreClean(parse, NextRow(parse, lines).value.1);
    }
  }

  predicate Holds(leaves: Leaves, row: Row) {
    Key(row.path) in leaves && leaves[Key(row.path)] == Entry(row.path, row.leaf)
  }

  /** A row's key, and the spelling of some row's path. */
  ghost predicate FromRows(leaves: Leaves, rows: seq<Row>, k: PathKey) {
    k in leaves && leaves[k].path in PathsOf(rows) && exists i :: 0 <= i < |rows| && Key(rows[i].path) == k
  }

  lemma FromMoreRows(leaves: Leaves, rows: seq<Row>, row: Row, k: PathKey)
    requires k in Insert(leaves, row) && (k in leaves ==> FromRows(leaves, rows, k))
    ensures FromRows(Insert(leaves, row), rows + [row], k)
  {
    var more := rows + [row];
    assert more[|rows|] == row && forall i | 0 <= i < |rows| :: more[i] == rows[i];
    if k in leaves {
      var i :| 0 <= i < |rows| && Key(rows[i].path) == k;
      assert Key(more[i].path) == k;
      var j :| 0 <= j < |rows| && rows[j].path == leaves[k].path;
      assert more[j].path == leaves[k].path;
    } else {
      assert Key(more[|rows|].path) == k;
    }
  }

  /** Inserted rows leave nothing but rows' paths. */
  lemma {:induction false} InsertedFrom(rows: seq<Row>, k: PathKey)
    requires k in InsertAll(map[], rows)
    ensures FromRows(InsertAll(map[], rows), rows, k)
    decreases |rows|
  {
    if rows != [] {
      var n := |rows| - 1;
      assert rows == rows[..n] + [rows[n]];
      InsertAllAppend(map[], rows[..n], rows[n]);
      if k in InsertAll(map[], rows[..n]) { InsertedFrom(rows[..n], k); }
      FromMoreRows(InsertAll(map[], rows[..n]), rows[..n], rows[n], k);
    }
  }

  lemma NothingInsertedFrom(rows: seq<Row>, row: Row)
    requires forall i | 0 <= i < |rows| :: Key(rows[i].path) != Key(row.path)
    ensures Key(row.path) !in InsertAll(map[], rows)
  {
    if Key(row.path) in InsertAll(map[], rows) { InsertedFrom(rows, Key(row.path)); }
  }

  /** And each row, when their paths are distinct. */
  lemma {:induction false} InsertedHolds(rows: seq<Row>, i: nat)
    requires DistinctPaths(rows) && i < |rows|
    ensures Holds(InsertAll(map[], rows), rows[i])
    decreases |rows|
  {
    var n := |rows| - 1;
    assert rows == rows[..n] + [rows[n]];
    InsertAllAppend(map[], rows[..n], rows[n]);
    if i < n {
      InsertedHolds(rows[..n], i);
    } else {
      NothingInsertedFrom(rows[..n], rows[n]);
    }
  }

  function PathsOf(rows: seq<Row>): set<Bytes> { set i | 0 <= i < |rows| :: rows[i].path }

  // ---- the main results ------------------------------------------------------------------

  lemma IdentityParts(s: Snapshot)
    requires Utf8(s.identity.instance) && |s.rows| <= U64_MAX
    ensures ParseVersion(VersionText(s)) == Some((s.domain, HASH_LAW_RADIX))
    ensures ParseJournal(JournalText(s)) == Some((s.identity.cursor, s.identity.instance))
    ensures ParseHex32(LowerHex(s.treeRoot)) == Some(s.treeRoot)
    ensures ParseUnsigned(Decimal(|s.rows|), U64_MAX) == Some(|s.rows|)
  {
    SplitOnceAt(Decimal(s.domain), ' ', Decimal(HASH_LAW_RADIX));
    ParseUnsignedDecimal(s.domain, U32_MAX);
    ParseUnsignedDecimal(HASH_LAW_RADIX, U32_MAX);
    TakeFieldU64(s.identity.cursor, s.identity.instance);
    ParsePrintedHex(s.treeRoot);
    ParseUnsignedDecimal(|s.rows|, U64_MAX);
  }

  ghost predicate Encodable(rows: seq<Row>) {
    forall i | 0 <= i < |rows| :: rows[i].path != [] && '\n' !in rows[i].path
  }

  /** One line each for the identity and the paths, and no empty path. (A count is a `usize`, an
      instance a string.) */
  ghost predicate Saveable(s: Snapshot) {
    && '\n' !in s.identity.workspace && '\n' !in s.identity.instance && Utf8(s.identity.instance)
    && Encodable(s.rows) && |s.rows| <= U64_MAX
  }

  lemma HeaderTextsAreOneLine(s: Snapshot)
    requires '\n' !in s.identity.workspace && '\n' !in s.identity.instance
    ensures OneLineEach(HeaderTexts(s))
  {}

  lemma UnsealSealed(payload: Bytes, env: Env)
    ensures Unseal(Sealed(payload, env), env) == Ok(payload)
  {
    var sum := LowerHex(env.checksum(payload));
    var rest := SUM + sum + ['\n'] + payload;
    assert Sealed(payload, env) == (VERSION_LINE + ['\n']) + rest;
    StripPrefixOf(VERSION_LINE + ['\n'], rest);
    SplitOnceAt(SUM + sum, '\n', payload);
    StripPrefixOf(SUM, sum);
  }

  lemma HeaderRead(s: Snapshot, rows: Bytes)
    requires '\n' !in s.identity.workspace && '\n' !in s.identity.instance
    ensures ParseHeader(JoinLines(HeaderLines(HeaderTexts(s))) + rows, 0) == Ok((HeaderTexts(s), rows))
  {
    var texts := HeaderTexts(s);
    HeaderTextsAreOneLine(s);
    HeaderWhole(texts, 0, rows);
    assert HeaderLines(texts)[0..] == HeaderLines(texts) && texts[0..] == texts;
  }

  lemma RowsRead(rows: seq<Row>, piece: Bytes)
    requires Encodable(rows)
    ensures ParseRows(ParseRow, JoinLines(RowTexts(rows)) + piece) == Behind(rows, ParseRows(ParseRow, piece))
  {
    var lines := RowTexts(rows);
    forall i | 0 <= i < |rows| ensures '\n' !in lines[i] && ParseRow(lines[i]) == Some(rows[i]) {
      RowTextHasNoNewline(rows[i]);
      ParsePrintedRow(rows[i]);
    }
    RowsOf(ParseRow, lines, rows, piece);
  }

  lemma JoinLinesTake(a: seq<Bytes>, b: seq<Bytes>, k: nat, piece: Bytes)
    requires k <= |b|
    ensures JoinLines((a + b)[..|a| + k]) + piece == JoinLines(a) + (JoinLines(b[..k]) + piece)
  {
    assert (a + b)[..|a| + k] == a + b[..k];
    JoinLinesAppend(a, b[..k]);
    Associate(JoinLines(a), JoinLines(b[..k]), piece);
  }

  lemma PayloadReached(s: Snapshot, k: nat, piece: Bytes)
    requires k <= |s.rows|
    ensures JoinLines(PayloadLines(s)[..5 + k]) + piece
         == JoinLines(HeaderLines(HeaderTexts(s))) + (JoinLines(RowTexts(s.rows[..k])) + piece)
  {
    JoinLinesTake(HeaderLines(HeaderTexts(s)), RowTexts(s.rows), k, piece);
    assert RowTexts(s.rows)[..k] == RowTexts(s.rows[..k]);
  }

  /** The header and the first `k` rows of a saveable snapshot, then `piece`: the rows are reached
      and the piece is all that is left of them. */
  lemma RowsReached(s: Snapshot, k: nat, piece: Bytes)
    requires Saveable(s) && k <= |s.rows|
    ensures var payload := JoinLines(PayloadLines(s)[..5 + k]) + piece;
            var rows := JoinLines(RowTexts(s.rows[..k])) + piece;
            && ParseHeader(payload, 0) == Ok((HeaderTexts(s), rows))
            && ParseRows(ParseRow, rows) == Behind(s.rows[..k], ParseRows(ParseRow, piece))
  {
    PayloadReached(s, k, piece);
    HeaderRead(s, JoinLines(RowTexts(s.rows[..k])) + piece);
    RowsRead(s.rows[..k], piece);
  }

  lemma PartsClear(domain: U32, gate: Gate)
    ensures CheckParts(Some((domain, HASH_LAW_RADIX)), Some((gate.cursor, gate.instance)), Some(gate.treeRoot), domain) == Ok(gate)
  {
  }

  lemma IdentityClears(s: Snapshot)
    requires Utf8(s.identity.instance) && |s.rows| <= U64_MAX
    ensures CheckIdentity(HeaderTexts(s), s.identity.workspace, s.domain)
         == Ok(Gate(s.identity.cursor, s.identity.instance, s.treeRoot))
  {
    IdentityParts(s);
    PartsClear(s.domain, Gate(s.identity.cursor, s.identity.instance, s.treeRoot));
  }

  /** Under its own identity a snapshot is judged by its rows alone. */
  lemma JudgedByItsRows(s: Snapshot, parsed: Result<seq<Row>, Discard>, env: Env)
    requires Utf8(s.identity.instance) && |s.rows| <= U64_MAX
    ensures Judge(HeaderTexts(s), parsed, s.identity.workspace, s.domain, env)
         == if parsed.Err? then Err(parsed.error)
            else if |parsed.value| != |s.rows| then Err(Format("row count mismatch"))
            else if env.fold(Digests(InsertAll(map[], parsed.value))) != s.treeRoot then Err(TreeRoot)
            else Ok(Restored(InsertAll(map[], parsed.value), s.domain, true, s.identity.instance, s.identity.cursor, |s.rows|))
  {
    IdentityParts(s);
    IdentityClears(s);
  }

  function Payload(s: Snapshot): Bytes { JoinLines(PayloadLines(s)) }

  function ItsRestored(s: Snapshot): Restored {
    Restored(InsertAll(map[], s.rows), s.domain, true, s.identity.instance, s.identity.cursor, |s.rows|)
  }

  lemma RestoringSealed(payload: Bytes, workspace: Bytes, domain: U32, env: Env)
    ensures Restoring(Sealed(payload, env), workspace, domain, env) == RestoringPayload(payload, workspace, domain, env)
  {
    UnsealSealed(payload, env);
  }

  lemma Whole<T>(s: seq<T>)
    ensures s[..|s|] == s && s + [] == s
  {}

  lemma WholePayload(s: Snapshot)
    requires Saveable(s)
    ensures ParseHeader(Payload(s), 0).Ok? && ParseHeader(Payload(s), 0).value.0 == HeaderTexts(s)
    ensures ParseRows(ParseRow, ParseHeader(Payload(s), 0).value.1) == Ok(s.rows)
  {
    RowsReached(s, |s.rows|, []);
    Whole(PayloadLines(s));
    Whole(Payload(s));
    Whole(s.rows);
  }

  /** The round trip: under the saving identity, an encoded snapshot restores its rows and its
      cursor, marked unobserved. */
  lemma RoundTrip(s: Snapshot, env: Env)
    requires Saveable(s) && s.treeRoot == env.fold(Digests(InsertAll(map[], s.rows)))
    ensures Restoring(Sealed(Payload(s), env), s.identity.workspace, s.domain, env) == Ok(ItsRestored(s))
  {
    RestoringSealed(Payload(s), s.identity.workspace, s.domain, env);
    WholePayload(s);
    JudgedByItsRows(s, Ok(s.rows), env);
  }

  /** What restores holds each row's leaf at that row's path, in its spelling, and no other path. */
  lemma RestoredRows(s: Snapshot)
    requires DistinctPaths(s.rows)
    ensures forall k | k in ItsRestored(s).leaves :: FromRows(ItsRestored(s).leaves, s.rows, k)
    ensures forall i | 0 <= i < |s.rows| :: Holds(ItsRestored(s).leaves, s.rows[i])
  {
    forall k | k in ItsRestored(s).leaves ensures FromRows(ItsRestored(s).leaves, s.rows, k) { InsertedFrom(s.rows, k); }
    forall i | 0 <= i < |s.rows| ensures Holds(ItsRestored(s).leaves, s.rows[i]) { InsertedHolds(s.rows, i); }
  }

  /** A payload torn anywhere is refused: its identity may be foreign, else it is misshapen. */
  lemma TornIsRefused(s: Snapshot, env: Env, torn: Bytes, workspace: Bytes, domain: U32)
    requires Saveable(s) && torn <= Payload(s) && torn != Payload(s)
    ensures var r := RestoringPayload(torn, workspace, domain, env);
            && r.Err?
            && (workspace == s.identity.workspace && domain == s.domain ==> r.error.Format?)
  {
    var lines := PayloadLines(s);
    var whole, piece := TornLines(lines, torn);
    if whole < 5 {
      var texts := HeaderTexts(s)[..whole];
      HeaderTextsAreOneLine(s);
      PrefixesAreOneLine(whole);
      assert lines[..whole] == HeaderLines(texts)[0..];
      assert lines[whole] == HEADER[whole].0 + HeaderTexts(s)[whole];
      HeaderTorn(texts, 0, piece);
    } else {
      var k := whole - 5;
      RowsReached(s, k, piece);
      RowTextHasNoNewline(s.rows[k]);
      var parsed := Behind(s.rows[..k], ParseRows(ParseRow, piece));
      assert parsed.Err? || |parsed.value| == k;
      FewRowsAreRefused(s, parsed, env, workspace, domain);
    }
  }

  lemma FewRowsAreRefused(s: Snapshot, parsed: Result<seq<Row>, Discard>, env: Env, workspace: Bytes, domain: U32)
    requires Utf8(s.identity.instance) && |s.rows| <= U64_MAX
    requires if parsed.Ok? then |parsed.value| != |s.rows| else parsed.error.Format?
    ensures var r := Judge(HeaderTexts(s), parsed, workspace, domain, env);
            && r.Err?
            && (workspace == s.identity.workspace && domain == s.domain ==> r.error.Format?)
  {
    IdentityParts(s);
  }

  /** A checkpoint torn anywhere and summed again is refused by structure alone. */
  lemma TornAndResummedIsRefused(s: Snapshot, env: Env, cut: nat, workspace: Bytes, domain: U32)
    requires Saveable(s) && cut < |Payload(s)|
    ensures var r := Restoring(Sealed(Payload(s)[..cut], env), workspace, domain, env);
            && r.Err?
            && (workspace == s.identity.workspace && domain == s.domain ==> r.error.Format?)
  {
    RestoringSealed(Payload(s)[..cut], workspace, domain, env);
    TornIsRefused(s, env, Payload(s)[..cut], workspace, domain);
  }

  /** Whatever restores carries no line break in its identity and no empty path. */
  lemma RestoredIsOneLineEach(payload: Bytes, workspace: Bytes, domain: U32, env: Env)
    ensures var r := RestoringPayload(payload, workspace, domain, env);
            r.Ok? ==> '\n' !in workspace && '\n' !in r.value.instance && NoEmpty(r.value.leaves)
  {
    if RestoringPayload(payload, workspace, domain, env).Ok? {
      var (header, lines) := ParseHeader(payload, 0).value;
      HeaderIsOneLineEach(payload, 0);
      ParsedPathsAreClean(ParseRow, lines);
      AcceptedIdentity(header, ParseRows(ParseRow, lines), workspace, domain, env);
    }
  }

  lemma AcceptedIdentity(header: seq<Bytes>, parsed: Result<seq<Row>, Discard>, workspace: Bytes, domain: U32, env: Env)
    requires |header| == 5 && OneLineEach(header)
    requires parsed.Ok? ==> forall row | row in parsed.value :: row.path != []
    requires Judge(header, parsed, workspace, domain, env).Ok?
    ensures var r := Judge(header, parsed, workspace, domain, env);
            '\n' !in workspace && '\n' !in r.value.instance && NoEmpty(r.value.leaves)
  {
    NoEmptyPath(parsed.value);
    AcceptedGate(header, workspace, domain);
  }

  lemma AcceptedGate(header: seq<Bytes>, workspace: Bytes, domain: U32)
    requires |header| == 5 && OneLineEach(header) && CheckIdentity(header, workspace, domain).Ok?
    ensures '\n' !in workspace && '\n' !in CheckIdentity(header, workspace, domain).value.instance
  {
    assert '\n' !in header[0] && '\n' !in header[2];
  }

  predicate NoEmpty(leaves: Leaves) { forall k | k in leaves :: leaves[k].path != [] }

  lemma NoEmptyPath(rows: seq<Row>)
    requires forall row | row in rows :: row.path != []
    ensures NoEmpty(InsertAll(map[], rows))
  {
    forall k | k in InsertAll(map[], rows) ensures InsertAll(map[], rows)[k].path != [] { InsertedFrom(rows, k); }
  }

  lemma {:induction false} HeaderIsOneLineEach(lines: Bytes, k: nat)
    requires k <= |HEADER|
    ensures ParseHeader(lines, k).Ok? ==> OneLineEach(ParseHeader(lines, k).value.0)
    decreases |HEADER| - k
  {
    if k < |HEADER| {
      var line := HeaderLine(lines, HEADER[k].0, HEADER[k].1);
      if line.Ok? {
        HeaderIsOneLineEach(line.value.1, k + 1);
      }
    }
  }

  /** Conversely, only a snapshot whose identity fits one line each and that holds no empty path
      round-trips. (`Prepare` admits no path with a line break.) */
  lemma OnlySaveableRoundTrips(s: Snapshot, env: Env)
    requires DistinctPaths(s.rows)
    requires Restoring(Sealed(Payload(s), env), s.identity.workspace, s.domain, env) == Ok(ItsRestored(s))
    ensures '\n' !in s.identity.workspace && '\n' !in s.identity.instance
    ensures forall i | 0 <= i < |s.rows| :: s.rows[i].path != []
  {
    RestoringSealed(Payload(s), s.identity.workspace, s.domain, env);
    RestoredIsOneLineEach(Payload(s), s.identity.workspace, s.domain, env);
    RestoredRows(s);
    forall i | 0 <= i < |s.rows| ensures s.rows[i].path != [] {
      assert Holds(ItsRestored(s).leaves, s.rows[i]);
    }
  }

  lemma {:induction false} SmudgeKeepsDigests(a: Leaves, b: Leaves, rows: seq<Row>, c: Calibration)
    requires Digests(a) == Digests(b)
    ensures Digests(InsertAll(a, rows)) == Digests(InsertAll(b, SmudgeAll(rows, c)))
    decreases |rows|
  {
    if rows != [] {
      var smudged := Row(rows[0].path, Smudge(rows[0].leaf, c));
      InsertedDigest(a, rows[0]);
      InsertedDigest(b, smudged);
      SmudgeKeepsDigests(Insert(a, rows[0]), Insert(b, smudged), rows[1..], c);
      assert SmudgeAll(rows, c)[1..] == SmudgeAll(rows[1..], c);
    }
  }

  lemma InsertedDigest(leaves: Leaves, row: Row)
    ensures Digests(Insert(leaves, row)) == Digests(leaves)[Key(row.path) := row.leaf.digest]
  {
  }

  /** What saving makes of a memo. */
  function Saved(memo: Memo, identity: Identity, env: Env): Snapshot
    requires memo.domainSeen.Some?
  {
    Snapshot(identity, memo.domainSeen.value, env.fold(Digests(InsertAll(map[], memo.rows))), SmudgeAll(memo.rows, memo.calibration))
  }

  lemma SavedRestores(memo: Memo, identity: Identity, env: Env)
    requires memo.domainSeen.Some? && Encodable(memo.rows) && |memo.rows| <= U64_MAX
    requires '\n' !in identity.workspace && '\n' !in identity.instance && Utf8(identity.instance)
    ensures var s := Saved(memo, identity, env);
            Restoring(Sealed(Payload(s), env), identity.workspace, memo.domainSeen.value, env) == Ok(ItsRestored(s))
  {
    SmudgeKeepsDigests(map[], map[], memo.rows, memo.calibration);
    RoundTrip(Saved(memo, identity, env), env);
  }

  /** The leaf that came back for a saved one: its key and digest, and a watermark exactly where the
      measured granule clears its stamps. */
  predicate CameBack(live: LeafSeen, back: LeafSeen, c: Calibration) {
    && back.key == live.key && back.digest == live.digest
    && (back.seen.Some? <==> live.seen.Some? && c.Measured? && !Racy(live.key, live.seen.value, c.granuleNs))
  }

  lemma SmudgedComesBack(live: LeafSeen, c: Calibration)
    ensures CameBack(live, Smudge(live, c), c)
  {
  }

  /** Saving a memo and restoring it under its own identity keeps every leaf's path, key and digest, and
      keeps a watermark exactly where the measured granule clears that leaf's stamps. */
  lemma SavedThenRestored(memo: Memo, identity: Identity, env: Env, i: nat)
    requires memo.domainSeen.Some? && DistinctPaths(memo.rows) && i < |memo.rows|
    requires '\n' !in identity.workspace && '\n' !in identity.instance && Utf8(identity.instance)
    requires Encodable(memo.rows) && |memo.rows| <= U64_MAX
    ensures var r := Restoring(Sealed(Payload(Saved(memo, identity, env)), env), identity.workspace, memo.domainSeen.value, env);
            var k := Key(memo.rows[i].path);
            && r.Ok? && r.value.unobserved && k in r.value.leaves && r.value.leaves[k].path == memo.rows[i].path
            && CameBack(memo.rows[i].leaf, r.value.leaves[k].value, memo.calibration)
  {
    SavedRestores(memo, identity, env);
    var rows := SmudgeAll(memo.rows, memo.calibration);
    SmudgedComesBack(memo.rows[i].leaf, memo.calibration);
    assert DistinctPaths(rows) && rows[i] == Row(memo.rows[i].path, Smudge(memo.rows[i].leaf, memo.calibration));
    InsertedHolds(rows, i);
  }
}
