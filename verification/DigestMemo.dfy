/** The persistable digest memo: path to (stat identity, leaf digest), one row a line, degrading row
    by row.

    The map is keyed by a path's components and keeps the spelling it first saw; its rows, in the map's
    order, are a parameter of serialization. */
module DigestMemos {
  import opened Bytes
  import opened Paths
  import opened Positions
  import opened Stat

  const VERSION_LINE: Bytes := "mrd-digest-memo v1"

  datatype Leaf = Leaf(key: StatKey, digest: Digest)

  type Row = Entry<Leaf>
  type Leaves = Table<Leaf>

  class DigestMemo {
    var leaves: Leaves
    var hits: nat
    var misses: nat

    constructor ()
      ensures leaves == map[] && hits == misses == 0
    {
      leaves, hits, misses := map[], 0, 0;
    }

    constructor FromBytes(bytes: Bytes)
      ensures leaves == Restored(bytes) && hits == misses == 0
    {
      leaves, hits, misses := map[], 0, 0;
      new;
      leaves := Parse(bytes);
    }

    method ToBytes(rows: seq<Row>) returns (out: Bytes)
      requires Enumerates(rows, leaves)
      ensures out == Serialized(rows)
    {
      out := Headed([]);
      for i := 0 to |rows|
        invariant out == Serialized(rows[..i])
      {
        assert rows[..i + 1] == rows[..i] + [rows[i]];
        SerializedAppend(rows[..i], rows[i]);
        if Printable(rows[i].path) {
          out := out + (RowText(rows[i].path, rows[i].value) + ['\n']);
        }
      }
      assert rows[..|rows|] == rows;
    }

    method Lookup(rel: Bytes, key: StatKey) returns (r: Option<Digest>)
      modifies this`hits, this`misses
      ensures r == Serves(leaves, rel, key)
      ensures hits == old(hits) + (if r.Some? then 1 else 0)
      ensures misses == old(misses) + (if r.Some? then 0 else 1)
    {
      var at := Key(rel);
      if at in leaves && leaves[at].value.key == key {
        hits := hits + 1;
        r := Some(leaves[at].value.digest);
      } else {
        misses := misses + 1;
        r := None;
      }
    }

    method Record(rel: Bytes, key: StatKey, digest: Digest)
      modifies this`leaves
      ensures leaves == Put(old(leaves), rel, Leaf(key, digest))
      ensures Serves(leaves, rel, key) == Some(digest)
    {
      leaves := Put(leaves, rel, Leaf(key, digest));
    }
  }

  /** What a lookup answers: the recorded digest iff the identity is exactly the recorded one. */
  function Serves(leaves: Leaves, rel: Bytes, key: StatKey): Option<Digest> {
    if Key(rel) in leaves && leaves[Key(rel)].value.key == key then Some(leaves[Key(rel)].value.digest) else None
  }

  /** The rows are the memo's: each its own, under its own key. */
  ghost predicate Recorded(rows: seq<Row>, leaves: Leaves) {
    forall i | 0 <= i < |rows| :: Key(rows[i].path) in leaves && leaves[Key(rows[i].path)] == rows[i]
  }

  /** And all of them, once each. */
  ghost predicate Enumerates(rows: seq<Row>, leaves: Leaves) {
    && Recorded(rows, leaves)
    && (forall k | k in leaves :: leaves[k] in rows && Key(leaves[k].path) == k)
    && (forall i, j | 0 <= i < j < |rows| :: Key(rows[i].path) != Key(rows[j].path))
  }

  /** As the map iterates them. */
  ghost predicate InPathOrder(rows: seq<Row>) {
    forall i, j | 0 <= i < j < |rows| :: KeyLess(Key(rows[i].path), Key(rows[j].path))
  }

  // ---- the spelling ----------------------------------------------------------------------

  /** A path the line format carries: a UTF-8 string with no newline. */
  predicate Printable(path: Bytes) { Utf8(path) && '\n' !in path }

  function RowText(path: Bytes, leaf: Leaf): Bytes {
    PrintKey(leaf.key, Field(LowerHex(leaf.digest), path))
  }

  /** What a row adds to the file: its line and a terminator, when the format carries its path. */
  function RowLine(row: Row): Bytes {
    if Printable(row.path) then RowText(row.path, row.value) + ['\n'] else []
  }

  function RowLines(rows: seq<Row>): (lines: seq<Bytes>)
    ensures |lines| == |rows| && forall i | 0 <= i < |rows| :: lines[i] == RowLine(rows[i])
  {
    if rows == [] then [] else [RowLine(rows[0])] + RowLines(rows[1..])
  }

  function Concat(lines: seq<Bytes>): Bytes { if lines == [] then [] else lines[0] + Concat(lines[1..]) }

  function RowsText(rows: seq<Row>): Bytes { Concat(RowLines(rows)) }

  function Serialized(rows: seq<Row>): Bytes { Headed(RowsText(rows)) }

  /** A body under the version line. */
  function Headed(body: Bytes): Bytes {
    VERSION_LINE + ['\n'] + body
  }

  lemma HeadedAppend(a: Bytes, b: Bytes)
    ensures Headed(a) + b == Headed(a + b)
  {}

  lemma {:induction false} ConcatAppend(a: seq<Bytes>, b: seq<Bytes>)
    ensures Concat(a + b) == Concat(a) + Concat(b)
    decreases |a|
  {
    if a == [] {
      assert a + b == b;
    } else {
      assert (a + b)[1..] == a[1..] + b;
      ConcatAppend(a[1..], b);
      Associate(a[0], Concat(a[1..]), Concat(b));
    }
  }

  lemma RowsTextAppend(a: seq<Row>, b: seq<Row>)
    ensures RowsText(a + b) == RowsText(a) + RowsText(b)
  {
    assert RowLines(a + b) == RowLines(a) + RowLines(b);
    ConcatAppend(RowLines(a), RowLines(b));
  }

  lemma SerializedAppend(rows: seq<Row>, row: Row)
    ensures Serialized(rows + [row]) == Serialized(rows) + RowLine(row)
  {
    RowsTextAppend(rows, [row]);
    assert RowLines([row]) == [RowLine(row)] && Concat([RowLine(row)]) == RowLine(row) + [];
    HeadedAppend(RowsText(rows), RowLine(row));
  }

  lemma VersionIsOneLine()
    ensures '\n' !in VERSION_LINE && StripReturn(VERSION_LINE) == VERSION_LINE && Ascii(VERSION_LINE)
  {}

  lemma UnderHeader(header: Bytes, body: Bytes)
    requires Ascii(header) && Utf8(body)
    ensures Utf8(header + ['\n'] + body)
  {
    var line := header + ['\n'];
    AsciiIsUtf8(line);
    Utf8Append(line, body);
  }

  lemma RestoredHeaded(body: Bytes)
    requires Utf8(body)
    ensures Restored(Headed(body)) == Absorb(map[], Lines(body))
  {
    VersionIsOneLine();
    UnderHeader(VERSION_LINE, body);
    TornUnderHeader(body);
  }

  // ---- the reading -----------------------------------------------------------------------

  /** `str::lines`: a terminator takes one carriage return with it, an unterminated tail keeps its
      own. */
  function Lines(text: Bytes): (lines: seq<Bytes>)
    decreases |text|
  {
    match SplitOnce(text, '\n')
    case None => if text == [] then [] else [text]
    case Some((line, rest)) => [StripReturn(line)] + Lines(rest)
  }

  function StripReturn(line: Bytes): (r: Bytes)
    ensures r <= line
    ensures line == r || line == r + ['\r']
  {
    if line != [] && line[|line| - 1] == '\r' then line[..|line| - 1] else line
  }

  function ParseRow(line: Bytes): Option<(Bytes, Leaf)> {
    var (key, r1) :- ParseKey(line);
    var (hexText, path) :- SplitOnce(r1, ' ');
    var digest :- ParseHex32(hexText);
    if path == [] then None else Some((path, Leaf(key, digest)))
  }

  function Absorb(leaves: Leaves, lines: seq<Bytes>): Leaves
    decreases |lines|
  {
    if lines == [] then leaves
    else
      var row := ParseRow(lines[0]);
      Absorb(if row.Some? then Put(leaves, row.value.0, row.value.1) else leaves, lines[1..])
  }

  method AbsorbLines(lines: seq<Bytes>) returns (leaves: Leaves)
    ensures leaves == Absorb(map[], lines)
  {
    leaves := map[];
    for i := 0 to |lines|
      invariant Absorb(leaves, lines[i..]) == Absorb(map[], lines)
    {
      assert lines[i..][1..] == lines[i + 1..];
      var row := ParseRow(lines[i]);
      if row.Some? {
        leaves := Put(leaves, row.value.0, row.value.1);
      }
    }
  }

  function Restored(bytes: Bytes): Leaves {
    if Utf8(bytes) && Current(Lines(bytes)) then Absorb(map[], Lines(bytes)[1..]) else map[]
  }

  predicate Current(lines: seq<Bytes>) { lines != [] && lines[0] == VERSION_LINE }

  method Parse(bytes: Bytes) returns (leaves: Leaves)
    ensures leaves == Restored(bytes)
  {
    if !Utf8(bytes) { return map[]; }
    var lines := Lines(bytes);
    if !Current(lines) { return map[]; }
    leaves := AbsorbLines(lines[1..]);
  }

  // ---- one torn row ----------------------------------------------------------------------

  /** A prefix of a space-terminated field either lacks the space or keeps the field. */
  lemma TornField(text: Bytes, rest: Bytes, torn: Bytes) returns (tail: Option<Bytes>)
    requires ' ' !in text && torn <= Field(text, rest)
    ensures tail.None? ==> SplitOnce(torn, ' ').None?
    ensures tail.Some? ==> tail.value <= rest && torn == Field(text, tail.value)
  {
    if |torn| <= |text| {
      assert torn == text[..|torn|];
      tail := None;
    } else {
      var more := PastPrefix(text + [' '], rest, torn);
      tail := Some(more);
    }
  }

  lemma TornU64(n: U64, rest: Bytes, torn: Bytes) returns (tail: Option<Bytes>)
    requires torn <= Field(Decimal(n), rest)
    ensures tail.None? ==> TakeU64(torn).None?
    ensures tail.Some? ==> tail.value <= rest && torn == Field(Decimal(n), tail.value) && TakeU64(torn) == Some((n, tail.value))
  {
    tail := TornField(Decimal(n), rest, torn);
    if tail.Some? {
      TakeFieldU64(n, tail.value);
    }
  }

  lemma TornStamp(t: Stamp, rest: Bytes, torn: Bytes) returns (tail: Option<Bytes>)
    requires torn <= Field(PrintStamp(t), rest)
    ensures tail.None? ==> TakeStamp(torn).None?
    ensures tail.Some? ==> tail.value <= rest && torn == Field(PrintStamp(t), tail.value) && TakeStamp(torn) == Some((t, tail.value))
  {
    tail := TornField(PrintStamp(t), rest, torn);
    if tail.Some? {
      TakeFieldStamp(t, tail.value);
    }
  }

  /** An identity torn anywhere is not read. */
  lemma TornKey(key: StatKey, rest: Bytes, torn: Bytes) returns (tail: Option<Bytes>)
    requires torn <= PrintKey(key, rest)
    ensures tail.None? ==> ParseKey(torn).None?
    ensures tail.Some? ==> tail.value <= rest && torn == PrintKey(key, tail.value)
  {
    var t5 := Field(PrintStamp(key.ctime), rest);
    var t4 := Field(PrintStamp(key.mtime), t5);
    var t3 := Field(Decimal(key.size), t4);
    var t2 := Field(Decimal(key.ino), t3);
    tail := TornU64(key.dev, t2, torn);
    if tail.None? { return; }
    tail := TornU64(key.ino, t3, tail.value);
    if tail.None? { return; }
    tail := TornU64(key.size, t4, tail.value);
    if tail.None? { return; }
    tail := TornStamp(key.mtime, t5, tail.value);
    if tail.None? { return; }
    tail := TornStamp(key.ctime, rest, tail.value);
  }

  /** A whole row reads back, unless its path is empty. */
  lemma ParsePrintedRow(path: Bytes, leaf: Leaf)
    ensures ParseRow(RowText(path, leaf)) == if path == [] then None else Some((path, leaf))
  {
    ParsePrintedKey(leaf.key, Field(LowerHex(leaf.digest), path));
    SplitOnceAt(LowerHex(leaf.digest), ' ', path);
    ParsePrintedHex(leaf.digest);
  }

  /** A torn row that still reads was torn inside its path: it carries the row's own leaf, under a
      non-empty prefix of that path. */
  lemma TornRow(path: Bytes, leaf: Leaf, torn: Bytes)
    requires torn <= RowText(path, leaf) && ParseRow(torn).Some?
    ensures var (served, itsLeaf) := ParseRow(torn).value;
            itsLeaf == leaf && served != [] && served <= path && torn == RowText(served, leaf)
  {
    var tail := TornKey(leaf.key, Field(LowerHex(leaf.digest), path), torn);
    ParsePrintedKey(leaf.key, tail.value);
    var served := TornField(LowerHex(leaf.digest), path, tail.value);
    ParsePrintedRow(served.value, leaf);
  }

  // ---- lines, one after another --------------------------------------------------------------

  lemma RowIsOneLine(path: Bytes, leaf: Leaf)
    requires '\n' !in path
    ensures '\n' !in RowText(path, leaf)
  {
    PrintedKeyBytes(leaf.key, Field(LowerHex(leaf.digest), path));
  }

  lemma LinesOfLine(line: Bytes, rest: Bytes)
    requires '\n' !in line
    ensures Lines(line + ['\n'] + rest) == [StripReturn(line)] + Lines(rest)
  {
    SplitOnceAt(line, '\n', rest);
  }

  lemma LinesOfPiece(piece: Bytes)
    requires '\n' !in piece
    ensures Lines(piece) == if piece == [] then [] else [piece]
  {}

  function AbsorbOne(leaves: Leaves, line: Bytes): Leaves {
    var row := ParseRow(line);
    if row.Some? then Put(leaves, row.value.0, row.value.1) else leaves
  }

  lemma AbsorbStep(leaves: Leaves, line: Bytes, lines: seq<Bytes>)
    ensures Absorb(leaves, [line] + lines) == Absorb(AbsorbOne(leaves, line), lines)
  {
    assert ([line] + lines)[1..] == lines;
  }

  lemma AbsorbPiece(held: Leaves, piece: Bytes)
    requires '\n' !in piece
    ensures Absorb(held, Lines(piece)) == AbsorbOne(held, piece)
  {
    LinesOfPiece(piece);
    if piece != [] {
      AbsorbStep(held, piece, []);
      assert [piece] + [] == [piece];
    }
  }

  /** What follows the last newline: the line a torn file leaves unterminated, if any. */
  function Tail(text: Bytes): Bytes {
    if text == [] || text[|text| - 1] == '\n' then [] else Tail(text[..|text| - 1]) + [text[|text| - 1]]
  }

  lemma {:induction false} TailOfPiece(piece: Bytes)
    requires '\n' !in piece
    ensures Tail(piece) == piece
  {
    if piece != [] { TailOfPiece(piece[..|piece| - 1]); }
  }

  lemma {:induction false} TailPastLine(line: Bytes, rest: Bytes)
    ensures Tail(line + ['\n'] + rest) == Tail(rest)
    decreases |rest|
  {
    if rest != [] && rest[|rest| - 1] != '\n' {
      var text := line + ['\n'] + rest;
      assert text[..|text| - 1] == line + ['\n'] + rest[..|rest| - 1];
      TailPastLine(line, rest[..|rest| - 1]);
    }
  }

  predicate LineOrNothing(line: Bytes) { line == [] || (line[|line| - 1] == '\n' && '\n' !in line[..|line| - 1]) }

  lemma TailPast(line: Bytes, more: Bytes)
    requires LineOrNothing(line)
    ensures Tail(line + more) == Tail(more)
  {
    if line == [] {
      assert [] + more == more;
    } else {
      assert line == line[..|line| - 1] + ['\n'];
      TailPastLine(line[..|line| - 1], more);
    }
  }

  lemma PieceOfLine(line: Bytes, torn: Bytes)
    requires LineOrNothing(line) && |torn| < |line| && torn <= line
    ensures Tail(torn) == torn
  {
    var text := line[..|line| - 1];
    assert torn == text[..|torn|];
    TailOfPiece(torn);
  }

  lemma OneMoreLine(line: Bytes, whole: Bytes, more: Bytes)
    requires LineOrNothing(line) && more == whole + Tail(more)
    ensures line + more == (line + whole) + Tail(line + more)
  {
    TailPast(line, more);
    Associate(line, whole, Tail(more));
  }

  lemma ConcatTake(lines: seq<Bytes>, k: nat)
    requires k < |lines|
    ensures Concat(lines[..k + 1]) == lines[0] + Concat(lines[1..][..k])
  {
    assert lines[..k + 1][1..] == lines[1..][..k];
  }

  /** A prefix of lines, one after another, is whole lines, then what is unterminated. */
  lemma {:induction false} WholeThenTail(lines: seq<Bytes>, torn: Bytes) returns (k: nat)
    requires (forall i | 0 <= i < |lines| :: LineOrNothing(lines[i])) && torn <= Concat(lines)
    ensures k <= |lines| && torn == Concat(lines[..k]) + Tail(torn)
    ensures Tail(torn) == [] || (k < |lines| && Tail(torn) <= lines[k])
    decreases |lines|
  {
    k := 0;
    assert Concat(lines[..0]) == [];
    if lines == [] { return; }
    if |torn| < |lines[0]| {
      assert torn <= lines[0];
      PieceOfLine(lines[0], torn);
    } else {
      var more := PastPrefix(lines[0], Concat(lines[1..]), torn);
      k := WholeThenTail(lines[1..], more);
      OneMoreLine(lines[0], Concat(lines[1..][..k]), more);
      ConcatTake(lines, k);
      TailPast(lines[0], more);
      k := k + 1;
    }
  }

  /** What a line leaves in the memo. */
  function TakeLine(held: Leaves, line: Bytes): Leaves {
    if line == [] then held else AbsorbOne(held, StripReturn(line[..|line| - 1]))
  }

  lemma LineIsTaken(held: Leaves, line: Bytes, rest: Bytes)
    requires LineOrNothing(line)
    ensures Absorb(held, Lines(line + rest)) == Absorb(TakeLine(held, line), Lines(rest))
  {
    if line == [] {
      assert [] + rest == rest;
    } else {
      var text := line[..|line| - 1];
      assert line == text + ['\n'];
      LinesOfLine(text, rest);
      AbsorbStep(held, StripReturn(text), Lines(rest));
    }
  }

  function TakeLines(held: Leaves, lines: seq<Bytes>): Leaves
    decreases |lines|
  {
    if lines == [] then held else TakeLines(TakeLine(held, lines[0]), lines[1..])
  }

  /** Lines are taken in turn, and what is unterminated last. */
  lemma {:induction false} LinesAreTaken(held: Leaves, lines: seq<Bytes>, piece: Bytes)
    requires '\n' !in piece && forall i | 0 <= i < |lines| :: LineOrNothing(lines[i])
    ensures Absorb(held, Lines(Concat(lines) + piece)) == AbsorbOne(TakeLines(held, lines), piece)
    decreases |lines|
  {
    if lines == [] {
      assert [] + piece == piece;
      AbsorbPiece(held, piece);
    } else {
      Associate(lines[0], Concat(lines[1..]), piece);
      LineIsTaken(held, lines[0], Concat(lines[1..]) + piece);
      LinesAreTaken(TakeLine(held, lines[0]), lines[1..], piece);
    }
  }

  // ---- rows as they are read -------------------------------------------------------------------

  lemma RowLineIsOne(row: Row)
    ensures LineOrNothing(RowLine(row))
  {
    if Printable(row.path) {
      RowIsOneLine(row.path, row.value);
      Terminated(RowText(row.path, row.value));
    }
  }

  lemma Terminated(text: Bytes)
    requires '\n' !in text
    ensures LineOrNothing(text + ['\n']) && (text + ['\n'])[..|text + ['\n']| - 1] == text
  {
  }

  datatype Reading = Reading(key: PathKey, path: Bytes, leaf: Leaf)

  /** What a row's line reads as, if anything: its leaf, under its path without the carriage return that
      goes with the terminator. */
  function ReadingOf(row: Row): Option<Reading> {
    var path := StripReturn(row.path);
    if Printable(row.path) && path != [] then Some(Reading(Key(path), path, row.value)) else None
  }

  function Readings(rows: seq<Row>): (readings: seq<Option<Reading>>)
    ensures |readings| == |rows| && forall i | 0 <= i < |rows| :: readings[i] == ReadingOf(rows[i])
  {
    if rows == [] then [] else [ReadingOf(rows[0])] + Readings(rows[1..])
  }

  predicate IsUnder(reading: Option<Reading>, k: PathKey) { reading.Some? && reading.value.key == k }

  predicate ReadsUnder(row: Row, k: PathKey) { IsUnder(ReadingOf(row), k) }

  function TakeOne(held: Leaves, reading: Option<Reading>): Leaves {
    if reading.Some? then PutAt(held, reading.value.key, reading.value.path, reading.value.leaf) else held
  }

  function Taken(held: Leaves, readings: seq<Option<Reading>>): Leaves
    decreases |readings|
  {
    if readings == [] then held else Taken(TakeOne(held, readings[0]), readings[1..])
  }

  lemma AbsorbPrinted(held: Leaves, path: Bytes, leaf: Leaf)
    ensures AbsorbOne(held, RowText(path, leaf)) == if path != [] then Put(held, path, leaf) else held
  {
    ParsePrintedRow(path, leaf);
  }

  lemma TextReadsAs(held: Leaves, path: Bytes, leaf: Leaf)
    requires '\n' !in path
    ensures TakeLine(held, RowText(path, leaf) + ['\n'])
            == if StripReturn(path) != [] then Put(held, StripReturn(path), leaf) else held
  {
    RowIsOneLine(path, leaf);
    Terminated(RowText(path, leaf));
    StripRow(path, leaf);
    AbsorbPrinted(held, StripReturn(path), leaf);
  }

  lemma RowIsTaken(held: Leaves, row: Row)
    ensures TakeLine(held, RowLine(row)) == TakeOne(held, ReadingOf(row))
  {
    if Printable(row.path) { TextReadsAs(held, row.path, row.value); }
  }

  lemma {:induction false} RowsAreTaken(held: Leaves, rows: seq<Row>)
    ensures TakeLines(held, RowLines(rows)) == Taken(held, Readings(rows))
    decreases |rows|
  {
    if rows != [] {
      RowIsTaken(held, rows[0]);
      assert RowLines(rows)[1..] == RowLines(rows[1..]) && Readings(rows)[1..] == Readings(rows[1..]);
      RowsAreTaken(TakeOne(held, ReadingOf(rows[0])), rows[1..]);
    }
  }

  lemma TextIsTaken(rows: seq<Row>, piece: Bytes)
    requires '\n' !in piece
    ensures Absorb(map[], Lines(RowsText(rows) + piece)) == AbsorbOne(Taken(map[], Readings(rows)), piece)
  {
    forall i | 0 <= i < |rows| ensures LineOrNothing(RowLines(rows)[i]) { RowLineIsOne(rows[i]); }
    LinesAreTaken(map[], RowLines(rows), piece);
    RowsAreTaken(map[], rows);
  }

  lemma RowTextExtends(a: Bytes, b: Bytes, leaf: Leaf)
    ensures RowText(a + b, leaf) == RowText(a, leaf) + b
  {
    var hex := LowerHex(leaf.digest);
    FieldExtends(hex, a, b);
    PrintKeyExtends(leaf.key, Field(hex, a), b);
  }

  lemma FieldExtends(text: Bytes, a: Bytes, b: Bytes)
    ensures Field(text, a + b) == Field(text, a) + b
  {}

  lemma PrintKeyExtends(key: StatKey, a: Bytes, b: Bytes)
    ensures PrintKey(key, a + b) == PrintKey(key, a) + b
  {
    var k5 := Field(PrintStamp(key.ctime), a);
    var k4 := Field(PrintStamp(key.mtime), k5);
    var k3 := Field(Decimal(key.size), k4);
    var k2 := Field(Decimal(key.ino), k3);
    FieldExtends(PrintStamp(key.ctime), a, b);
    FieldExtends(PrintStamp(key.mtime), k5, b);
    FieldExtends(Decimal(key.size), k4, b);
    FieldExtends(Decimal(key.ino), k3, b);
    FieldExtends(Decimal(key.dev), k2, b);
  }

  lemma RowIsUtf8(path: Bytes, leaf: Leaf)
    requires Utf8(path)
    ensures Utf8(RowText(path, leaf))
  {
    var front := RowText([], leaf);
    assert RowText(path, leaf) == front + path by {
      RowTextExtends([], path, leaf);
      assert [] + path == path;
    }
    RowFrontIsAscii(leaf);
    AsciiIsUtf8(front);
    Utf8Append(front, path);
  }

  predicate PlainByte(c: char) { NumberByte(c) || 'a' <= c <= 'f' }

  lemma RowFrontIsAscii(leaf: Leaf)
    ensures Ascii(RowText([], leaf))
  {
    var hex := Field(LowerHex(leaf.digest), []);
    assert forall c | c in hex :: PlainByte(c);
    PrintedKeyBytes(leaf.key, hex);
    PlainIsAscii(PrintKey(leaf.key, hex));
  }

  lemma PlainIsAscii(s: Bytes)
    requires forall c | c in s :: PlainByte(c)
    ensures Ascii(s)
  {
    forall i | 0 <= i < |s| ensures s[i] as int < 0x80 {
      assert s[i] in s;
    }
  }

  lemma StripRow(path: Bytes, leaf: Leaf)
    ensures StripReturn(RowText(path, leaf)) == RowText(StripReturn(path), leaf)
  {
    if StripReturn(path) != path {
      RowCut(path, leaf, |path| - 1);
      StripOne(RowText(StripReturn(path), leaf));
    } else {
      RowCut(path, leaf, 0);
      RowFrontEnds(leaf);
      NothingToStrip(RowText([], leaf), path);
    }
  }

  lemma StripOne(line: Bytes)
    ensures StripReturn(line + ['\r']) == line
  {
  }

  lemma NothingToStrip(front: Bytes, path: Bytes)
    requires front != [] && front[|front| - 1] == ' ' && StripReturn(path) == path
    ensures StripReturn(front + path) == front + path
  {
  }

  lemma RowFrontEnds(leaf: Leaf)
    ensures RowText([], leaf) != [] && RowText([], leaf)[|RowText([], leaf)| - 1] == ' '
  {
    var tail := Field(LowerHex(leaf.digest), []);
    PrintKeyExtends(leaf.key, [], tail);
    assert [] + tail == tail && tail[|tail| - 1] == ' ';
  }

  lemma RowCut(path: Bytes, leaf: Leaf, cut: nat)
    requires cut <= |path|
    ensures RowText(path, leaf) == RowText(path[..cut], leaf) + path[cut..]
  {
    assert path[..cut] + path[cut..] == path;
    RowTextExtends(path[..cut], path[cut..], leaf);
  }

  lemma {:induction false} ConcatIsUtf8(lines: seq<Bytes>)
    requires forall i | 0 <= i < |lines| :: Utf8(lines[i])
    ensures Utf8(Concat(lines))
    decreases |lines|
  {
    if lines != [] {
      ConcatIsUtf8(lines[1..]);
      Utf8Append(lines[0], Concat(lines[1..]));
    }
  }

  lemma RowLineIsUtf8(row: Row)
    ensures Utf8(RowLine(row))
  {
    if Printable(row.path) {
      RowIsUtf8(row.path, row.value);
      AsciiIsUtf8(['\n']);
      Utf8Append(RowText(row.path, row.value), ['\n']);
    }
  }

  lemma RowsAreUtf8(rows: seq<Row>)
    ensures Utf8(RowsText(rows))
  {
    forall i | 0 <= i < |rows| ensures Utf8(RowLines(rows)[i]) { RowLineIsUtf8(rows[i]); }
    ConcatIsUtf8(RowLines(rows));
  }

  // ---- torn files ------------------------------------------------------------------------

  /** No identity starts as the version line does. */
  lemma VersionIsNoRow(torn: Bytes)
    requires torn <= VERSION_LINE
    ensures ParseRow(torn).None?
  {
    match SplitOnce(torn, ' ')
    case None =>
    case Some((text, rest)) =>
      if text != [] {
        assert text[0] == torn[0] == VERSION_LINE[0] == 'm';
      }
  }

  /** One line is the version line or not; either way no row follows it. */
  lemma OneLineRestoresNothing(piece: Bytes)
    requires '\n' !in piece
    ensures Restored(piece) == map[]
  {
    LinesOfPiece(piece);
  }

  lemma TornInHeader(torn: Bytes)
    requires torn <= VERSION_LINE
    ensures Restored(torn) == map[] && ParseRow(Tail(torn)).None?
  {
    VersionIsOneLine();
    PieceIsOneLine(VERSION_LINE, torn);
    OneLineRestoresNothing(torn);
    VersionIsNoRow(torn);
  }

  lemma PieceIsOneLine(line: Bytes, piece: Bytes)
    requires piece <= line && '\n' !in line
    ensures Tail(piece) == piece && '\n' !in piece
  {
    assert piece == line[..|piece|];
    TailOfPiece(piece);
  }

  lemma TornUnderHeader(more: Bytes)
    ensures Tail(Headed(more)) == Tail(more)
    ensures Restored(Headed(more)) == if Utf8(Headed(more)) then Absorb(map[], Lines(more)) else map[]
  {
    VersionIsOneLine();
    LinesOfLine(VERSION_LINE, more);
    TailPastLine(VERSION_LINE, more);
    assert ([VERSION_LINE] + Lines(more))[1..] == Lines(more);
  }

  lemma {:induction false} TailIsOneLine(text: Bytes)
    ensures '\n' !in Tail(text)
  {
    if text != [] && text[|text| - 1] != '\n' { TailIsOneLine(text[..|text| - 1]); }
  }

  /** A prefix of the rows' text is whole rows, then a piece of the next. */
  lemma WholeRowsThenTail(rows: seq<Row>, torn: Bytes) returns (k: nat)
    requires torn <= RowsText(rows)
    ensures k <= |rows| && torn == RowsText(rows[..k]) + Tail(torn)
    ensures Tail(torn) == [] || (k < |rows| && Tail(torn) <= RowText(rows[k].path, rows[k].value))
  {
    var lines := RowLines(rows);
    forall i | 0 <= i < |lines| ensures LineOrNothing(lines[i]) { RowLineIsOne(rows[i]); }
    k := WholeThenTail(lines, torn);
    FirstRowLines(rows, k);
    TailIsOneLine(torn);
    if Tail(torn) != [] { ShortOfTheEnd(RowText(rows[k].path, rows[k].value), Tail(torn)); }
  }

  lemma ShortOfTheEnd(text: Bytes, piece: Bytes)
    requires '\n' !in piece && piece <= text + ['\n']
    ensures piece <= text
  {
    var whole := text + ['\n'];
    assert whole[|text|] == '\n' && forall i | 0 <= i < |piece| :: whole[i] == piece[i] && piece[i] in piece;
  }

  /** What any byte prefix of a file reads as: nothing when it is not UTF-8, else some rows whole and
      then its unterminated line, which is a piece of the next row. */
  lemma TornReads(rows: seq<Row>, torn: Bytes) returns (k: nat)
    requires torn <= Serialized(rows)
    ensures k <= |rows|
    ensures if |VERSION_LINE| < |torn| then torn == Headed(RowsText(rows[..k]) + Tail(torn)) else k == 0
    ensures Restored(torn) == if Utf8(torn) then AbsorbOne(Taken(map[], Readings(rows[..k])), Tail(torn)) else map[]
    ensures ParseRow(Tail(torn)).Some? ==> k < |rows| && Tail(torn) <= RowText(rows[k].path, rows[k].value)
  {
    if |torn| <= |VERSION_LINE| {
      TornInHeader(torn);
      return 0;
    }
    var more := PastPrefix(VERSION_LINE + ['\n'], RowsText(rows), torn);
    TornUnderHeader(more);
    k := WholeRowsThenTail(rows, more);
    TailIsOneLine(more);
    TextIsTaken(rows[..k], Tail(more));
    NothingIsNoRow();
  }

  lemma NothingIsNoRow()
    ensures ParseRow([]).None?
  {
  }

  /** `leaf` is a recorded row's, and `k` the key of a non-empty piece of that row's path. */
  ghost predicate RecordedUnder(rows: seq<Row>, k: PathKey, leaf: Leaf) {
    exists i, rel :: 0 <= i < |rows| && rel != [] && rel <= rows[i].path && Key(rel) == k && rows[i].value == leaf
  }

  ghost predicate HoldsOnly(held: Leaves, rows: seq<Row>) {
    forall k | k in held :: RecordedUnder(rows, k, held[k].value)
  }

  lemma PutHolds(held: Leaves, rows: seq<Row>, i: nat, rel: Bytes)
    requires HoldsOnly(held, rows) && i < |rows| && rel != [] && rel <= rows[i].path
    ensures HoldsOnly(Put(held, rel, rows[i].value), rows)
  {
    assert RecordedUnder(rows, Key(rel), rows[i].value);
  }

  lemma TakeOneHolds(held: Leaves, rows: seq<Row>, i: nat)
    requires HoldsOnly(held, rows) && i < |rows|
    ensures HoldsOnly(TakeOne(held, ReadingOf(rows[i])), rows)
  {
    if ReadingOf(rows[i]).Some? { PutHolds(held, rows, i, StripReturn(rows[i].path)); }
  }

  lemma {:induction false} TakenMore(held: Leaves, readings: seq<Option<Reading>>, reading: Option<Reading>)
    ensures Taken(held, readings + [reading]) == TakeOne(Taken(held, readings), reading)
    decreases |readings|
  {
    if readings == [] {
      assert [] + [reading] == [reading] && [reading][1..] == [];
    } else {
      assert (readings + [reading])[1..] == readings[1..] + [reading];
      TakenMore(TakeOne(held, readings[0]), readings[1..], reading);
    }
  }

  lemma {:induction false} TakenKeeps(readings: seq<Option<Reading>>, keeps: Leaves -> bool)
    requires keeps(map[])
    requires forall held, i | 0 <= i < |readings| && keeps(held) :: keeps(TakeOne(held, readings[i]))
    ensures keeps(Taken(map[], readings))
    decreases |readings|
  {
    if readings != [] {
      var n := |readings| - 1;
      assert readings == readings[..n] + [readings[n]];
      TakenMore(map[], readings[..n], readings[n]);
      TakenKeeps(readings[..n], keeps);
    }
  }

  lemma TakenHolds(rows: seq<Row>, k: nat)
    requires k <= |rows|
    ensures HoldsOnly(Taken(map[], Readings(rows[..k])), rows)
  {
    var readings, keeps := Readings(rows[..k]), (held: Leaves) => HoldsOnly(held, rows);
    forall held, i | 0 <= i < |readings| && keeps(held) ensures keeps(TakeOne(held, readings[i])) { TakeOneHolds(held, rows, i); }
    TakenKeeps(readings, keeps);
  }

  /** A memo torn anywhere fails only toward reading, as far as identities go: each leaf it still
      holds was recorded, with that same identity and digest, under a path that extends one with the
      key it is held under. */
  lemma TornHoldsOnlyRecorded(rows: seq<Row>, torn: Bytes)
    requires torn <= Serialized(rows)
    ensures HoldsOnly(Restored(torn), rows)
  {
    var k := TornReads(rows, torn);
    TakenHolds(rows, k);
    if ParseRow(Tail(torn)).Some? {
      TornRow(rows[k].path, rows[k].value, Tail(torn));
      PutHolds(Taken(map[], Readings(rows[..k])), rows, k, ParseRow(Tail(torn)).value.0);
    }
  }

  /** So a lookup in it serves a digest only at an identity that digest was recorded with. */
  lemma TornServesOnlyRecorded(rows: seq<Row>, leaves: Leaves, torn: Bytes, rel: Bytes, key: StatKey)
    requires Enumerates(rows, leaves) && torn <= Serialized(rows)
    ensures var served := Serves(Restored(torn), rel, key);
            served.Some? ==> exists k :: k in leaves && leaves[k].value == Leaf(key, served.value)
  {
    TornHoldsOnlyRecorded(rows, torn);
    if Serves(Restored(torn), rel, key).Some? {
      assert RecordedUnder(rows, Key(rel), Restored(torn)[Key(rel)].value);
    }
  }

  // ---- whole files -----------------------------------------------------------------------

  function KeysOf(readings: seq<Option<Reading>>): (keys: seq<Option<PathKey>>)
    ensures |keys| == |readings| && forall i, k | 0 <= i < |readings| :: keys[i] == Some(k) <==> IsUnder(readings[i], k)
  {
    if readings == [] then [] else KeysOf(readings[..|readings| - 1]) + [KeyOf(readings[|readings| - 1])]
  }

  function KeyOf(reading: Option<Reading>): Option<PathKey> { if reading.Some? then Some(reading.value.key) else None }

  /** The last reading under a key. */
  function LastUnder(readings: seq<Option<Reading>>, k: PathKey): (r: Option<nat>)
    ensures r.Some? ==> r.value < |readings| && IsUnder(readings[r.value], k)
    ensures r.Some? ==> forall j | r.value < j < |readings| :: !IsUnder(readings[j], k)
    ensures r.None? ==> forall j | 0 <= j < |readings| :: !IsUnder(readings[j], k)
  {
    var keys := KeysOf(readings);
    assert forall j | 0 <= j < |keys| :: keys[j] in keys && (keys[j] == Some(k) <==> IsUnder(readings[j], k));
    LastIn(keys, Some(k))
  }

  /** The last row that reads under a key. */
  function LastAt(rows: seq<Row>, k: PathKey): (r: Option<nat>)
    ensures r.Some? ==> r.value < |rows| && ReadsUnder(rows[r.value], k) && forall j | r.value < j < |rows| :: !ReadsUnder(rows[j], k)
    ensures r.None? ==> forall j | 0 <= j < |rows| :: !ReadsUnder(rows[j], k)
  {
    assert forall j | 0 <= j < |rows| :: Readings(rows)[j] == ReadingOf(rows[j]);
    LastUnder(Readings(rows), k)
  }

  /** A table after some readings: under each key the leaf of the last reading under it. */
  ghost predicate ServesLast(held: Leaves, readings: seq<Option<Reading>>, k: PathKey) {
    var last := LastUnder(readings, k);
    && (k in held <==> last.Some?)
    && (k in held ==> held[k].value == readings[last.value].value.leaf)
  }

  lemma LastOfMore(readings: seq<Option<Reading>>, reading: Option<Reading>, k: PathKey)
    ensures var last := LastUnder(readings + [reading], k);
            if IsUnder(reading, k) then last == Some(|readings|) else last == LastUnder(readings, k)
  {
    assert (readings + [reading])[..|readings|] == readings;
    LastInMore(KeysOf(readings), KeyOf(reading), Some(k));
  }

  lemma {:induction false} TakenServes(readings: seq<Option<Reading>>, k: PathKey)
    ensures ServesLast(Taken(map[], readings), readings, k)
    decreases |readings|
  {
    if readings != [] {
      var n := |readings| - 1;
      assert readings == readings[..n] + [readings[n]];
      TakenMore(map[], readings[..n], readings[n]);
      LastOfMore(readings[..n], readings[n], k);
      TakenServes(readings[..n], k);
    }
  }

  /** Taking rows leaves under each key the leaf of the last that reads under it, and nothing else. */
  lemma RowsServe(rows: seq<Row>, k: PathKey)
    ensures var r, last := Taken(map[], Readings(rows)), LastAt(rows, k);
            && (k in r <==> last.Some?)
            && (k in r ==> r[k].value == rows[last.value].value)
  {
    TakenServes(Readings(rows), k);
  }

  lemma WholeIsTaken(rows: seq<Row>)
    ensures Restored(Serialized(rows)) == Taken(map[], Readings(rows))
  {
    RowsAreUtf8(rows);
    RestoredHeaded(RowsText(rows));
    TextIsTaken(rows, []);
    assert RowsText(rows) + [] == RowsText(rows);
    NothingIsNoRow();
  }

  /** A whole file serves, under every key, the leaf of the last row that reads under it. */
  lemma WholeServes(rows: seq<Row>, k: PathKey)
    ensures var r, last := Restored(Serialized(rows)), LastAt(rows, k);
            && (k in r <==> last.Some?)
            && (k in r ==> r[k].value == rows[last.value].value)
  {
    WholeIsTaken(rows);
    RowsServe(rows, k);
  }

  /** The recorded row that reads under a key not its own, the last of them in the map's order: a
      spelling of `k` with a carriage return after it. */
  function Overrider(leaves: Leaves, k: PathKey): Option<Row> { FirstOf(ReturnKeys(k), leaves, k) }

  function FirstOf(keys: seq<PathKey>, leaves: Leaves, k: PathKey): Option<Row> {
    if keys == [] then None else if Overrides(leaves, keys[0], k) then Some(leaves[keys[0]]) else FirstOf(keys[1..], leaves, k)
  }

  predicate Overrides(leaves: Leaves, other: PathKey, k: PathKey) { other in leaves && ReadsUnder(leaves[other], k) }

  /** Whether what is recorded under `k` comes back: a row that reads over it has the same leaf, or none
      does and the format carries its path, not empty and not ending in a carriage return. */
  predicate ComesBack(leaves: Leaves, k: PathKey)
    requires k in leaves
  {
    var own, over := leaves[k], Overrider(leaves, k);
    if over.Some? then over.value.value == own.value
    else own.path != [] && Printable(own.path) && StripReturn(own.path) == own.path
  }

  /** A row reads under its own key, or a spelling of the key it reads under has a return after it. */
  lemma ReadersOf(row: Row, k: PathKey)
    requires ReadsUnder(row, k)
    ensures if StripReturn(row.path) == row.path then Key(row.path) == k else Key(row.path) in ReturnKeys(k)
  {
    if StripReturn(row.path) != row.path { WithReturn(StripReturn(row.path)); }
  }

  lemma OwnReading(row: Row)
    ensures ReadsUnder(row, Key(row.path)) <==> row.path != [] && Printable(row.path) && StripReturn(row.path) == row.path
  {
    var k := Key(row.path);
    if ReadsUnder(row, k) {
      ReadersOf(row, k);
      ReturnsDescend(k);
      KeyLessIsStrict(k, k);
    }
  }

  /** Every key of a memo is the key of what it holds. */
  ghost predicate KeyedRight(leaves: Leaves) { forall k | k in leaves :: Key(leaves[k].path) == k }

  /** Of the rows that read under a key, the overrider is the greatest; without one, only the key's own
      row does. */
  lemma OverriderIsGreatest(leaves: Leaves, k: PathKey, row: Row)
    requires KeyedRight(leaves) && Key(row.path) in leaves && leaves[Key(row.path)] == row && ReadsUnder(row, k)
    ensures var over := Overrider(leaves, k);
            if over.Some? then Key(row.path) == k || row == over.value || KeyLess(Key(row.path), Key(over.value.path)) else Key(row.path) == k
  {
    ReadersOf(row, k);
    ReturnsDescend(k);
    if Key(row.path) != k { FirstIsGreatest(ReturnKeys(k), leaves, k, Key(row.path)); }
  }

  lemma {:induction false} FirstIsGreatest(keys: seq<PathKey>, leaves: Leaves, k: PathKey, other: PathKey)
    requires KeyedRight(leaves) && Descending(keys) && other in keys && Overrides(leaves, other, k)
    ensures var first := FirstOf(keys, leaves, k);
            first.Some? && (leaves[other] == first.value || KeyLess(other, Key(first.value.path)))
    decreases |keys|
  {
    if !Overrides(leaves, keys[0], k) { FirstIsGreatest(keys[1..], leaves, k, other); }
  }

  lemma {:induction false} FirstOverrides(keys: seq<PathKey>, leaves: Leaves, k: PathKey)
    requires KeyedRight(leaves) && FirstOf(keys, leaves, k).Some?
    ensures var first := FirstOf(keys, leaves, k).value;
            ReadsUnder(first, k) && Key(first.path) in keys && Key(first.path) in leaves && leaves[Key(first.path)] == first
    decreases |keys|
  {
    if !Overrides(leaves, keys[0], k) { FirstOverrides(keys[1..], leaves, k); }
  }

  lemma OverriderReads(leaves: Leaves, k: PathKey)
    requires KeyedRight(leaves) && Overrider(leaves, k).Some?
    ensures var over := Overrider(leaves, k).value;
            ReadsUnder(over, k) && KeyLess(k, Key(over.path)) && Key(over.path) in leaves && leaves[Key(over.path)] == over
  {
    FirstOverrides(ReturnKeys(k), leaves, k);
    ReturnsDescend(k);
  }

  lemma InOrder(rows: seq<Row>, i: nat, j: nat)
    requires InPathOrder(rows) && i < |rows| && j < |rows| && (rows[i] == rows[j] || KeyLess(Key(rows[i].path), Key(rows[j].path))) && j <= i
    ensures rows[i] == rows[j]
  {
    if j < i { KeyLessIsStrict(Key(rows[i].path), Key(rows[j].path)); }
    if j < i { KeyLessIsStrict(Key(rows[j].path), Key(rows[j].path)); }
  }

  /** So in the map's order it is the last. */
  lemma OverriderIsLast(rows: seq<Row>, leaves: Leaves, k: PathKey)
    requires Enumerates(rows, leaves) && InPathOrder(rows) && Overrider(leaves, k).Some?
    ensures LastAt(rows, k).Some? && rows[LastAt(rows, k).value] == Overrider(leaves, k).value
  {
    OverriderReads(leaves, k);
    var i :| 0 <= i < |rows| && rows[i] == Overrider(leaves, k).value;
    var at := LastAt(rows, k).value;
    OverriderIsGreatest(leaves, k, rows[at]);
    InOrder(rows, at, i);
  }

  lemma OwnIsLast(rows: seq<Row>, leaves: Leaves, k: PathKey)
    requires Enumerates(rows, leaves) && k in leaves && Overrider(leaves, k).None?
    ensures if ReadsUnder(leaves[k], k) then LastAt(rows, k).Some? && rows[LastAt(rows, k).value] == leaves[k] else LastAt(rows, k).None?
  {
    var i :| 0 <= i < |rows| && rows[i] == leaves[k];
    if LastAt(rows, k).Some? { OverriderIsGreatest(leaves, k, rows[LastAt(rows, k).value]); }
  }

  /** The round trip, exactly. */
  lemma RoundTrip(rows: seq<Row>, leaves: Leaves, k: PathKey)
    requires Enumerates(rows, leaves) && InPathOrder(rows) && k in leaves
    ensures var r := Restored(Serialized(rows));
            k in r && r[k].value == leaves[k].value <==> ComesBack(leaves, k)
  {
    WholeServes(rows, k);
    if Overrider(leaves, k).Some? {
      OverriderIsLast(rows, leaves, k);
    } else {
      OwnIsLast(rows, leaves, k);
      OwnReading(leaves[k]);
    }
  }

  // ---- when a torn file is true to paths -----------------------------------------------------

  /** Every leaf held is the recorded one under its key. */
  ghost predicate Faithful(held: Leaves, leaves: Leaves) {
    forall k | k in held :: k in leaves && held[k].value == leaves[k].value
  }

  function Named(row: Option<(Bytes, Leaf)>): Option<PathKey> { if row.Some? then Some(Key(row.value.0)) else None }

  /** The unterminated line does not read as a row, or reads as one recorded with that same leaf. */
  predicate TailIsRecorded(tail: Bytes, leaves: Leaves) {
    var row := ParseRow(tail);
    row.Some? ==> Key(row.value.0) in leaves && leaves[Key(row.value.0)].value == row.value.1
  }

  /** The key a row reads under when its path ends in a carriage return. */
  function Returned(row: Row): Option<PathKey> {
    if ReadingOf(row).Some? && StripReturn(row.path) != row.path then Some(Key(StripReturn(row.path))) else None
  }

  /** A row whose path ends in a carriage return reads as the path without it: that one is recorded with
      the same leaf, or a later row or the unterminated line reads over it. */
  predicate ReturnsAgree(rows: seq<Row>, leaves: Leaves, covered: Option<PathKey>) {
    forall i | 0 <= i < |rows| && Returned(rows[i]).Some? :: AgreesAt(rows, leaves, covered, i, Returned(rows[i]).value)
  }

  predicate AgreesAt(rows: seq<Row>, leaves: Leaves, covered: Option<PathKey>, i: nat, k: PathKey)
    requires i < |rows|
  {
    covered == Some(k) || (exists j :: i < j < |rows| && ReadsUnder(rows[j], k)) || (k in leaves && leaves[k].value == rows[i].value)
  }

  lemma HeldAgrees(rows: seq<Row>, leaves: Leaves, covered: Option<PathKey>, k: PathKey, i: nat)
    requires Recorded(rows, leaves) && ReturnsAgree(rows, leaves, covered) && covered != Some(k)
    requires i < |rows| && ReadsUnder(rows[i], k) && forall j | i < j < |rows| :: !ReadsUnder(rows[j], k)
    ensures k in leaves && rows[i].value == leaves[k].value
  {
    if Returned(rows[i]).Some? { assert AgreesAt(rows, leaves, covered, i, k); }
  }

  lemma LastIs(rows: seq<Row>, k: PathKey, i: nat)
    requires i < |rows| && ReadsUnder(rows[i], k) && forall j | i < j < |rows| :: !ReadsUnder(rows[j], k)
    ensures LastAt(rows, k) == Some(i)
  {
  }

  lemma HeldDisagrees(rows: seq<Row>, leaves: Leaves, covered: Option<PathKey>, i: nat)
    requires i < |rows| && Returned(rows[i]).Some? && !AgreesAt(rows, leaves, covered, i, Returned(rows[i]).value)
    ensures var k, held := Returned(rows[i]).value, Taken(map[], Readings(rows));
            k in held && covered != Some(k) && !(k in leaves && held[k].value == leaves[k].value)
  {
    var k := Returned(rows[i]).value;
    RowsServe(rows, k);
    LastIs(rows, k, i);
  }

  lemma ReturnsAgreeMeans(rows: seq<Row>, leaves: Leaves, covered: Option<PathKey>)
    requires Recorded(rows, leaves)
    ensures var held := Taken(map[], Readings(rows));
            ReturnsAgree(rows, leaves, covered) <==>
            forall k | k in held && covered != Some(k) :: k in leaves && held[k].value == leaves[k].value
  {
    var held := Taken(map[], Readings(rows));
    if ReturnsAgree(rows, leaves, covered) {
      forall k | k in held && covered != Some(k) ensures k in leaves && held[k].value == leaves[k].value {
        RowsServe(rows, k);
        HeldAgrees(rows, leaves, covered, k, LastAt(rows, k).value);
      }
    } else {
      var i :| 0 <= i < |rows| && Returned(rows[i]).Some? && !AgreesAt(rows, leaves, covered, i, Returned(rows[i]).value);
      HeldDisagrees(rows, leaves, covered, i);
    }
  }

  lemma FaithfulWithTail(rows: seq<Row>, leaves: Leaves, tail: Bytes)
    requires Recorded(rows, leaves)
    ensures Faithful(AbsorbOne(Taken(map[], Readings(rows)), tail), leaves)
            <==> TailIsRecorded(tail, leaves) && ReturnsAgree(rows, leaves, Named(ParseRow(tail)))
  {
    ReturnsAgreeMeans(rows, leaves, Named(ParseRow(tail)));
    if ParseRow(tail).Some? { PutFaithful(Taken(map[], Readings(rows)), leaves, ParseRow(tail).value.0, ParseRow(tail).value.1); }
  }

  lemma PutFaithful(held: Leaves, leaves: Leaves, path: Bytes, leaf: Leaf)
    ensures Key(path) in Put(held, path, leaf) && Put(held, path, leaf)[Key(path)].value == leaf
    ensures var at := Key(path);
            Faithful(Put(held, path, leaf), leaves) <==>
              && at in leaves && leaves[at].value == leaf
              && forall k | k in held && k != at :: k in leaves && held[k].value == leaves[k].value
  {
    var at, put := Key(path), Put(held, path, leaf);
    assert at in put;
    forall k | k in held && k != at ensures k in put && put[k] == held[k] {}
  }

  /** When a torn file keeps the format's own word for paths as well: exactly when it is not UTF-8, and
      so read as nothing; or its unterminated line reads as no row or a recorded one, and each whole row
      whose path ends in a carriage return, and that nothing after it reads over, agrees with what is
      recorded without the return. */
  lemma TornIsFaithfulWhen(rows: seq<Row>, leaves: Leaves, torn: Bytes) returns (k: nat)
    requires Enumerates(rows, leaves) && torn <= Serialized(rows)
    ensures k <= |rows|
    ensures if |VERSION_LINE| < |torn| then torn == Headed(RowsText(rows[..k]) + Tail(torn)) else k == 0
    ensures Faithful(Restored(torn), leaves) <==>
            !Utf8(torn) || (TailIsRecorded(Tail(torn), leaves) && ReturnsAgree(rows[..k], leaves, Named(ParseRow(Tail(torn)))))
  {
    k := TornReads(rows, torn);
    FaithfulWithTail(rows[..k], leaves, Tail(torn));
  }

  /** With no recorded path ending in a carriage return, only the unterminated line decides. */
  lemma WithoutReturns(rows: seq<Row>, leaves: Leaves, torn: Bytes)
    requires Enumerates(rows, leaves) && torn <= Serialized(rows)
    requires forall i | 0 <= i < |rows| :: StripReturn(rows[i].path) == rows[i].path
    ensures Faithful(Restored(torn), leaves) <==> !Utf8(torn) || TailIsRecorded(Tail(torn), leaves)
  {
    var k := TornIsFaithfulWhen(rows, leaves, torn);
  }

  /** So a file torn inside a path, between two of its characters, serves that path's leaf under the
      piece that is left, whatever else is recorded; and that is wrong unless the piece is recorded
      with that same leaf. */
  lemma TornInsideAPath(rows: seq<Row>, leaves: Leaves, at: nat, cut: nat) returns (torn: Bytes)
    requires Enumerates(rows, leaves) && at < |rows| && Printable(rows[at].path)
    requires 0 < cut < |rows[at].path| && Utf8(rows[at].path[..cut])
    ensures torn == Headed(RowsText(rows[..at]) + RowText(rows[at].path[..cut], rows[at].value)) && torn <= Serialized(rows)
    ensures ServesPiece(Restored(torn), leaves, rows[at].path[..cut], rows[at].value)
  {
    PrintableLine(rows[at]);
    TornIsAPrefix(rows, at, cut);
    torn := Headed(RowsText(rows[..at]) + RowText(rows[at].path[..cut], rows[at].value));
    PieceServes(rows[..at], leaves, rows[at].path, cut, rows[at].value);
  }

  lemma PrintableLine(row: Row)
    requires Printable(row.path)
    ensures HasLine(row)
  {
  }

  predicate HasLine(row: Row) { RowLine(row) == RowText(row.path, row.value) + ['\n'] }

  lemma TornIsAPrefix(rows: seq<Row>, at: nat, cut: nat)
    requires at < |rows| && HasLine(rows[at]) && cut <= |rows[at].path|
    ensures Headed(RowsText(rows[..at]) + RowText(rows[at].path[..cut], rows[at].value)) <= Serialized(rows)
  {
    RowLineCut(rows[at], cut);
    TornRowIsPrefix(rows, at, RowText(rows[at].path[..cut], rows[at].value), rows[at].path[cut..] + ['\n']);
  }

  /** The leaf is held under the piece, and it has no business there unless it is recorded there. */
  ghost predicate ServesPiece(held: Leaves, leaves: Leaves, piece: Bytes, leaf: Leaf) {
    && Key(piece) in held && held[Key(piece)].value == leaf
    && (Faithful(held, leaves) ==> Key(piece) in leaves && leaves[Key(piece)].value == leaf)
  }

  lemma PieceServes(rows: seq<Row>, leaves: Leaves, path: Bytes, cut: nat, leaf: Leaf)
    requires Printable(path) && 0 < cut <= |path| && Utf8(path[..cut])
    ensures ServesPiece(Restored(Headed(RowsText(rows) + RowText(path[..cut], leaf))), leaves, path[..cut], leaf)
  {
    PieceIsPrintable(path, cut);
    PieceReads(rows, path[..cut], leaf);
    PutFaithful(Taken(map[], Readings(rows)), leaves, path[..cut], leaf);
  }

  lemma PieceIsPrintable(path: Bytes, cut: nat)
    requires Printable(path) && cut <= |path| && Utf8(path[..cut])
    ensures Printable(path[..cut])
  {
  }

  /** Whole rows, then a row with no terminator: it is put in last. */
  lemma PieceReads(rows: seq<Row>, path: Bytes, leaf: Leaf)
    requires path != [] && Printable(path)
    ensures Restored(Headed(RowsText(rows) + RowText(path, leaf))) == Put(Taken(map[], Readings(rows)), path, leaf)
  {
    RowsAreUtf8(rows);
    RowIsUtf8(path, leaf);
    Utf8Append(RowsText(rows), RowText(path, leaf));
    RestoredHeaded(RowsText(rows) + RowText(path, leaf));
    RowIsOneLine(path, leaf);
    TextIsTaken(rows, RowText(path, leaf));
    AbsorbPrinted(Taken(map[], Readings(rows)), path, leaf);
  }

  lemma BreaksInside(lines: seq<Bytes>, at: nat, piece: Bytes, more: Bytes)
    requires at < |lines| && lines[at] == piece + more
    ensures Headed(Concat(lines[..at]) + piece) <= Headed(Concat(lines))
  {
    var front, rest := Concat(lines[..at]), Concat(lines[at + 1..]);
    assert lines == lines[..at] + lines[at..] && lines[at..][1..] == lines[at + 1..];
    ConcatAppend(lines[..at], lines[at..]);
    Associate(piece, more, rest);
    Associate(front, piece, more + rest);
    HeadedAppend(front + piece, more + rest);
  }

  lemma RowLineCut(row: Row, cut: nat)
    requires HasLine(row) && cut <= |row.path|
    ensures RowLine(row) == RowText(row.path[..cut], row.value) + (row.path[cut..] + ['\n'])
  {
    RowCut(row.path, row.value, cut);
    Associate(RowText(row.path[..cut], row.value), row.path[cut..], ['\n']);
  }

  lemma FirstRowLines(rows: seq<Row>, k: nat)
    requires k <= |rows|
    ensures RowLines(rows[..k]) == RowLines(rows)[..k]
  {
  }

  lemma TornRowIsPrefix(rows: seq<Row>, at: nat, piece: Bytes, more: Bytes)
    requires at < |rows| && RowLine(rows[at]) == piece + more
    ensures Headed(RowsText(rows[..at]) + piece) <= Serialized(rows)
  {
    FirstRowLines(rows, at);
    BreaksInside(RowLines(rows), at, piece, more);
  }
}
