/** Two scanners that must agree on where the comments of a Rust source are: one reports them with
    their place, the other drops them and keeps the rest. Which characters are alphanumeric and which
    are whitespace is a parameter, `Classes`. */
module CommentLexers {
  import opened Bytes
  import opened Positions

  datatype Classes = Classes(alnum: char -> bool, space: char -> bool)

  datatype Kind = Raw | Text | CharLiteral | LineComment | BlockComment | Plain

  /** One step of a scan: what stands at `start` and where it ends. */
  datatype Item = Item(kind: Kind, start: nat, end: nat)

  predicate IsComment(item: Item) { item.kind.LineComment? || item.kind.BlockComment? }

  predicate StartsWith(src: string, i: nat, s: string) { i + |s| <= |src| && src[i..i + |s|] == s }

  function Hex(c: char): bool { '0' <= c <= '9' || 'a' <= c <= 'f' || 'A' <= c <= 'F' }

  function Find(src: string, s: string, i: nat): (r: Option<nat>)
    ensures r.Some? ==> i <= r.value && r.value + |s| <= |src|
    decreases |src| - i
  {
    if i + |s| > |src| then None else if src[i..i + |s|] == s then Some(i) else if i < |src| then Find(src, s, i + 1) else None
  }

  // ---- literals --------------------------------------------------------------------------

  function Hashes(src: string, i: nat): (end: nat)
    requires i <= |src|
    ensures i <= end <= |src|
    decreases |src| - i
  {
    if i < |src| && src[i] == '#' then Hashes(src, i + 1) else i
  }

  function HexRun(src: string, i: nat): (end: nat)
    requires i <= |src|
    ensures i <= end <= |src|
    decreases |src| - i
  {
    if i < |src| && Hex(src[i]) then HexRun(src, i + 1) else i
  }

  /** `b?r#*"`: the hashes' bounds, when it stands here and no word runs into it. */
  function RawOpen(cls: Classes, src: string, i: nat): (r: Option<(nat, nat)>)
    requires i < |src|
    ensures r.Some? ==> i < r.value.0 <= r.value.1 < |src|
  {
    var p := if src[i] == 'b' && i + 1 < |src| && src[i + 1] == 'r' then i + 2 else if src[i] == 'r' then i + 1 else 0;
    if p == 0 || (i > 0 && (cls.alnum(src[i - 1]) || src[i - 1] == '_')) then None
    else
      var q := Hashes(src, p);
      if q < |src| && src[q] == '"' then Some((p, q)) else None
  }

  /** Past the closing quote and as many hashes, or the end of the source. */
  function RawEnd(src: string, p: nat, q: nat): (end: nat)
    requires p <= q < |src|
    ensures q < end <= |src|
  {
    var close := ['"'] + src[p..q];
    var found := Find(src, close, q + 1);
    if found.None? then |src| else found.value + |close|
  }

  /** Past the closing quote; an escape may step over the end of the source. */
  function TextEnd(src: string, j: nat): (end: nat)
    ensures j <= end
    decreases |src| - j
  {
    if j >= |src| then j else if src[j] == '\\' then TextEnd(src, j + 2) else if src[j] == '"' then j + 1 else TextEnd(src, j + 1)
  }

  /** The strict char-literal forms; a lifetime tick is none of them. */
  function CharEnd(src: string, i: nat): (r: Option<nat>)
    requires i < |src|
    ensures r.Some? ==> i < r.value <= |src|
  {
    if i + 2 >= |src| then None
    else if src[i + 1] == '\\' then
      if src[i + 2] == 'x' && i + 5 < |src| && Hex(src[i + 3]) && Hex(src[i + 4]) && src[i + 5] == '\'' then Some(i + 6)
      else if src[i + 2] == 'u' && i + 3 < |src| && src[i + 3] == '{' && UnicodeEnd(src, i).Some? then UnicodeEnd(src, i)
      else if src[i + 2] != '\n' && i + 3 < |src| && src[i + 3] == '\'' then Some(i + 4)
      else None
    else if src[i + 1] != '\'' && src[i + 2] == '\'' then Some(i + 3)
    else None
  }

  /** One to six hex digits, the brace and the quote. */
  function UnicodeEnd(src: string, i: nat): (r: Option<nat>)
    requires i + 3 < |src|
    ensures r.Some? ==> i < r.value <= |src|
  {
    var k := HexRun(src, i + 4);
    if 1 <= k - (i + 4) <= 6 && k + 1 < |src| && src[k] == '}' && src[k + 1] == '\'' then Some(k + 2) else None
  }

  /** Block comments nest. */
  function BlockEnd(src: string, j: nat, depth: nat): (end: nat)
    requires j <= |src|
    ensures j <= end <= |src|
    decreases |src| - j
  {
    if j >= |src| || depth == 0 then j
    else if StartsWith(src, j, "/*") then BlockEnd(src, j + 2, depth + 1)
    else if StartsWith(src, j, "*/") then BlockEnd(src, j + 2, depth - 1)
    else BlockEnd(src, j + 1, depth)
  }

  // ---- what stands where -----------------------------------------------------------------

  function LiteralAt(cls: Classes, src: string, i: nat): (r: Option<Item>)
    requires i < |src|
    ensures r.Some? ==> r.value.start == i < r.value.end
    ensures r.Some? ==> !IsComment(r.value) && !r.value.kind.Plain? && (r.value.kind.CharLiteral? ==> r.value.end <= |src|)
    ensures src[i] == '\n' || src[i] == '/' ==> r.None?
  {
    var raw := RawOpen(cls, src, i);
    if raw.Some? then Some(Item(Raw, i, RawEnd(src, raw.value.0, raw.value.1)))
    else if src[i] == '"' then Some(Item(Text, i, TextEnd(src, i + 1)))
    else if src[i] == '\'' && CharEnd(src, i).Some? then Some(Item(CharLiteral, i, CharEnd(src, i).value))
    else None
  }

  function ItemAt(cls: Classes, src: string, i: nat): (item: Item)
    requires i < |src|
    ensures item.start == i < item.end
  {
    if LiteralAt(cls, src, i).Some? then LiteralAt(cls, src, i).value
    else if StartsWith(src, i, "//") then
      assert src[i] == src[i..i + 2][0];
      Item(LineComment, i, LineEnd(src, i))
    else if StartsWith(src, i, "/*") then Item(BlockComment, i, BlockEnd(src, i + 2, 1))
    else Item(Plain, i, i + 1)
  }

  function Items(cls: Classes, src: string, i: nat): seq<Item>
    decreases |src| - i
  {
    if i >= |src| then [] else [ItemAt(cls, src, i)] + Items(cls, src, ItemAt(cls, src, i).end)
  }

  function Clamp(src: string, i: nat): nat { if i <= |src| then i else |src| }

  function Slice(src: string, i: nat, j: nat): string {
    if i <= Clamp(src, j) then src[i..Clamp(src, j)] else ""
  }

  function Newlines(src: string, lo: nat, hi: nat): nat
    requires hi <= |src|
    decreases hi
  {
    if hi <= lo then 0 else Newlines(src, lo, hi - 1) + if src[hi - 1] == '\n' then 1 else 0
  }

  function LastNewline(src: string, lo: nat, hi: nat): (r: Option<nat>)
    requires hi <= |src|
    ensures r.Some? ==> lo <= r.value < hi && src[r.value] == '\n'
    ensures r.None? <==> Newlines(src, lo, hi) == 0
    decreases hi
  {
    if hi <= lo then None else if src[hi - 1] == '\n' then Some(hi - 1) else LastNewline(src, lo, hi - 1)
  }

  // ---- the first scanner: where the comments are -----------------------------------------

  datatype CommentKind = OuterDoc | InnerDoc | Line | BlockDoc | Block

  datatype RawComment = RawComment(line: int, kind: CommentKind, text: string, col: int, ownLine: bool)

  function ClassifyLineMarker(src: string, i: nat): (r: (CommentKind, nat))
    requires StartsWith(src, i, "//")
    ensures i + 2 <= r.1 <= |src|
  {
    if StartsWith(src, i, "////") then (Line, i + 4)
    else if StartsWith(src, i, "///") then (OuterDoc, i + 3)
    else if StartsWith(src, i, "//!") then (InnerDoc, i + 3)
    else (Line, i + 2)
  }

  function ClassifyBlockMarker(src: string, i: nat): (r: (CommentKind, nat))
    requires StartsWith(src, i, "/*")
    ensures i + 2 <= r.1 <= |src|
  {
    if StartsWith(src, i, "/**") && !StartsWith(src, i, "/**/") then (BlockDoc, i + 3)
    else if StartsWith(src, i, "/*!") then (BlockDoc, i + 3)
    else (Block, i + 2)
  }

  predicate Blank(cls: Classes, s: string) { forall c :: c in s ==> cls.space(c) }

  function RStrip(cls: Classes, s: string): string {
    if s != "" && cls.space(s[|s| - 1]) then RStrip(cls, s[..|s| - 1]) else s
  }

  function LStrip(cls: Classes, s: string): (r: string)
    ensures |r| <= |s|
  {
    if s != "" && cls.space(s[0]) then LStrip(cls, s[1..]) else s
  }

  function Strip(cls: Classes, s: string): string { LStrip(cls, RStrip(cls, s)) }

  /** The scanner's own idea of where it is: how many newlines it never counted, where it takes the
      current line to begin, and whether that is an earlier line. */
  datatype Track = Track(skew: nat, lineStart: nat, stale: bool)

  function Passed(src: string, t: Track, item: Item): Track {
    var end := Clamp(src, item.end);
    var last := LastNewline(src, item.start, end);
    if item.kind.CharLiteral? then t.(skew := t.skew + Newlines(src, item.start, end), stale := t.stale || last.Some?)
    else if last.Some? then t.(lineStart := last.value + 1, stale := false)
    else t
  }

  function TrackAfter(src: string, items: seq<Item>): Track {
    if items == [] then Track(0, 0, false) else Passed(src, TrackAfter(src, items[..|items| - 1]), items[|items| - 1])
  }

  function TrueLine(src: string, i: nat): nat
    requires i <= |src|
  {
    1 + Newlines(src, 0, i)
  }

  function TrueLineStart(src: string, i: nat): nat
    requires i <= |src|
  {
    var last := LastNewline(src, 0, i);
    if last.Some? then last.value + 1 else 0
  }

  /** The text of a block comment without its marks. */
  function BlockBody(cls: Classes, src: string, body: nat, end: nat): string {
    Strip(cls, Slice(src, body, if end >= body + 2 then end - 2 else body))
  }

  /** What is reported of a comment, seen from a given track. */
  function Comment(cls: Classes, src: string, item: Item, t: Track): RawComment
    requires item.start < |src| && item == ItemAt(cls, src, item.start) && IsComment(item)
  {
    var i, end := item.start, item.end;
    var line, col, own := TrueLine(src, i) - t.skew, i - t.lineStart, Blank(cls, Slice(src, t.lineStart, i));
    if item.kind.LineComment? then
      var (kind, body) := ClassifyLineMarker(src, i);
      RawComment(line, kind, RStrip(cls, Slice(src, body, end)), col, own)
    else
      var (kind, body) := ClassifyBlockMarker(src, i);
      RawComment(line, kind, BlockBody(cls, src, body, end), col, own)
  }

  ghost predicate From(cls: Classes, src: string, items: seq<Item>) {
    forall item :: item in items ==> item.start < |src| && item == ItemAt(cls, src, item.start)
  }

  ghost function Reported(cls: Classes, src: string, items: seq<Item>): seq<RawComment>
    requires From(cls, src, items)
  {
    if items == [] then []
    else
      var n := |items| - 1;
      var before := Reported(cls, src, items[..n]);
      if IsComment(items[n]) then before + [Comment(cls, src, items[n], TrackAfter(src, items[..n]))] else before
  }

  lemma PairAt(s: string, j: nat)
    requires j < |s|
    ensures StartsWith(s, j, "//") <==> j + 1 < |s| && s[j] == '/' && s[j + 1] == '/'
    ensures StartsWith(s, j, "/*") <==> j + 1 < |s| && s[j] == '/' && s[j + 1] == '*'
    ensures StartsWith(s, j, "*/") <==> j + 1 < |s| && s[j] == '*' && s[j + 1] == '/'
  {
    if j + 1 < |s| { assert s[j..j + 2] == [s[j], s[j + 1]]; }
  }

  lemma MarkerIsNoPair(src: string, i: nat)
    requires StartsWith(src, i, "/*") && ClassifyBlockMarker(src, i).1 == i + 3
    ensures i + 2 < |src| && !StartsWith(src, i + 2, "/*") && !StartsWith(src, i + 2, "*/")
  {
    assert src[i..i + 3] == [src[i], src[i + 1], src[i + 2]];
    if i + 4 <= |src| { assert src[i..i + 4] == [src[i], src[i + 1], src[i + 2], src[i + 3]]; }
    PairAt(src, i + 2);
  }

  /** The two scanners enter a block comment at different places, and leave it at the same one. */
  lemma BlockEntersAnywhere(src: string, i: nat)
    requires StartsWith(src, i, "/*")
    ensures BlockEnd(src, ClassifyBlockMarker(src, i).1, 1) == BlockEnd(src, i + 2, 1)
  {
    if ClassifyBlockMarker(src, i).1 == i + 3 { MarkerIsNoPair(src, i); }
  }

  // Both scanners skip literals by the same rules.

  method FindHashes(src: string, i: nat) returns (end: nat)
    requires i <= |src|
    ensures end == Hashes(src, i)
  {
    end := i;
    while end < |src| && src[end] == '#'
      invariant end <= |src| && Hashes(src, end) == Hashes(src, i)
    {
      end := end + 1;
    }
  }

  method SkipText(src: string, i: nat) returns (j: nat)
    ensures j == TextEnd(src, i)
  {
    j := i;
    while j < |src|
      invariant TextEnd(src, j) == TextEnd(src, i)
    {
      if src[j] == '\\' {
        j := j + 2;
        continue;
      }
      if src[j] == '"' { return j + 1; }
      j := j + 1;
    }
  }

  method SkipBlock(src: string, body: nat) returns (j: nat)
    requires body <= |src|
    ensures j == BlockEnd(src, body, 1)
  {
    var depth: nat := 1;
    j := body;
    while j < |src| && depth > 0
      invariant j <= |src| && BlockEnd(src, j, depth) == BlockEnd(src, body, 1)
    {
      if StartsWith(src, j, "/*") {
        depth := depth + 1;
        j := j + 2;
      } else if StartsWith(src, j, "*/") {
        depth := depth - 1;
        j := j + 2;
      } else {
        j := j + 1;
      }
    }
  }

  method FindLineEnd(src: string, i: nat) returns (end: nat)
    requires i <= |src|
    ensures end == LineEnd(src, i)
  {
    end := i;
    while end < |src| && src[end] != '\n'
      invariant end <= |src| && LineEnd(src, end) == LineEnd(src, i)
    {
      end := end + 1;
    }
  }

  method MatchRawOpen(cls: Classes, src: string, i: nat) returns (m: Option<(nat, nat)>)
    requires i < |src|
    ensures m == RawOpen(cls, src, i)
  {
    var p: nat := 0;
    if src[i] == 'b' && i + 1 < |src| && src[i + 1] == 'r' {
      p := i + 2;
    } else if src[i] == 'r' {
      p := i + 1;
    }
    if p == 0 { return None; }
    if i > 0 && (cls.alnum(src[i - 1]) || src[i - 1] == '_') { return None; }
    var q := FindHashes(src, p);
    if q < |src| && src[q] == '"' { return Some((p, q)); }
    m := None;
  }

  lemma {:induction false} NewlinesAdd(src: string, lo: nat, mid: nat, hi: nat)
    requires lo <= mid <= hi <= |src|
    ensures Newlines(src, lo, hi) == Newlines(src, lo, mid) + Newlines(src, mid, hi)
    decreases hi
  {
    if mid < hi { NewlinesAdd(src, lo, mid, hi - 1); }
  }

  lemma {:induction false} NoNewlineBefore(src: string, i: nat, hi: nat)
    requires i <= |src| && i <= hi <= LineEnd(src, i)
    ensures hi <= |src| && Newlines(src, i, hi) == 0
    decreases hi
  {
    if i < hi {
      NoNewlineBefore(src, i, hi - 1);
      LineEndAt(src, i, hi - 1);
    }
  }

  lemma {:induction false} LineEndAt(src: string, i: nat, k: nat)
    requires i <= |src| && i <= k < LineEnd(src, i)
    ensures k < |src| && src[k] != '\n'
    decreases |src| - i
  {
    if i < k { LineEndAt(src, i + 1, k); }
  }

  lemma OneItem(cls: Classes, src: string, done: seq<Item>, i: nat)
    requires i < |src| && From(cls, src, done)
    requires done + Items(cls, src, i) == Items(cls, src, 0)
    ensures (done + [ItemAt(cls, src, i)]) + Items(cls, src, ItemAt(cls, src, i).end) == Items(cls, src, 0)
    ensures From(cls, src, done + [ItemAt(cls, src, i)])
  {
    var item := ItemAt(cls, src, i);
    Regrouped(done, [item], Items(cls, src, item.end));
  }

  lemma Regrouped<T>(x: seq<T>, y: seq<T>, z: seq<T>)
    ensures (x + y) + z == x + (y + z)
  {
  }

  lemma TrackGrows(src: string, done: seq<Item>, item: Item)
    ensures TrackAfter(src, done + [item]) == Passed(src, TrackAfter(src, done), item)
  {
    var more := done + [item];
    assert more[..|more| - 1] == done && more[|more| - 1] == item;
  }

  lemma ReportGrows(cls: Classes, src: string, done: seq<Item>, item: Item)
    requires From(cls, src, done) && item.start < |src| && item == ItemAt(cls, src, item.start)
    ensures From(cls, src, done + [item])
    ensures Reported(cls, src, done + [item])
            == if IsComment(item) then Reported(cls, src, done) + [Comment(cls, src, item, TrackAfter(src, done))] else Reported(cls, src, done)
  {
    var more := done + [item];
    assert more[..|more| - 1] == done && more[|more| - 1] == item;
  }

  /** The scanner's two counters, and what the track says of them. */
  predicate Placed(src: string, i: nat, line: int, lineStart: int, t: Track) {
    line == TrueLine(src, Clamp(src, i)) - t.skew && lineStart == t.lineStart
  }

  /** Past a literal or a block comment that may span lines. */
  method Counted(src: string, item: Item, line: int, lineStart: nat, ghost t: Track) returns (i: nat, line': int, lineStart': nat)
    requires item.start <= |src| && item.start <= item.end && !item.kind.CharLiteral? && Placed(src, item.start, line, lineStart, t)
    ensures i == item.end && Placed(src, i, line', lineStart', Passed(src, t, item))
  {
    i := item.end;
    line' := line + Newlines(src, item.start, Clamp(src, i));
    var nl := LastNewline(src, item.start, Clamp(src, i));
    lineStart' := if nl.Some? then nl.value + 1 else lineStart;
    NewlinesAdd(src, 0, item.start, Clamp(src, i));
  }

  /** A char literal is stepped over without a look at newlines. */
  lemma CharPlaced(src: string, item: Item, line: int, lineStart: int, t: Track)
    requires item.start <= item.end <= |src| && item.kind.CharLiteral? && Placed(src, item.start, line, lineStart, t)
    ensures Placed(src, item.end, line, lineStart, Passed(src, t, item))
  {
    NewlinesAdd(src, 0, item.start, item.end);
  }

  /** Nor is anything counted where no newline stands. */
  lemma SameLine(src: string, item: Item, line: int, lineStart: int, t: Track)
    requires item.start <= item.end <= |src| && Newlines(src, item.start, item.end) == 0 && Placed(src, item.start, line, lineStart, t)
    ensures Placed(src, item.end, line, lineStart, Passed(src, t, item))
  {
    NewlinesAdd(src, 0, item.start, item.end);
  }

  lemma NextLine(src: string, i: nat, line: int, lineStart: int, t: Track)
    requires i < |src| && src[i] == '\n' && Placed(src, i, line, lineStart, t)
    ensures Placed(src, i + 1, line + 1, i + 1, Passed(src, t, Item(Plain, i, i + 1)))
  {
    assert LastNewline(src, i, i + 1) == Some(i);
  }

  lemma OneChar(src: string, i: nat)
    requires i < |src| && src[i] != '\n'
    ensures Newlines(src, i, i + 1) == 0
  {
    assert Newlines(src, i, i) == 0;
  }

  method LexLineComment(cls: Classes, src: string, i: nat, line: int, lineStart: nat, ghost t: Track) returns (comment: RawComment, end: nat)
    requires i < |src| && ItemAt(cls, src, i).kind.LineComment? && Placed(src, i, line, lineStart, t)
    ensures end == ItemAt(cls, src, i).end && comment == Comment(cls, src, ItemAt(cls, src, i), t)
    ensures Placed(src, end, line, lineStart, Passed(src, t, ItemAt(cls, src, i)))
  {
    var (kind, body) := ClassifyLineMarker(src, i);
    end := FindLineEnd(src, i);
    comment := RawComment(line, kind, RStrip(cls, Slice(src, body, end)), i - lineStart, Blank(cls, Slice(src, lineStart, i)));
    NoNewlineBefore(src, i, end);
    SameLine(src, ItemAt(cls, src, i), line, lineStart, t);
  }

  lemma BlockItem(cls: Classes, src: string, i: nat)
    requires i < |src| && ItemAt(cls, src, i).kind.BlockComment?
    ensures StartsWith(src, i, "/*") && ItemAt(cls, src, i) == Item(BlockComment, i, BlockEnd(src, ClassifyBlockMarker(src, i).1, 1))
  {
    BlockEntersAnywhere(src, i);
  }

  lemma BlockReport(cls: Classes, src: string, item: Item, line: int, lineStart: nat, t: Track)
    requires item.start < |src| && item == ItemAt(cls, src, item.start) && item.kind.BlockComment?
    requires StartsWith(src, item.start, "/*") && Placed(src, item.start, line, lineStart, t)
    ensures var (kind, body) := ClassifyBlockMarker(src, item.start);
            Comment(cls, src, item, t)
            == RawComment(line, kind, BlockBody(cls, src, body, item.end), item.start - lineStart, Blank(cls, Slice(src, lineStart, item.start)))
  {
  }

  method LexBlockComment(cls: Classes, src: string, i: nat, line: int, lineStart: nat, ghost t: Track) returns (comment: RawComment, end: nat)
    requires i < |src| && ItemAt(cls, src, i).kind.BlockComment? && Placed(src, i, line, lineStart, t)
    ensures end == ItemAt(cls, src, i).end && comment == Comment(cls, src, ItemAt(cls, src, i), t)
  {
    BlockItem(cls, src, i);
    var (kind, body) := ClassifyBlockMarker(src, i);
    end := SkipBlock(src, body);
    BlockReport(cls, src, ItemAt(cls, src, i), line, lineStart, t);
    comment := RawComment(line, kind, BlockBody(cls, src, body, end), i - lineStart, Blank(cls, Slice(src, lineStart, i)));
  }

  method SkipLiteral(cls: Classes, src: string, i: nat) returns (lit: Option<Item>)
    requires i < |src|
    ensures lit == LiteralAt(cls, src, i)
  {
    var raw := MatchRawOpen(cls, src, i);
    if raw.Some? { return Some(Item(Raw, i, RawEnd(src, raw.value.0, raw.value.1))); }
    if src[i] == '"' {
      var j := SkipText(src, i + 1);
      return Some(Item(Text, i, j));
    }
    if src[i] == '\'' {
      var m := CharEnd(src, i);
      if m.Some? { return Some(Item(CharLiteral, i, m.value)); }
    }
    lit := None;
  }

  /** One turn of the first scanner. */
  method LexStep(cls: Classes, src: string, at: nat, line: int, lineStart: nat, ghost t: Track)
    returns (comment: Option<RawComment>, i: nat, line': int, lineStart': nat)
    requires at < |src| && Placed(src, at, line, lineStart, t)
    ensures i == ItemAt(cls, src, at).end && Placed(src, i, line', lineStart', Passed(src, t, ItemAt(cls, src, at)))
    ensures comment == if IsComment(ItemAt(cls, src, at)) then Some(Comment(cls, src, ItemAt(cls, src, at), t)) else None
  {
    i, line', lineStart' := at + 1, line, lineStart;
    if src[at] == '\n' {
      NewlineItem(cls, src, at);
      NextLine(src, at, line, lineStart, t);
      return None, at + 1, line + 1, at + 1;
    }
    var lit := SkipLiteral(cls, src, at);
    if lit.Some? {
      if lit.value.kind.CharLiteral? {
        CharPlaced(src, lit.value, line, lineStart, t);
        i := lit.value.end;
      } else {
        i, line', lineStart' := Counted(src, lit.value, line, lineStart, t);
      }
      return None, i, line', lineStart';
    }
    if StartsWith(src, at, "//") {
      var c, end := LexLineComment(cls, src, at, line, lineStart, t);
      return Some(c), end, line, lineStart;
    }
    if StartsWith(src, at, "/*") {
      var c, end := LexBlockComment(cls, src, at, line, lineStart, t);
      i, line', lineStart' := Counted(src, Item(BlockComment, at, end), line, lineStart, t);
      return Some(c), i, line', lineStart';
    }
    OneChar(src, at);
    SameLine(src, Item(Plain, at, at + 1), line, lineStart, t);
    comment := None;
  }

  lemma NewlineItem(cls: Classes, src: string, i: nat)
    requires i < |src| && src[i] == '\n'
    ensures ItemAt(cls, src, i) == Item(Plain, i, i + 1)
  {
    if i + 2 <= |src| { assert src[i..i + 2][0] == '\n'; }
  }

  lemma ItemsEnd(cls: Classes, src: string, i: nat, done: seq<Item>)
    requires i >= |src|
    ensures done + Items(cls, src, i) == done
  {
  }

  /** The first scanner: every comment, with where it takes it to be. */
  method LexComments(cls: Classes, src: string) returns (out: seq<RawComment>)
    ensures From(cls, src, Items(cls, src, 0)) && out == Reported(cls, src, Items(cls, src, 0))
  {
    out := [];
    var i: nat := 0;
    var line: int, lineStart: nat := 1, 0;
    ghost var done: seq<Item>, t := [], Track(0, 0, false);
    while i < |src|
      invariant done + Items(cls, src, i) == Items(cls, src, 0)
      invariant From(cls, src, done) && out == Reported(cls, src, done)
      invariant t == TrackAfter(src, done) && Placed(src, i, line, lineStart, t)
      decreases |src| - i
    {
      ghost var item := ItemAt(cls, src, i);
      OneItem(cls, src, done, i);
      TrackGrows(src, done, item);
      ReportGrows(cls, src, done, item);
      var comment;
      comment, i, line, lineStart := LexStep(cls, src, i, line, lineStart, t);
      if comment.Some? { out := out + [comment.value]; }
      done, t := done + [item], Passed(src, t, item);
    }
    ItemsEnd(cls, src, i, done);
  }

  // ---- where the reports are right -------------------------------------------------------

  /** The items follow one another through the whole source. */
  ghost predicate Chained(cls: Classes, src: string, items: seq<Item>, i: nat) {
    && (forall k | 0 <= k < |items| :: items[k].start < |src| && items[k] == ItemAt(cls, src, items[k].start))
    && (forall k | 0 < k < |items| :: items[k].start == items[k - 1].end)
    && (items != [] ==> items[0].start == i && items[|items| - 1].end >= |src|)
    && (items == [] ==> i >= |src|)
  }

  lemma {:induction false} ItemsAreChained(cls: Classes, src: string, i: nat)
    ensures Chained(cls, src, Items(cls, src, i), i)
    decreases |src| - i
  {
    if i < |src| {
      ItemsAreChained(cls, src, ItemAt(cls, src, i).end);
    }
  }

  predicate Swallows(src: string, item: Item) {
    item.kind.CharLiteral? && LastNewline(src, item.start, Clamp(src, item.end)).Some?
  }

  /** Up to which position the first k items reach. */
  function Reach(src: string, items: seq<Item>, k: nat): nat
    requires k <= |items|
  {
    if k == 0 then 0 else Clamp(src, items[k - 1].end)
  }

  /** The newline that begins the current line was stepped over inside a char literal. */
  ghost predicate LineBrokenInside(src: string, items: seq<Item>, k: nat)
    requires k <= |items|
  {
    exists j :: 0 <= j < k && Swallows(src, items[j]) && items[j].start < TrueLineStart(src, Reach(src, items, k)) <= items[j].end
  }

  lemma {:induction false} LastNewlineIs(src: string, lo: nat, mid: nat, hi: nat)
    requires lo <= mid <= hi <= |src|
    ensures LastNewline(src, lo, hi) == if LastNewline(src, mid, hi).Some? then LastNewline(src, mid, hi) else LastNewline(src, lo, mid)
    decreases hi
  {
    if mid < hi && src[hi - 1] != '\n' { LastNewlineIs(src, lo, mid, hi - 1); }
  }

  lemma {:induction false} SkewIs(cls: Classes, src: string, items: seq<Item>, k: nat)
    requires k <= |items|
    ensures TrackAfter(src, items[..k]).skew == 0 <==> forall j | 0 <= j < k :: !Swallows(src, items[j])
    decreases k
  {
    if k > 0 {
      SkewIs(cls, src, items, k - 1);
      assert items[..k][..k - 1] == items[..k - 1];
    }
  }

  /** The track's line start is the true one, or an earlier one when a newline was stepped over. */
  ghost predicate StartsRight(src: string, items: seq<Item>, k: nat)
    requires k <= |items|
  {
    var t, begin := TrackAfter(src, items[..k]), TrueLineStart(src, Reach(src, items, k));
    t.lineStart <= begin && (t.lineStart == begin <==> !t.stale) && (t.stale <==> LineBrokenInside(src, items, k))
  }

  lemma {:induction false} LineStartIs(cls: Classes, src: string, items: seq<Item>, k: nat)
    requires Chained(cls, src, items, 0) && k <= |items|
    ensures StartsRight(src, items, k)
    decreases k
  {
    if k > 0 {
      LineStartIs(cls, src, items, k - 1);
      ChainReaches(cls, src, items, k);
      LineStartStep(cls, src, items, k);
    }
  }

  lemma ChainReaches(cls: Classes, src: string, items: seq<Item>, k: nat)
    requires Chained(cls, src, items, 0) && 0 < k <= |items|
    ensures Reach(src, items, k - 1) == items[k - 1].start <= Reach(src, items, k)
    ensures TrackAfter(src, items[..k]) == Passed(src, TrackAfter(src, items[..k - 1]), items[k - 1])
  {
    assert items[..k][..k - 1] == items[..k - 1];
  }

  lemma LineStartStep(cls: Classes, src: string, items: seq<Item>, k: nat)
    requires Chained(cls, src, items, 0) && 0 < k <= |items| && StartsRight(src, items, k - 1)
    requires Reach(src, items, k - 1) == items[k - 1].start <= Reach(src, items, k)
    requires TrackAfter(src, items[..k]) == Passed(src, TrackAfter(src, items[..k - 1]), items[k - 1])
    ensures StartsRight(src, items, k)
  {
    var lo, hi := Reach(src, items, k - 1), Reach(src, items, k);
    LastNewlineIs(src, 0, lo, hi);
    if LastNewline(src, lo, hi).None? {
      SameBreak(src, items, k);
    } else {
      FreshBreak(cls, src, items, k);
    }
  }

  lemma SameBreak(src: string, items: seq<Item>, k: nat)
    requires 0 < k <= |items| && TrueLineStart(src, Reach(src, items, k)) == TrueLineStart(src, Reach(src, items, k - 1))
    requires !Swallows(src, items[k - 1])
    ensures LineBrokenInside(src, items, k) <==> LineBrokenInside(src, items, k - 1)
  {
  }

  lemma FreshBreak(cls: Classes, src: string, items: seq<Item>, k: nat)
    requires Chained(cls, src, items, 0) && 0 < k <= |items|
    requires Reach(src, items, k - 1) == items[k - 1].start
    requires LastNewline(src, items[k - 1].start, Reach(src, items, k)).Some?
    requires LastNewline(src, 0, Reach(src, items, k)) == LastNewline(src, items[k - 1].start, Reach(src, items, k))
    ensures LineBrokenInside(src, items, k) <==> items[k - 1].kind.CharLiteral?
  {
    if LineBrokenInside(src, items, k) && !items[k - 1].kind.CharLiteral? {
      var j :| 0 <= j < k && Swallows(src, items[j]) && items[j].start < TrueLineStart(src, Reach(src, items, k)) <= items[j].end;
      EndsBefore(cls, src, items, j, k - 1);
      assert false;
    }
  }

  lemma {:induction false} EndsBefore(cls: Classes, src: string, items: seq<Item>, j: nat, k: nat)
    requires Chained(cls, src, items, 0) && j < k < |items|
    ensures items[j].end <= items[k].start
    decreases k - j
  {
    if j + 1 < k { EndsBefore(cls, src, items, j + 1, k); }
  }

  /** The report of the k-th item, a comment: its line is right exactly when no char literal before it
      spans a newline, its column exactly when the newline before it is in none. */
  lemma ReportedPlaceIs(cls: Classes, src: string, k: nat)
    requires k < |Items(cls, src, 0)| && IsComment(Items(cls, src, 0)[k])
    ensures Chained(cls, src, Items(cls, src, 0), 0)
    ensures var items := Items(cls, src, 0); var report := Comment(cls, src, items[k], TrackAfter(src, items[..k]));
            && (report.line == TrueLine(src, items[k].start) <==> forall j | 0 <= j < k :: !Swallows(src, items[j]))
            && (report.col == items[k].start - TrueLineStart(src, items[k].start) <==> !LineBrokenInside(src, items, k))
  {
    var items := Items(cls, src, 0);
    ItemsAreChained(cls, src, 0);
    SkewIs(cls, src, items, k);
    LineStartIs(cls, src, items, k);
    assert Reach(src, items, k) == items[k].start;
  }

  const BROKEN: string := "'\n'//"

  lemma BrokenStands(cls: Classes)
    ensures |BROKEN| == 5 && ItemAt(cls, BROKEN, 0) == Item(CharLiteral, 0, 3) && ItemAt(cls, BROKEN, 3) == Item(LineComment, 3, 5)
    ensures BROKEN[0] == '\'' && BROKEN[1] == '\n' && BROKEN[2] == '\''
  {
    var t := BROKEN;
    assert t[0] == '\'' && t[1] == '\n' && t[2] == '\'' && t[3..5] == "//" && t[3] == '/' && t[4] == '/';
    assert LineEnd(t, 5) == 5 && LineEnd(t, 4) == 5;
  }

  lemma TwoItems(cls: Classes, t: string, x: Item, y: Item)
    requires 0 < x.end < |t| == y.end && ItemAt(cls, t, 0) == x && ItemAt(cls, t, x.end) == y
    ensures Items(cls, t, 0) == [x, y]
  {
    assert Items(cls, t, y.end) == [];
    assert Items(cls, t, x.end) == [y];
  }

  lemma TwoReports(cls: Classes, t: string, x: Item, y: Item)
    requires From(cls, t, [x, y]) && !IsComment(x) && IsComment(y)
    ensures Reported(cls, t, [x, y]) == [Comment(cls, t, y, Passed(t, Track(0, 0, false), x))]
  {
    assert [] + [x] == [x] && [x] + [y] == [x, y];
    ReportGrows(cls, t, [], x);
    ReportGrows(cls, t, [x], y);
    TrackGrows(t, [], x);
  }

  lemma SecondLine(t: string)
    requires |t| > 3 && t[0] != '\n' && t[1] == '\n' && t[2] != '\n'
    ensures Newlines(t, 0, 3) == 1 && LastNewline(t, 0, 3) == Some(1)
  {
    assert Newlines(t, 0, 1) == 0 && Newlines(t, 0, 2) == 1;
    assert LastNewline(t, 0, 2) == Some(1);
  }

  /** A char literal that holds a newline, then a comment: it is one character into the second line,
      and reported three into the first. */
  lemma ReportedPlaceIsWrong(cls: Classes)
    ensures var items := Items(cls, BROKEN, 0);
            && items == [Item(CharLiteral, 0, 3), Item(LineComment, 3, 5)] && From(cls, BROKEN, items)
            && |Reported(cls, BROKEN, items)| == 1
            && Reported(cls, BROKEN, items)[0].line == 1 && Reported(cls, BROKEN, items)[0].col == 3
    ensures |BROKEN| == 5 && TrueLine(BROKEN, 3) == 2 && 3 - TrueLineStart(BROKEN, 3) == 1
  {
    var x, y := Item(CharLiteral, 0, 3), Item(LineComment, 3, 5);
    BrokenStands(cls);
    TwoItems(cls, BROKEN, x, y);
    SecondLine(BROKEN);
    TwoReports(cls, BROKEN, x, y);
  }

  /** A report for every comment, in order, and none besides. */
  lemma {:induction false} ReportsAreTheComments(cls: Classes, src: string, items: seq<Item>)
    requires From(cls, src, items)
    ensures |Reported(cls, src, items)| == |CommentsOf(items)|
    ensures forall k | 0 <= k < |CommentsOf(items)| ::
              CommentsOf(items)[k] in items && IsComment(CommentsOf(items)[k])
              && exists t :: Reported(cls, src, items)[k] == Comment(cls, src, CommentsOf(items)[k], t)
    decreases |items|
  {
    if items != [] {
      var n := |items| - 1;
      var before, was := CommentsOf(items[..n]), Reported(cls, src, items[..n]);
      ReportsAreTheComments(cls, src, items[..n]);
      forall k | 0 <= k < |before| ensures before[k] in items && IsComment(before[k])
        && exists t :: was[k] == Comment(cls, src, before[k], t)
      {
        assert before[k] in items[..n];
      }
      if IsComment(items[n]) {
        var t := TrackAfter(src, items[..n]);
        assert CommentsOf(items) == before + [items[n]];
        assert Reported(cls, src, items) == was + [Comment(cls, src, items[n], t)];
      }
    }
  }

  function CommentsOf(items: seq<Item>): seq<Item> {
    if items == [] then []
    else
      var n := |items| - 1;
      if IsComment(items[n]) then CommentsOf(items[..n]) + [items[n]] else CommentsOf(items[..n])
  }

  // ---- the second scanner: everything but the comments -------------------------------------

  function Collapse(cls: Classes, s: string): string
    decreases |s|
  {
    if s == "" then ""
    else if cls.space(s[0]) then " " + Collapse(cls, LStrip(cls, s[1..]))
    else [s[0]] + Collapse(cls, s[1..])
  }

  function Flushed(cls: Classes, code: string): string {
    if code == "" then ""
    else
      var s := Strip(cls, Collapse(cls, code));
      if s == "" then " " else s + " "
  }

  const NUL: string := [0 as char]

  datatype Render = Render(out: string, code: string)

  function Kept(cls: Classes, src: string, r: Render, item: Item): Render {
    match item.kind
    case LineComment => r
    case BlockComment => r.(code := r.code + " ")
    case Plain => r.(code := r.code + Slice(src, item.start, item.end))
    case _ => Render(r.out + Flushed(cls, r.code) + (NUL + Slice(src, item.start, item.end) + NUL), "")
  }

  function Rendered(cls: Classes, src: string, items: seq<Item>): Render {
    if items == [] then Render("", "") else Kept(cls, src, Rendered(cls, src, items[..|items| - 1]), items[|items| - 1])
  }

  function ResidueOf(cls: Classes, src: string): string {
    var r := Rendered(cls, src, Items(cls, src, 0));
    r.out + Flushed(cls, r.code)
  }

  lemma RenderGrows(cls: Classes, src: string, done: seq<Item>, item: Item)
    ensures Rendered(cls, src, done + [item]) == Kept(cls, src, Rendered(cls, src, done), item)
  {
    var more := done + [item];
    assert more[..|more| - 1] == done && more[|more| - 1] == item;
  }

  /** One turn of the second scanner. */
  method ResidueStep(cls: Classes, src: string, at: nat, out: string, code: string) returns (i: nat, out': string, code': string)
    requires at < |src|
    ensures i == ItemAt(cls, src, at).end && Render(out', code') == Kept(cls, src, Render(out, code), ItemAt(cls, src, at))
  {
    out', code' := out, code;
    var lit := SkipLiteral(cls, src, at);
    if lit.Some? {
      i := lit.value.end;
      out' := out + Flushed(cls, code) + (NUL + Slice(src, at, i) + NUL);
      code' := "";
    } else if StartsWith(src, at, "//") {
      i := FindLineEnd(src, at);
    } else if StartsWith(src, at, "/*") {
      i := SkipBlock(src, at + 2);
      code' := code + " ";
    } else {
      code' := code + [src[at]];
      i := at + 1;
    }
  }

  method Residue(cls: Classes, src: string) returns (r: string)
    ensures r == ResidueOf(cls, src)
  {
    var out, code := "", "";
    var i: nat := 0;
    ghost var done: seq<Item> := [];
    while i < |src|
      invariant done + Items(cls, src, i) == Items(cls, src, 0) && From(cls, src, done)
      invariant Render(out, code) == Rendered(cls, src, done)
      decreases |src| - i
    {
      OneItem(cls, src, done, i);
      RenderGrows(cls, src, done, ItemAt(cls, src, i));
      done := done + [ItemAt(cls, src, i)];
      i, out, code := ResidueStep(cls, src, i, out, code);
    }
    ItemsEnd(cls, src, i, done);
    r := out + Flushed(cls, code);
  }

  // ---- what a residue says ------------------------------------------------------------------

  /** An item as the second scanner takes it: a line comment is nothing, a block comment is a gap. */
  datatype Mark = Gap | Code(text: string) | Literal(text: string)

  function MarkOf(src: string, item: Item): seq<Mark> {
    match item.kind
    case LineComment => []
    case BlockComment => [Gap]
    case Plain => [Code(Slice(src, item.start, item.end))]
    case _ => [Literal(Slice(src, item.start, item.end))]
  }

  function Marks(src: string, items: seq<Item>): seq<Mark> {
    if items == [] then [] else Marks(src, items[..|items| - 1]) + MarkOf(src, items[|items| - 1])
  }

  lemma MarksMore(src: string, items: seq<Item>, item: Item)
    ensures Marks(src, items + [item]) == Marks(src, items) + MarkOf(src, item)
  {
    assert (items + [item])[..|items|] == items;
  }

  lemma {:induction false} MarksJoin(src: string, x: seq<Item>, y: seq<Item>)
    ensures Marks(src, x + y) == Marks(src, x) + Marks(src, y)
    decreases |y|
  {
    if y == [] {
      assert x + y == x;
    } else {
      var init, last := y[..|y| - 1], y[|y| - 1];
      MarksJoin(src, x, init);
      MarksMore(src, init, last);
      MarksMore(src, x + init, last);
      Regrouped(x, init, [last]);
      assert y == init + [last];
      Regrouped(Marks(src, x), Marks(src, init), MarkOf(src, last));
    }
  }

  lemma OneMark(src: string, item: Item, rest: seq<Item>)
    ensures Marks(src, [item] + rest) == MarkOf(src, item) + Marks(src, rest)
  {
    MarksJoin(src, [item], rest);
    MarksMore(src, [], item);
    assert [] + [item] == [item] && Marks(src, []) + MarkOf(src, item) == MarkOf(src, item);
  }

  /** What stands at `i` is read before the rest. */
  lemma ReadOn(cls: Classes, src: string, i: nat, item: Item, rest: seq<Mark>)
    requires i < |src| && item == ItemAt(cls, src, i) && rest == Marks(src, Items(cls, src, item.end))
    ensures Marks(src, Items(cls, src, i)) == MarkOf(src, item) + rest
  {
    OneMark(src, item, Items(cls, src, item.end));
  }

  lemma PlainOn(cls: Classes, src: string, i: nat, rest: seq<Mark>)
    requires i < |src| && ItemAt(cls, src, i) == Item(Plain, i, i + 1) && rest == Marks(src, Items(cls, src, i + 1))
    ensures Marks(src, Items(cls, src, i)) == [Code(src[i..i + 1])] + rest
  {
    ReadOn(cls, src, i, Item(Plain, i, i + 1), rest);
  }

  lemma NothingOn(cls: Classes, src: string, i: nat)
    requires i >= |src|
    ensures Marks(src, Items(cls, src, i)) == []
  {
  }

  /** The literals in order, each with the code before it, and the code after the last one. */
  datatype Part = Part(code: string, literal: string)
  datatype Gist = Gist(parts: seq<Part>, rest: string)

  function Take(cls: Classes, g: Gist, mark: Mark): Gist {
    match mark
    case Gap => g.(rest := g.rest + " ")
    case Code(text) => g.(rest := g.rest + text)
    case Literal(text) => Gist(g.parts + [Part(Flushed(cls, g.rest), text)], "")
  }

  function Gather(cls: Classes, marks: seq<Mark>): Gist {
    if marks == [] then Gist([], "") else Take(cls, Gather(cls, marks[..|marks| - 1]), marks[|marks| - 1])
  }

  lemma GatherMore(cls: Classes, marks: seq<Mark>, more: seq<Mark>)
    requires |more| <= 1
    ensures Gather(cls, marks + more) == if more == [] then Gather(cls, marks) else Take(cls, Gather(cls, marks), more[0])
  {
    var all := marks + more;
    if more == [] {
      assert all == marks;
    } else {
      assert all[..|all| - 1] == marks && all[|all| - 1] == more[0];
    }
  }

  /** A source, up to its comments and the whitespace of its code. */
  function GistOf(cls: Classes, src: string): Gist {
    var g := Gather(cls, Marks(src, Items(cls, src, 0)));
    g.(rest := Flushed(cls, g.rest))
  }

  function Spell(parts: seq<Part>, rest: string): string {
    if parts == [] then rest
    else parts[0].code + (NUL + (parts[0].literal + (NUL + Spell(parts[1..], rest))))
  }

  lemma {:induction false} SpellMore(parts: seq<Part>, p: Part, rest: string)
    ensures Spell(parts + [p], rest) == Spell(parts, p.code + (NUL + (p.literal + (NUL + rest))))
    decreases |parts|
  {
    if parts == [] {
      assert [] + [p] == [p] && [p][1..] == [];
    } else {
      assert (parts + [p])[1..] == parts[1..] + [p];
      SpellMore(parts[1..], p, rest);
    }
  }

  lemma {:induction false} SpellEnds(parts: seq<Part>, rest: string)
    ensures Spell(parts, rest) == Spell(parts, "") + rest
    decreases |parts|
  {
    if parts == [] {
      assert "" + rest == rest;
    } else {
      SpellEnds(parts[1..], rest);
      var code, literal, more := parts[0].code, parts[0].literal, Spell(parts[1..], "");
      assert code + (NUL + (literal + (NUL + (more + rest)))) == (code + (NUL + (literal + (NUL + more)))) + rest;
    }
  }

  function Spelled(g: Gist): Render { Render(Spell(g.parts, ""), g.rest) }

  lemma KeptIsSpelled(cls: Classes, src: string, g: Gist, item: Item)
    ensures Kept(cls, src, Spelled(g), item)
            == Spelled(if MarkOf(src, item) == [] then g else Take(cls, g, MarkOf(src, item)[0]))
  {
    if MarkOf(src, item) != [] && MarkOf(src, item)[0].Literal? {
      LiteralIsSpelled(g.parts, Flushed(cls, g.rest), MarkOf(src, item)[0].text);
    }
  }

  ghost predicate RenderSpelled(cls: Classes, src: string, items: seq<Item>) {
    Rendered(cls, src, items) == Spelled(Gather(cls, Marks(src, items)))
  }

  lemma {:induction false} RenderedIsSpelled(cls: Classes, src: string, items: seq<Item>)
    ensures RenderSpelled(cls, src, items)
    decreases |items|
  {
    if items == [] {
      assert Gather(cls, Marks(src, items)) == Gist([], "");
    } else {
      var init, last := items[..|items| - 1], items[|items| - 1];
      RenderedIsSpelled(cls, src, init);
      SpelledStep(cls, src, init, last);
      assert items == init + [last];
    }
  }

  lemma SpelledStep(cls: Classes, src: string, init: seq<Item>, last: Item)
    requires RenderSpelled(cls, src, init)
    ensures RenderSpelled(cls, src, init + [last])
  {
    RenderGrows(cls, src, init, last);
    KeptIsSpelled(cls, src, Gather(cls, Marks(src, init)), last);
    MarksGather(cls, src, init, last);
  }

  lemma MarksGather(cls: Classes, src: string, init: seq<Item>, last: Item)
    ensures Gather(cls, Marks(src, init + [last]))
            == var g := Gather(cls, Marks(src, init)); if MarkOf(src, last) == [] then g else Take(cls, g, MarkOf(src, last)[0])
  {
    MarksMore(src, init, last);
    GatherMore(cls, Marks(src, init), MarkOf(src, last));
  }

  lemma LiteralIsSpelled(parts: seq<Part>, code: string, literal: string)
    ensures Spell(parts + [Part(code, literal)], "") == Spell(parts, "") + code + (NUL + literal + NUL)
  {
    SpellMore(parts, Part(code, literal), "");
    SpellEnds(parts, code + (NUL + (literal + (NUL + ""))));
    assert Spell(parts, "") + (code + (NUL + (literal + (NUL + "")))) == Spell(parts, "") + code + (NUL + literal + NUL);
  }

  /** The residue spells the gist. */
  lemma ResidueIsSpelled(cls: Classes, src: string)
    ensures ResidueOf(cls, src) == Spell(GistOf(cls, src).parts, GistOf(cls, src).rest)
  {
    RenderedIsSpelled(cls, src, Items(cls, src, 0));
    SpellEnds(GistOf(cls, src).parts, GistOf(cls, src).rest);
  }

  predicate NulFree(s: string) { forall i | 0 <= i < |s| :: s[i] != 0 as char }

  predicate Clean(g: Gist) { NulFree(g.rest) && forall i | 0 <= i < |g.parts| :: NulFree(g.parts[i].code) && NulFree(g.parts[i].literal) }

  /** Up to its first NUL, a text has one reading. */
  lemma FirstNul(a: string, x: string, b: string, y: string)
    requires NulFree(a) && NulFree(b) && a + (NUL + x) == b + (NUL + y)
    ensures a == b && x == y
  {
    var s := a + (NUL + x);
    assert s[|a|] == 0 as char && s[|b|] == 0 as char;
    assert forall i | 0 <= i < |a| :: s[i] == a[i];
    assert forall i | 0 <= i < |b| :: s[i] == b[i];
    assert |a| == |b|;
    assert a == s[..|a|] && b == s[..|b|];
    assert x == s[|a| + 1..] && y == s[|b| + 1..];
  }

  lemma HasNul(parts: seq<Part>, rest: string)
    requires parts != []
    ensures !NulFree(Spell(parts, rest))
  {
    assert Spell(parts, rest)[|parts[0].code|] == 0 as char;
  }

  lemma {:induction false} SpellIsInjective(g: Gist, h: Gist)
    requires Clean(g) && Clean(h) && Spell(g.parts, g.rest) == Spell(h.parts, h.rest)
    ensures g == h
    decreases |g.parts|
  {
    if g.parts == [] || h.parts == [] {
      if g.parts != [] { HasNul(g.parts, g.rest); }
      if h.parts != [] { HasNul(h.parts, h.rest); }
    } else {
      var p, q := g.parts[0], h.parts[0];
      var g', h' := Gist(g.parts[1..], g.rest), Gist(h.parts[1..], h.rest);
      var x, y := Spell(g'.parts, g'.rest), Spell(h'.parts, h'.rest);
      FirstNul(p.code, p.literal + (NUL + x), q.code, q.literal + (NUL + y));
      FirstNul(p.literal, x, q.literal, y);
      SpellIsInjective(g', h');
      assert g.parts == [p] + g'.parts && h.parts == [q] + h'.parts;
    }
  }

  // A source with no NUL has a clean gist.

  lemma {:induction false} FlushedFrom(cls: Classes, code: string)
    requires NulFree(code)
    ensures NulFree(Flushed(cls, code))
  {
    CollapseFrom(cls, code);
    StripFrom(cls, Collapse(cls, code));
  }

  lemma {:induction false} CollapseFrom(cls: Classes, s: string)
    requires NulFree(s)
    ensures NulFree(Collapse(cls, s))
    decreases |s|
  {
    if s != "" {
      if cls.space(s[0]) {
        LStripFrom(cls, s[1..]);
        CollapseFrom(cls, LStrip(cls, s[1..]));
      } else {
        CollapseFrom(cls, s[1..]);
      }
    }
  }

  lemma {:induction false} LStripFrom(cls: Classes, s: string)
    requires NulFree(s)
    ensures NulFree(LStrip(cls, s))
    decreases |s|
  {
    if s != "" && cls.space(s[0]) { LStripFrom(cls, s[1..]); }
  }

  lemma {:induction false} RStripFrom(cls: Classes, s: string)
    requires NulFree(s)
    ensures NulFree(RStrip(cls, s))
    decreases |s|
  {
    if s != "" && cls.space(s[|s| - 1]) { RStripFrom(cls, s[..|s| - 1]); }
  }

  lemma StripFrom(cls: Classes, s: string)
    requires NulFree(s)
    ensures NulFree(Strip(cls, s))
  {
    RStripFrom(cls, s);
    LStripFrom(cls, RStrip(cls, s));
  }

  lemma TakeIsClean(cls: Classes, src: string, g: Gist, item: Item)
    requires Clean(g) && NulFree(src) && MarkOf(src, item) != []
    ensures Clean(Take(cls, g, MarkOf(src, item)[0]))
  {
    FlushedFrom(cls, g.rest);
    assert NulFree(Slice(src, item.start, item.end));
  }

  lemma {:induction false} GatherIsClean(cls: Classes, src: string, items: seq<Item>)
    requires NulFree(src)
    ensures Clean(Gather(cls, Marks(src, items)))
    decreases |items|
  {
    if items != [] {
      var n := |items| - 1;
      GatherIsClean(cls, src, items[..n]);
      GatherMore(cls, Marks(src, items[..n]), MarkOf(src, items[n]));
      if MarkOf(src, items[n]) != [] { TakeIsClean(cls, src, Gather(cls, Marks(src, items[..n])), items[n]); }
    }
  }

  lemma NulFreeIsClean(cls: Classes, src: string)
    requires NulFree(src)
    ensures Clean(GistOf(cls, src))
  {
    GatherIsClean(cls, src, Items(cls, src, 0));
    FlushedFrom(cls, Gather(cls, Marks(src, Items(cls, src, 0))).rest);
  }

  // ---- the gate ------------------------------------------------------------------------------

  /** What a pass means. From a source with no NUL among its code and literals, one of equal residue has
      the same literals in the same order and between them the same code up to comments and whitespace,
      exactly when it has no NUL there either. */
  lemma PassMeansSameGist(cls: Classes, a: string, b: string)
    requires Clean(GistOf(cls, a)) && ResidueOf(cls, a) == ResidueOf(cls, b)
    ensures GistOf(cls, a) == GistOf(cls, b) <==> Clean(GistOf(cls, b))
  {
    ResidueIsSpelled(cls, a);
    ResidueIsSpelled(cls, b);
    if Clean(GistOf(cls, b)) { SpellIsInjective(GistOf(cls, a), GistOf(cls, b)); }
  }

  /** As many literals, and every piece as long. */
  predicate SameLengths(g: Gist, h: Gist) {
    && |g.parts| == |h.parts| && |g.rest| == |h.rest|
    && forall i | 0 <= i < |g.parts| :: |g.parts[i].code| == |h.parts[i].code| && |g.parts[i].literal| == |h.parts[i].literal|
  }

  lemma SplitByLength(a: string, x: string, b: string, y: string)
    requires |a| == |b| && a + (NUL + x) == b + (NUL + y)
    ensures a == b && x == y
  {
    var s := a + (NUL + x);
    assert a == s[..|a|] && b == s[..|a|] && x == s[|a| + 1..] && y == s[|a| + 1..];
  }

  lemma {:induction false} SpellByLengths(g: Gist, h: Gist)
    requires SameLengths(g, h) && Spell(g.parts, g.rest) == Spell(h.parts, h.rest)
    ensures g == h
    decreases |g.parts|
  {
    if g.parts != [] {
      var p, q := g.parts[0], h.parts[0];
      var g', h' := Gist(g.parts[1..], g.rest), Gist(h.parts[1..], h.rest);
      var x, y := Spell(g'.parts, g'.rest), Spell(h'.parts, h'.rest);
      SplitByLength(p.code, p.literal + (NUL + x), q.code, q.literal + (NUL + y));
      SplitByLength(p.literal, x, q.literal, y);
      SpellByLengths(g', h');
      assert g.parts == [p] + g'.parts && h.parts == [q] + h'.parts;
    }
  }

  /** And of any two sources, NULs or not: of equal residue they have equal gists exactly when their
      pieces are as many and as long. */
  lemma PassMeansSameGistWhen(cls: Classes, a: string, b: string)
    requires ResidueOf(cls, a) == ResidueOf(cls, b)
    ensures GistOf(cls, a) == GistOf(cls, b) <==> SameLengths(GistOf(cls, a), GistOf(cls, b))
  {
    ResidueIsSpelled(cls, a);
    ResidueIsSpelled(cls, b);
    if SameLengths(GistOf(cls, a), GistOf(cls, b)) { SpellByLengths(GistOf(cls, a), GistOf(cls, b)); }
  }

  const LITERAL: string := "' ' "
  const TICKS: string := NUL + "'//\n'" + NUL

  /** With one, a pass can be wrong: a char literal and a space, against two lone ticks on two lines,
      NULs around them. */
  lemma NulsSpellALiteral(cls: Classes)
    requires cls.space(' ') && cls.space('\n') && !cls.space('\'') && !cls.space(0 as char)
    ensures ResidueOf(cls, LITERAL) == ResidueOf(cls, TICKS) && GistOf(cls, LITERAL) != GistOf(cls, TICKS)
  {
    LiteralReads(cls);
    TicksRead(cls);
    ResidueIsSpelled(cls, LITERAL);
    ResidueIsSpelled(cls, TICKS);
    assert Spell([Part("", "' '")], " ") == "" + (NUL + ("' '" + (NUL + " ")));
  }

  lemma LiteralStands(cls: Classes)
    ensures |LITERAL| == 4 && LITERAL[0..3] == "' '" && LITERAL[3..4] == " "
    ensures ItemAt(cls, LITERAL, 0) == Item(CharLiteral, 0, 3) && ItemAt(cls, LITERAL, 3) == Item(Plain, 3, 4)
  {
    var t := LITERAL;
    assert t[0] == '\'' && t[1] == ' ' && t[2] == '\'' && t[3] == ' ';
  }

  lemma LiteralThenCode(cls: Classes, t: string)
    requires |t| == 4 && ItemAt(cls, t, 0) == Item(CharLiteral, 0, 3) && ItemAt(cls, t, 3) == Item(Plain, 3, 4)
    ensures Marks(t, Items(cls, t, 0)) == [Literal(t[0..3])] + [Code(t[3..4])]
  {
    NothingOn(cls, t, 4);
    PlainOn(cls, t, 3, []);
    assert [Code(t[3..4])] + [] == [Code(t[3..4])];
    ReadOn(cls, t, 0, Item(CharLiteral, 0, 3), [Code(t[3..4])]);
  }

  lemma LiteralGathers(cls: Classes, literal: string, code: string)
    ensures Gather(cls, [Literal(literal)] + [Code(code)]) == Gist([Part("", literal)], code)
  {
    GatherMore(cls, [], [Literal(literal)]);
    GatherMore(cls, [Literal(literal)], [Code(code)]);
    assert [] + [Literal(literal)] == [Literal(literal)] && [] + [Part("", literal)] == [Part("", literal)] && "" + code == code;
  }

  lemma LiteralReads(cls: Classes)
    requires cls.space(' ')
    ensures GistOf(cls, LITERAL) == Gist([Part("", "' '")], " ")
  {
    LiteralStands(cls);
    LiteralThenCode(cls, LITERAL);
    LiteralGathers(cls, "' '", " ");
    SpaceFlushes(cls);
  }

  lemma SpaceFlushes(cls: Classes)
    requires cls.space(' ')
    ensures Flushed(cls, " ") == " "
  {
    var one := " ";
    assert one[0] == ' ' && one[1..] == "" && one[..0] == "";
    assert LStrip(cls, "") == "" && Collapse(cls, "") == "";
    assert Collapse(cls, one) == " " + "";
    assert RStrip(cls, one) == RStrip(cls, "") == "";
  }

  lemma TicksStand(cls: Classes)
    ensures ItemAt(cls, TICKS, 0) == Item(Plain, 0, 1) && ItemAt(cls, TICKS, 1) == Item(Plain, 1, 2)
    ensures ItemAt(cls, TICKS, 4) == Item(Plain, 4, 5) && ItemAt(cls, TICKS, 5) == Item(Plain, 5, 6)
    ensures ItemAt(cls, TICKS, 6) == Item(Plain, 6, 7)
  {
    var t := TICKS;
    assert t[0] == 0 as char && t[1] == '\'' && t[2] == '/' && t[3] == '/' && t[4] == '\n' && t[5] == '\'' && t[6] == 0 as char;
    assert forall i | i in {0, 1, 4, 5, 6} && i + 2 <= 7 :: t[i..i + 2][0] == t[i];
  }

  lemma TicksComment(cls: Classes)
    ensures ItemAt(cls, TICKS, 2) == Item(LineComment, 2, 4)
  {
    var t := TICKS;
    assert t[2] == '/' && t[3] == '/' && t[4] == '\n' && t[2..4] == "//";
    assert LineEnd(t, 4) == 4 && LineEnd(t, 3) == 4 && LineEnd(t, 2) == 4;
  }

  lemma CodesGather(cls: Classes, c: seq<Mark>)
    requires |c| == 5 && forall i | 0 <= i < 5 :: c[i].Code?
    ensures Gather(cls, c) == Gist([], c[0].text + c[1].text + c[2].text + c[3].text + c[4].text)
  {
    assert c == (((([] + [c[0]]) + [c[1]]) + [c[2]]) + [c[3]]) + [c[4]];
    GatherMore(cls, [], [c[0]]);
    GatherMore(cls, [] + [c[0]], [c[1]]);
    GatherMore(cls, ([] + [c[0]]) + [c[1]], [c[2]]);
    GatherMore(cls, (([] + [c[0]]) + [c[1]]) + [c[2]], [c[3]]);
    GatherMore(cls, ((([] + [c[0]]) + [c[1]]) + [c[2]]) + [c[3]], [c[4]]);
    assert "" + c[0].text == c[0].text;
  }

  lemma TicksRead(cls: Classes)
    requires cls.space('\n') && !cls.space('\'') && !cls.space(0 as char)
    ensures GistOf(cls, TICKS) == Gist([], NUL + ("' '" + (NUL + " ")))
  {
    TicksStand(cls);
    TicksComment(cls);
    TicksAreMarks(cls, TICKS);
    TicksSlices();
    CodesGather(cls, [Code(NUL), Code("'"), Code("\n"), Code("'"), Code(NUL)]);
    TicksFlush(cls, NUL + "'" + "\n" + "'" + NUL);
  }

  lemma TicksSlices()
    ensures TICKS[0..1] == NUL && TICKS[1..2] == "'" && TICKS[4..5] == "\n" && TICKS[5..6] == "'" && TICKS[6..7] == NUL
  {
  }

  predicate PlainAt(cls: Classes, t: string, i: nat) { i < |t| && ItemAt(cls, t, i) == Item(Plain, i, i + 1) }

  lemma TicksTail(cls: Classes, t: string)
    requires |t| == 7 && PlainAt(cls, t, 4) && PlainAt(cls, t, 5) && PlainAt(cls, t, 6)
    ensures Marks(t, Items(cls, t, 4)) == [Code(t[4..5]), Code(t[5..6]), Code(t[6..7])]
  {
    NothingOn(cls, t, 7);
    PlainOn(cls, t, 6, []);
    PlainOn(cls, t, 5, [Code(t[6..7])]);
    PlainOn(cls, t, 4, [Code(t[5..6]), Code(t[6..7])]);
  }

  lemma TicksComeFirst(cls: Classes, t: string, tail: seq<Mark>)
    requires |t| == 7 && PlainAt(cls, t, 0) && PlainAt(cls, t, 1) && tail == Marks(t, Items(cls, t, 2))
    ensures Marks(t, Items(cls, t, 0)) == [Code(t[0..1])] + ([Code(t[1..2])] + tail)
  {
    PlainOn(cls, t, 1, tail);
    PlainOn(cls, t, 0, [Code(t[1..2])] + tail);
  }

  lemma CommentComesFirst(cls: Classes, t: string, i: nat, end: nat, tail: seq<Mark>)
    requires i < |t| && ItemAt(cls, t, i) == Item(LineComment, i, end) && tail == Marks(t, Items(cls, t, end))
    ensures Marks(t, Items(cls, t, i)) == tail
  {
    ReadOn(cls, t, i, Item(LineComment, i, end), tail);
    assert [] + tail == tail;
  }

  lemma FiveMarks(a: Mark, b: Mark, c: Mark, d: Mark, e: Mark)
    ensures [a] + ([b] + [c, d, e]) == [a, b, c, d, e]
  {
  }

  lemma TicksAreMarks(cls: Classes, t: string)
    requires |t| == 7 && PlainAt(cls, t, 0) && PlainAt(cls, t, 1) && ItemAt(cls, t, 2) == Item(LineComment, 2, 4)
    requires PlainAt(cls, t, 4) && PlainAt(cls, t, 5) && PlainAt(cls, t, 6)
    ensures Marks(t, Items(cls, t, 0)) == [Code(t[0..1]), Code(t[1..2]), Code(t[4..5]), Code(t[5..6]), Code(t[6..7])]
  {
    var c, d, e := Code(t[4..5]), Code(t[5..6]), Code(t[6..7]);
    TicksTail(cls, t);
    CommentComesFirst(cls, t, 2, 4, [c, d, e]);
    TicksComeFirst(cls, t, [c, d, e]);
    FiveMarks(Code(t[0..1]), Code(t[1..2]), c, d, e);
  }

  lemma TicksFlush(cls: Classes, code: string)
    requires cls.space('\n') && !cls.space('\'') && !cls.space(0 as char)
    requires code == NUL + "'" + "\n" + "'" + NUL
    ensures Flushed(cls, code) == NUL + ("' '" + (NUL + " "))
  {
    assert code[0] == 0 as char && code[1..][0] == '\'' && code[1..][1..][0] == '\n';
    var last := code[1..][1..][1..];
    assert last == "'" + NUL && last[1..] == NUL && last[1..][1..] == "";
    assert Collapse(cls, NUL) == [NUL[0]] + Collapse(cls, "");
    assert Collapse(cls, last) == [last[0]] + Collapse(cls, NUL);
    assert LStrip(cls, last) == last;
    assert Collapse(cls, code[1..][1..]) == " " + last;
    assert Collapse(cls, code[1..]) == "'" + (" " + last);
    var s := Collapse(cls, code);
    assert s == NUL + ("'" + (" " + last));
    assert s[|s| - 1] == 0 as char && s[0] == 0 as char;
    assert Strip(cls, s) == s;
  }

  /** Nothing that leaves the gist alone is refused. */
  lemma SameGistPasses(cls: Classes, a: string, b: string)
    requires GistOf(cls, a) == GistOf(cls, b)
    ensures ResidueOf(cls, a) == ResidueOf(cls, b)
  {
    ResidueIsSpelled(cls, a);
    ResidueIsSpelled(cls, b);
  }

  method Compare(cls: Classes, before: string, after: string) returns (same: bool)
    ensures same <==> ResidueOf(cls, before) == ResidueOf(cls, after)
    ensures NulFree(before) && NulFree(after) ==> (same <==> GistOf(cls, before) == GistOf(cls, after))
  {
    var a := Residue(cls, before);
    var b := Residue(cls, after);
    same := a == b;
    if NulFree(before) && NulFree(after) {
      NulFreeIsClean(cls, before);
      NulFreeIsClean(cls, after);
      if same { PassMeansSameGist(cls, before, after); }
      if GistOf(cls, before) == GistOf(cls, after) { SameGistPasses(cls, before, after); }
    }
  }

  /** What the second scanner drops is inside the spans the first one reports: whatever is changed in
      comments, and whichever line comments come or go, the residue is the same. */
  lemma OnlyCommentsAreDropped(cls: Classes, a: string, as_: seq<Item>, b: string, bs: seq<Item>)
    requires Marks(a, as_) == Marks(b, bs)
    ensures Rendered(cls, a, as_) == Rendered(cls, b, bs)
  {
    RenderedIsSpelled(cls, a, as_);
    RenderedIsSpelled(cls, b, bs);
  }

  lemma CommentOnlyEditsPass(cls: Classes, a: string, b: string)
    requires Marks(a, Items(cls, a, 0)) == Marks(b, Items(cls, b, 0))
    ensures ResidueOf(cls, a) == ResidueOf(cls, b)
  {
    OnlyCommentsAreDropped(cls, a, Items(cls, a, 0), b, Items(cls, b, 0));
  }
}
