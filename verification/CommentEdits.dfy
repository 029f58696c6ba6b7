/** What editing a comment in a source text does to the residue: rewriting one never shows, and deleting
    a line comment shows exactly when a lone tick stands before it and, past the newline after it,
    another tick: the three then read as a char literal. */
module CommentEdits {
  import opened Positions
  import opened CommentLexers

  // ---- walking a text step by step -----------------------------------------------------------

  datatype Step<T> = Step(end: nat, marks: seq<T>)

  type Walk<!T> = nat -> Step<T>

  /** What the steps from `i` on give, up to `n`. */
  function Run<T>(at: Walk<T>, n: nat, i: nat): seq<T>
    decreases n - i
  {
    if i >= n || at(i).end <= i then [] else at(i).marks + Run(at, n, at(i).end)
  }

  /** Step by step one comes from `i` to `stop`. */
  predicate Reaches<T>(at: Walk<T>, n: nat, i: nat, stop: nat)
    decreases n - i
  {
    i == stop || (i < stop && i < n && i < at(i).end && Reaches(at, n, at(i).end, stop))
  }

  function Between<T>(at: Walk<T>, n: nat, i: nat, stop: nat): seq<T>
    decreases n - i
  {
    if i >= stop || i >= n || at(i).end <= i then [] else at(i).marks + Between(at, n, at(i).end, stop)
  }

  lemma NoneBefore<T>(none: seq<T>, x: seq<T>)
    requires none == []
    ensures none + x == x
  {
  }

  lemma {:induction false} RunSplits<T>(at: Walk<T>, n: nat, i: nat, stop: nat)
    requires Reaches(at, n, i, stop)
    ensures Run(at, n, i) == Between(at, n, i, stop) + Run(at, n, stop)
    decreases n - i
  {
    if i == stop {
      NoneBefore(Between(at, n, i, stop), Run(at, n, stop));
    } else {
      RunSplits(at, n, at(i).end, stop);
      Regrouped(at(i).marks, Between(at, n, at(i).end, stop), Run(at, n, stop));
    }
  }

  lemma {:induction false} EndsBy<T>(at: Walk<T>, n: nat, i: nat, j: nat, stop: nat)
    requires Reaches(at, n, i, j) && Reaches(at, n, i, stop) && j < stop
    ensures j < n && j < at(j).end <= stop
    decreases n - i
  {
    if i < j { EndsBy(at, n, at(i).end, j, stop); }
  }

  /** A walk that takes the same steps up to `stop` gives the same there. */
  lemma {:induction false} RunAlike<T>(at: Walk<T>, n: nat, at': Walk<T>, n': nat, i: nat, stop: nat)
    requires Reaches(at, n, i, stop) && stop <= n'
    requires forall j: nat | Reaches(at, n, i, j) && j < stop :: at'(j) == at(j)
    ensures Run(at', n', i) == Between(at, n, i, stop) + Run(at', n', stop)
    decreases n - i
  {
    if i == stop {
      NoneBefore(Between(at, n, i, stop), Run(at', n', stop));
    } else {
      var next := at(i).end;
      forall j: nat | Reaches(at, n, next, j) && j < stop ensures at'(j) == at(j) {
        assert Reaches(at, n, i, j);
      }
      RunAlike(at, n, at', n', next, stop);
      assert Reaches(at, n, i, i);
      Regrouped(at(i).marks, Between(at, n, next, stop), Run(at', n', stop));
    }
  }

  /** And so does one that takes them somewhere else. */
  lemma {:induction false} RunMoved<T>(at: Walk<T>, n: nat, at': Walk<T>, n': nat, e: nat, d: int, i: nat)
    requires e <= i && 0 <= e + d && n' == n + d
    requires forall j | e <= j < n :: at(j).end > j && at'(j + d) == Step(at(j).end + d, at(j).marks)
    ensures Run(at', n', i + d) == Run(at, n, i)
    decreases n - i
  {
    if i < n { RunMoved(at, n, at', n', e, d, at(i).end); }
  }

  // ---- what stands before the comment ------------------------------------------------------

  predicate Alike(a: string, b: string, c: nat) { c <= |a| && c <= |b| && forall k | 0 <= k < c :: a[k] == b[k] }

  predicate Opens(s: string, c: nat) { c + 1 < |s| && s[c] == '/' && s[c + 1] == '/' }

  predicate Breaks(s: string, c: nat) { c == |s| || (c < |s| && s[c] == '\n') }

  /** A comment of either kind. */
  predicate Begins(s: string, c: nat) { c + 1 < |s| && s[c] == '/' && (s[c + 1] == '/' || s[c + 1] == '*') }

  /** Two texts alike up to `c`, where one has a comment, and the other one too or a line's end. */
  predicate Edited(a: string, b: string, c: nat) { Alike(a, b, c) && Begins(a, c) && (Begins(b, c) || Breaks(b, c)) }

  lemma {:induction false} HashesBefore(a: string, b: string, c: nat, i: nat)
    requires Edited(a, b, c) && i <= c
    ensures Hashes(a, i) == Hashes(b, i) <= c
    decreases c - i
  {
    if i < c && a[i] == '#' { HashesBefore(a, b, c, i + 1); }
  }

  lemma {:induction false} HexBefore(a: string, b: string, c: nat, i: nat)
    requires Edited(a, b, c) && i <= c
    ensures HexRun(a, i) == HexRun(b, i) <= c
    decreases c - i
  {
    if i < c && Hex(a[i]) { HexBefore(a, b, c, i + 1); }
  }

  lemma {:induction false} FindBefore(a: string, b: string, c: nat, s: string, i: nat)
    requires Alike(a, b, c) && Find(a, s, i).Some? && Find(a, s, i).value + |s| <= c
    ensures Find(b, s, i) == Find(a, s, i)
    decreases c - i
  {
    SpanAlike(a, b, c, i, i + |s|);
    if a[i..i + |s|] != s { FindBefore(a, b, c, s, i + 1); }
  }

  lemma SpanAlike(a: string, b: string, c: nat, i: nat, j: nat)
    requires Alike(a, b, c) && i <= j <= c
    ensures a[i..j] == b[i..j]
  {
  }

  lemma {:induction false} TextBefore(a: string, b: string, c: nat, j: nat)
    requires Alike(a, b, c) && c < |a| && TextEnd(a, j) <= c
    ensures TextEnd(b, j) == TextEnd(a, j)
    decreases c - j
  {
    if a[j] == '\\' { TextBefore(a, b, c, j + 2); } else if a[j] != '"' { TextBefore(a, b, c, j + 1); }
  }

  lemma {:induction false} BlockBefore(a: string, b: string, c: nat, j: nat, depth: nat)
    requires Edited(a, b, c) && j <= c && BlockEnd(a, j, depth) <= c
    ensures BlockEnd(b, j, depth) == BlockEnd(a, j, depth)
    decreases c - j
  {
    if depth > 0 && j < c {
      CloseBefore(a, b, c, j, depth);
      if StartsWith(a, j, "/*") {
        BlockBefore(a, b, c, j + 2, depth + 1);
      } else if StartsWith(a, j, "*/") {
        BlockBefore(a, b, c, j + 2, depth - 1);
      } else {
        BlockBefore(a, b, c, j + 1, depth);
      }
    }
  }

  lemma CloseBefore(a: string, b: string, c: nat, j: nat, depth: nat)
    requires Edited(a, b, c) && j < c && depth > 0 && BlockEnd(a, j, depth) <= c
    ensures StartsWith(a, j, "/*") == StartsWith(b, j, "/*") && (StartsWith(a, j, "/*") ==> j + 2 <= c)
    ensures StartsWith(a, j, "*/") == StartsWith(b, j, "*/") && (StartsWith(a, j, "*/") && !StartsWith(a, j, "/*") ==> j + 2 <= c)
  {
    PairAt(a, j);
    PairAt(b, j);
  }

  lemma {:induction false} LineBefore(a: string, b: string, c: nat, i: nat)
    requires Edited(a, b, c) && i <= c && LineEnd(a, i) <= c
    ensures LineEnd(b, i) == LineEnd(a, i)
    decreases c - i
  {
    if i < c && a[i] != '\n' { LineBefore(a, b, c, i + 1); }
  }

  lemma UnicodeBefore(a: string, b: string, c: nat, i: nat)
    requires Edited(a, b, c) && i + 3 < c && i + 3 < |a| && i + 3 < |b|
    ensures UnicodeEnd(a, i) == UnicodeEnd(b, i)
  {
    HexBefore(a, b, c, i + 4);
  }

  /** A newline put where the comment was makes a char literal only of a tick right before it and one
      right behind it. */
  predicate Closes(b: string, i: nat, c: nat) { i + 1 == c && c + 1 < |b| && b[c] == '\n' && b[c + 1] == '\'' }

  lemma CharBefore(a: string, b: string, c: nat, i: nat)
    requires Edited(a, b, c) && i < c && !Closes(b, i, c)
    requires CharEnd(a, i).Some? ==> CharEnd(a, i).value <= c
    ensures CharEnd(b, i) == CharEnd(a, i)
  {
    if i + 3 < c { UnicodeBefore(a, b, c, i); }
  }

  lemma RawBefore(cls: Classes, a: string, b: string, c: nat, i: nat)
    requires Edited(a, b, c) && i < c
    ensures RawOpen(cls, a, i) == RawOpen(cls, b, i)
    ensures RawOpen(cls, a, i).Some? ==> RawOpen(cls, a, i).value.1 < c
  {
    if a[i] == 'r' { HashesBefore(a, b, c, i + 1); } else if i + 2 <= c { HashesBefore(a, b, c, i + 2); }
  }

  lemma RawEndBefore(a: string, b: string, c: nat, p: nat, q: nat)
    requires Edited(a, b, c) && p <= q < c && RawEnd(a, p, q) <= c
    ensures RawEnd(b, p, q) == RawEnd(a, p, q)
  {
    SpanAlike(a, b, c, p, q);
    FindBefore(a, b, c, ['"'] + a[p..q], q + 1);
  }

  lemma LiteralBefore(cls: Classes, a: string, b: string, c: nat, i: nat)
    requires Edited(a, b, c) && i < c && ItemAt(cls, a, i).end <= c && !(a[i] == '\'' && Closes(b, i, c))
    ensures LiteralAt(cls, b, i) == LiteralAt(cls, a, i)
  {
    RawBefore(cls, a, b, c, i);
    var raw := RawOpen(cls, a, i);
    if raw.Some? {
      RawEndBefore(a, b, c, raw.value.0, raw.value.1);
    } else if a[i] == '"' {
      TextBefore(a, b, c, i + 1);
    } else if a[i] == '\'' {
      CharBefore(a, b, c, i);
    }
  }

  lemma ItemBefore(cls: Classes, a: string, b: string, c: nat, i: nat)
    requires Edited(a, b, c) && i < c && ItemAt(cls, a, i).end <= c && !(a[i] == '\'' && Closes(b, i, c))
    ensures ItemAt(cls, b, i) == ItemAt(cls, a, i)
  {
    LiteralBefore(cls, a, b, c, i);
    if LiteralAt(cls, a, i).None? {
      PairAt(a, i);
      PairAt(b, i);
      if StartsWith(a, i, "//") {
        LineBefore(a, b, c, i);
      } else if StartsWith(a, i, "/*") {
        BlockBefore(a, b, c, i + 2, 1);
      }
    }
  }

  // ---- what stands after it ------------------------------------------------------------------

  /** From `e` on the one text is the other one moved by `d`. */
  predicate Moved(a: string, b: string, e: nat, d: int) {
    e <= |a| && 0 <= e + d && |b| == |a| + d && forall k | e <= k < |a| :: a[k] == b[k + d]
  }

  /** Where the texts join again, what stands before them is the same, or a line's end follows. */
  predicate Seam(a: string, b: string, e: nat, d: int) {
    Breaks(a, e) || (0 < e <= |a| && 0 < e + d <= |b| && a[e - 1] == b[e - 1 + d])
  }

  lemma {:induction false} HashesAfter(a: string, b: string, e: nat, d: int, i: nat)
    requires Moved(a, b, e, d) && e <= i <= |a|
    ensures Hashes(b, i + d) == Hashes(a, i) + d
    decreases |a| - i
  {
    if i < |a| && a[i] == '#' { HashesAfter(a, b, e, d, i + 1); }
  }

  lemma {:induction false} HexAfter(a: string, b: string, e: nat, d: int, i: nat)
    requires Moved(a, b, e, d) && e <= i <= |a|
    ensures HexRun(b, i + d) == HexRun(a, i) + d
    decreases |a| - i
  {
    if i < |a| && Hex(a[i]) { HexAfter(a, b, e, d, i + 1); }
  }

  lemma SpanMoved(a: string, b: string, e: nat, d: int, i: nat, j: nat)
    requires Moved(a, b, e, d) && e <= i <= j <= |a|
    ensures a[i..j] == b[i + d..j + d]
  {
  }

  lemma {:induction false} FindAfter(a: string, b: string, e: nat, d: int, s: string, i: nat)
    requires Moved(a, b, e, d) && e <= i
    ensures Find(a, s, i).Some? <==> Find(b, s, i + d).Some?
    ensures Find(a, s, i).Some? ==> Find(b, s, i + d).value == Find(a, s, i).value + d
    decreases |a| - i
  {
    if i + |s| <= |a| {
      SpanMoved(a, b, e, d, i, i + |s|);
      if a[i..i + |s|] != s && i < |a| { FindAfter(a, b, e, d, s, i + 1); }
    }
  }

  lemma {:induction false} TextAfter(a: string, b: string, e: nat, d: int, j: nat)
    requires Moved(a, b, e, d) && e <= j
    ensures TextEnd(b, j + d) == TextEnd(a, j) + d
    decreases |a| - j
  {
    if j < |a| {
      if a[j] == '\\' { TextAfter(a, b, e, d, j + 2); } else if a[j] != '"' { TextAfter(a, b, e, d, j + 1); }
    }
  }

  lemma PairMoved(a: string, b: string, e: nat, d: int, j: nat)
    requires Moved(a, b, e, d) && e <= j < |a|
    ensures StartsWith(a, j, "//") == StartsWith(b, j + d, "//")
    ensures StartsWith(a, j, "/*") == StartsWith(b, j + d, "/*")
    ensures StartsWith(a, j, "*/") == StartsWith(b, j + d, "*/")
  {
    PairAt(a, j);
    PairAt(b, j + d);
  }

  ghost predicate PairsAreMoved(a: string, b: string, e: nat, d: int) {
    && e <= |a| && 0 <= e + d && |b| == |a| + d
    && forall j | e <= j < |a| :: StartsWith(a, j, "/*") == StartsWith(b, j + d, "/*") && StartsWith(a, j, "*/") == StartsWith(b, j + d, "*/")
  }

  lemma {:induction false} BlockMoved(a: string, b: string, e: nat, d: int, j: nat, depth: nat)
    requires PairsAreMoved(a, b, e, d) && e <= j <= |a|
    ensures BlockEnd(b, j + d, depth) == BlockEnd(a, j, depth) + d
    decreases |a| - j
  {
    if j < |a| && depth > 0 {
      if StartsWith(a, j, "/*") {
        BlockMoved(a, b, e, d, j + 2, depth + 1);
      } else if StartsWith(a, j, "*/") {
        BlockMoved(a, b, e, d, j + 2, depth - 1);
      } else {
        BlockMoved(a, b, e, d, j + 1, depth);
      }
    }
  }

  lemma BlockAfter(a: string, b: string, e: nat, d: int, j: nat, depth: nat)
    requires Moved(a, b, e, d) && e <= j <= |a|
    ensures BlockEnd(b, j + d, depth) == BlockEnd(a, j, depth) + d
  {
    forall i: nat | e <= i < |a|
      ensures StartsWith(a, i, "/*") == StartsWith(b, i + d, "/*") && StartsWith(a, i, "*/") == StartsWith(b, i + d, "*/")
    {
      PairMoved(a, b, e, d, i);
    }
    BlockMoved(a, b, e, d, j, depth);
  }

  lemma {:induction false} LineAfter(a: string, b: string, e: nat, d: int, i: nat)
    requires Moved(a, b, e, d) && e <= i <= |a|
    ensures LineEnd(b, i + d) == LineEnd(a, i) + d
    decreases |a| - i
  {
    if i < |a| && a[i] != '\n' { LineAfter(a, b, e, d, i + 1); }
  }

  lemma CharAfter(a: string, b: string, e: nat, d: int, i: nat)
    requires Moved(a, b, e, d) && e <= i < |a|
    ensures CharEnd(a, i).Some? <==> CharEnd(b, i + d).Some?
    ensures CharEnd(a, i).Some? ==> CharEnd(b, i + d).value == CharEnd(a, i).value + d
  {
    if i + 3 < |a| { UnicodeAfter(a, b, e, d, i); }
  }

  lemma UnicodeAfter(a: string, b: string, e: nat, d: int, i: nat)
    requires Moved(a, b, e, d) && e <= i && i + 3 < |a|
    ensures UnicodeEnd(a, i).Some? <==> UnicodeEnd(b, i + d).Some?
    ensures UnicodeEnd(a, i).Some? ==> UnicodeEnd(b, i + d).value == UnicodeEnd(a, i).value + d
  {
    if i + 4 <= |a| { HexAfter(a, b, e, d, i + 4); }
  }

  lemma RawAfter(cls: Classes, a: string, b: string, e: nat, d: int, i: nat)
    requires Moved(a, b, e, d) && e <= i < |a| && 0 < i && 0 < i + d && a[i - 1] == b[i - 1 + d]
    ensures RawOpen(cls, a, i).Some? <==> RawOpen(cls, b, i + d).Some?
    ensures var p, q := RawOpen(cls, a, i), RawOpen(cls, b, i + d);
            p.Some? ==> q.value == (p.value.0 + d, p.value.1 + d)
  {
    if a[i] == 'r' { HashesAfter(a, b, e, d, i + 1); } else if i + 2 <= |a| { HashesAfter(a, b, e, d, i + 2); }
  }

  lemma RawEndAfter(a: string, b: string, e: nat, d: int, p: nat, q: nat)
    requires Moved(a, b, e, d) && e <= p <= q < |a|
    ensures RawEnd(b, p + d, q + d) == RawEnd(a, p, q) + d
  {
    SpanMoved(a, b, e, d, p, q);
    FindAfter(a, b, e, d, ['"'] + a[p..q], q + 1);
  }

  function Shift(item: Item, d: int): Item
    requires 0 <= item.start + d && 0 <= item.end + d
  {
    Item(item.kind, item.start + d, item.end + d)
  }

  lemma RawEndsAfter(a: string, b: string, e: nat, d: int, p: (nat, nat), q: (nat, nat))
    requires Moved(a, b, e, d) && e <= p.0 <= p.1 < |a| && q.0 == p.0 + d && q.1 == p.1 + d
    ensures RawEnd(b, q.0, q.1) == RawEnd(a, p.0, p.1) + d
  {
    RawEndAfter(a, b, e, d, p.0, p.1);
  }

  lemma RawsAfter(cls: Classes, a: string, b: string, e: nat, d: int, i: nat)
    requires Moved(a, b, e, d) && e <= i < |a| && 0 < i && 0 < i + d && a[i - 1] == b[i - 1 + d]
    ensures RawOpen(cls, a, i).Some? <==> RawOpen(cls, b, i + d).Some?
    ensures var p, q := RawOpen(cls, a, i), RawOpen(cls, b, i + d);
            p.Some? ==> RawEnd(b, q.value.0, q.value.1) == RawEnd(a, p.value.0, p.value.1) + d
  {
    RawAfter(cls, a, b, e, d, i);
    var p, q := RawOpen(cls, a, i), RawOpen(cls, b, i + d);
    if p.Some? { RawEndsAfter(a, b, e, d, p.value, q.value); }
  }

  /** Two places with the same literal openings, by what each opening's end is. */
  lemma LiteralsAgree(cls: Classes, a: string, b: string, i: nat, j: nat, d: int)
    requires i < |a| && j < |b| && j == i + d && a[i] == b[j]
    requires RawOpen(cls, a, i).Some? <==> RawOpen(cls, b, j).Some?
    requires var p, q := RawOpen(cls, a, i), RawOpen(cls, b, j);
             p.Some? ==> RawEnd(b, q.value.0, q.value.1) == RawEnd(a, p.value.0, p.value.1) + d
    requires a[i] == '"' ==> TextEnd(b, j + 1) == TextEnd(a, i + 1) + d
    requires a[i] == '\'' ==> (CharEnd(a, i).Some? <==> CharEnd(b, j).Some?)
    requires a[i] == '\'' && CharEnd(a, i).Some? ==> CharEnd(b, j).value == CharEnd(a, i).value + d
    ensures LiteralAt(cls, a, i).Some? <==> LiteralAt(cls, b, j).Some?
    ensures LiteralAt(cls, a, i).Some? ==> LiteralAt(cls, b, j).value == Shift(LiteralAt(cls, a, i).value, d)
  {
  }

  lemma LiteralAfter(cls: Classes, a: string, b: string, e: nat, d: int, i: nat)
    requires Moved(a, b, e, d) && e <= i < |a| && Seam(a, b, e, d)
    ensures LiteralAt(cls, a, i).Some? <==> LiteralAt(cls, b, i + d).Some?
    ensures LiteralAt(cls, a, i).Some? ==> LiteralAt(cls, b, i + d).value == Shift(LiteralAt(cls, a, i).value, d)
  {
    if i > e || !Breaks(a, e) {
      RawsAfter(cls, a, b, e, d, i);
      TextAfter(a, b, e, d, i + 1);
      CharAfter(a, b, e, d, i);
      LiteralsAgree(cls, a, b, i, i + d, d);
    }
  }

  lemma ItemAfter(cls: Classes, a: string, b: string, e: nat, d: int, i: nat)
    requires Moved(a, b, e, d) && e <= i < |a| && Seam(a, b, e, d)
    ensures ItemAt(cls, b, i + d) == Shift(ItemAt(cls, a, i), d)
  {
    LiteralAfter(cls, a, b, e, d, i);
    if LiteralAt(cls, a, i).None? {
      PairMoved(a, b, e, d, i);
      if StartsWith(a, i, "//") {
        LineAfter(a, b, e, d, i);
      } else if StartsWith(a, i, "/*") {
        BlockAfter(a, b, e, d, i + 2, 1);
      }
    }
  }

  /** The scan of a source as a walk. */
  function Scan(cls: Classes, src: string): Walk<Mark> {
    (i: nat) => if i < |src| then Step(ItemAt(cls, src, i).end, MarkOf(src, ItemAt(cls, src, i))) else Step(i, [])
  }

  function Reading(cls: Classes, src: string, i: nat): seq<Mark> { Run(Scan(cls, src), |src|, i) }

  lemma {:induction false} ReadingIs(cls: Classes, src: string, i: nat)
    ensures Marks(src, Items(cls, src, i)) == Reading(cls, src, i)
    decreases |src| - i
  {
    if i < |src| {
      var item := ItemAt(cls, src, i);
      ReadingIs(cls, src, item.end);
      OneMark(src, item, Items(cls, src, item.end));
    }
  }

  lemma MarkMoved(a: string, b: string, e: nat, d: int, item: Item)
    requires Moved(a, b, e, d) && e <= item.start < |a| && item.start < item.end
    ensures MarkOf(b, Shift(item, d)) == MarkOf(a, item)
  {
    SpanMoved(a, b, e, d, item.start, Clamp(a, item.end));
  }

  lemma StepIs(cls: Classes, src: string, j: nat)
    requires j < |src|
    ensures Scan(cls, src)(j) == Step(ItemAt(cls, src, j).end, MarkOf(src, ItemAt(cls, src, j)))
  {
  }

  lemma StepAfter(cls: Classes, a: string, b: string, e: nat, d: int, j: nat)
    requires Moved(a, b, e, d) && e <= j < |a| && Seam(a, b, e, d)
    ensures Scan(cls, a)(j).end > j && Scan(cls, b)(j + d) == Step(Scan(cls, a)(j).end + d, Scan(cls, a)(j).marks)
  {
    StepIs(cls, a, j);
    StepIs(cls, b, j + d);
    ItemAfter(cls, a, b, e, d, j);
    MarkMoved(a, b, e, d, ItemAt(cls, a, j));
  }

  lemma ReadingAfter(cls: Classes, a: string, b: string, e: nat, d: int)
    requires Moved(a, b, e, d) && Seam(a, b, e, d)
    ensures Reading(cls, b, e + d) == Reading(cls, a, e)
  {
    var at, at' := Scan(cls, a), Scan(cls, b);
    forall j: nat | e <= j < |a| ensures at(j).end > j && at'(j + d) == Step(at(j).end + d, at(j).marks) {
      StepAfter(cls, a, b, e, d, j);
    }
    RunMoved(at, |a|, at', |b|, e, d, e);
  }

  lemma ReadingAt(cls: Classes, a: string, b: string, e: nat, f: nat)
    requires Moved(a, b, e, f - e) && Seam(a, b, e, f - e)
    ensures Reading(cls, b, f) == Reading(cls, a, e)
  {
    ReadingAfter(cls, a, b, e, f - e);
  }

  // ---- the edit ------------------------------------------------------------------------------

  /** A text that is one line comment. */
  predicate LineText(text: string) { Opens(text, 0) && forall k | 0 <= k < |text| :: text[k] != '\n' }

  /** The source with `text` in the place of an item. */
  function Replaced(src: string, item: Item, text: string): string
    requires item.start <= item.end <= |src|
  {
    src[..item.start] + text + src[item.end..]
  }

  lemma {:induction false} LineTextEnds(b: string, c: nat, i: nat, end: nat)
    requires c <= i <= end && Breaks(b, end) && forall k | c <= k < end :: k < |b| && b[k] != '\n'
    ensures LineEnd(b, i) == end
    decreases end - i
  {
    if i < end { LineTextEnds(b, c, i + 1, end); }
  }

  lemma LineTextReads(cls: Classes, b: string, c: nat, end: nat)
    requires LineStandsAt(b, c, end)
    ensures ItemAt(cls, b, c) == Item(LineComment, c, end)
  {
    PairAt(b, c);
    LineTextEnds(b, c, c, end);
  }

  lemma LineIsUnread(cls: Classes, b: string, c: nat, end: nat)
    requires c < |b| && ItemAt(cls, b, c) == Item(LineComment, c, end)
    ensures Reading(cls, b, c) == Reading(cls, b, end)
  {
    RunOn(Scan(cls, b), |b|, c, Step(end, []));
    NoneBefore([], Reading(cls, b, end));
  }

  lemma RunOn<T>(at: Walk<T>, n: nat, i: nat, step: Step<T>)
    requires i < n && at(i) == step && i < step.end
    ensures Run(at, n, i) == step.marks + Run(at, n, step.end)
  {
  }

  /** `text` is where the item was, nothing or a line comment, and the rest is moved. */
  ghost predicate Edit(src: string, b: string, item: Item, n: nat) {
    && item.start <= item.end <= |src| && Opens(src, item.start) && Breaks(src, item.end)
    && Alike(src, b, item.start) && Moved(src, b, item.end, item.start + n - item.end)
    && (n > 0 ==> LineStandsAt(b, item.start, item.start + n))
  }

  predicate LineStandsAt(b: string, c: nat, end: nat) {
    Opens(b, c) && c + 2 <= end && Breaks(b, end) && forall k | c <= k < end :: k < |b| && b[k] != '\n'
  }

  lemma ReplacedIs(src: string, item: Item, text: string)
    requires item.start <= item.end <= |src| && Breaks(src, item.end)
    requires Opens(src, item.start) && (text == [] || LineText(text))
    ensures Edit(src, Replaced(src, item, text), item, |text|)
  {
    var b, c := Replaced(src, item, text), item.start;
    ReplacedParts(src, item, text);
    if text != [] {
      assert forall k | c <= k < c + |text| :: b[k] == text[k - c];
      assert b[c] == text[0] && b[c + 1] == text[1];
      if item.end < |src| { assert b[c + |text|] == src[item.end]; }
    }
  }

  lemma EditIsEdited(src: string, b: string, item: Item, n: nat)
    requires Edit(src, b, item, n)
    ensures Edited(src, b, item.start)
  {
    if n == 0 && item.end < |src| { assert src[item.end] == b[item.start]; }
  }

  lemma LineIsPassed(cls: Classes, b: string, c: nat, end: nat)
    requires LineStandsAt(b, c, end)
    ensures Reading(cls, b, c) == Reading(cls, b, end)
  {
    LineTextReads(cls, b, c, end);
    LineIsUnread(cls, b, c, end);
  }

  lemma ReadAgain(cls: Classes, src: string, b: string, item: Item, n: nat)
    requires Edit(src, b, item, n)
    ensures Reading(cls, b, item.start + n) == Reading(cls, src, item.end)
  {
    ReadingAt(cls, src, b, item.end, item.start + n);
  }

  /** The edited text's reading at the edit: nothing, or a line comment, and then the rest. */
  lemma ReadingFrom(cls: Classes, src: string, b: string, item: Item, n: nat)
    requires Edit(src, b, item, n)
    ensures Reading(cls, b, item.start) == Reading(cls, src, item.end)
  {
    if n == 0 {
      ReadAgain(cls, src, b, item, 0);
    } else {
      WrittenIsPassed(cls, src, b, item, n);
      ReadAgain(cls, src, b, item, n);
    }
  }

  lemma WrittenIsPassed(cls: Classes, src: string, b: string, item: Item, n: nat)
    requires Edit(src, b, item, n) && n > 0
    ensures Reading(cls, b, item.start) == Reading(cls, b, item.start + n)
  {
    LineIsPassed(cls, b, item.start, item.start + n);
  }

  lemma LineStands(cls: Classes, src: string, item: Item)
    requires item.start < |src| && item == ItemAt(cls, src, item.start) && item.kind.LineComment?
    ensures Opens(src, item.start) && item.start <= item.end <= |src| && Breaks(src, item.end)
  {
    PairAt(src, item.start);
    LineEndIsNewline(src, item.start);
  }

  lemma {:induction false} StartsFrom(cls: Classes, src: string, i: nat, k: nat)
    requires k < |Items(cls, src, i)|
    ensures i <= Items(cls, src, i)[k].start < |src| && Items(cls, src, i)[k] == ItemAt(cls, src, Items(cls, src, i)[k].start)
    decreases |src| - i
  {
    if k > 0 {
      var end := ItemAt(cls, src, i).end;
      assert Items(cls, src, i)[k] == Items(cls, src, end)[k - 1];
      StartsFrom(cls, src, end, k - 1);
    }
  }

  lemma TickIsPlain(cls: Classes, src: string, i: nat)
    requires i < |src| && src[i] == '\'' && Begins(src, i + 1)
    ensures ItemAt(cls, src, i) == Item(Plain, i, i + 1)
  {
    PairAt(src, i);
  }

  /** From the start on, item by item, one comes to `stop`. */
  predicate Boundary(cls: Classes, src: string, stop: nat) { Reaches(Scan(cls, src), |src|, 0, stop) }

  lemma {:induction false} BoundaryIsItem(cls: Classes, src: string, i: nat, stop: nat)
    requires stop < |src|
    ensures Reaches(Scan(cls, src), |src|, i, stop) <==> ItemAt(cls, src, stop) in Items(cls, src, i)
    decreases |src| - i
  {
    if i < |src| {
      var item := ItemAt(cls, src, i);
      BoundaryIsItem(cls, src, item.end, stop);
      FirstOrLater(item, Items(cls, src, item.end), ItemAt(cls, src, stop));
      ReachesOn(Scan(cls, src), |src|, i, item.end, stop);
    }
  }

  lemma ReachesOn<T>(at: Walk<T>, n: nat, i: nat, next: nat, stop: nat)
    requires i < n && next == at(i).end > i
    ensures Reaches(at, n, i, stop) <==> i == stop || Reaches(at, n, next, stop)
  {
    if Reaches(at, n, next, stop) { assert next <= stop; }
  }

  lemma FirstOrLater(first: Item, rest: seq<Item>, item: Item)
    ensures item in [first] + rest <==> item == first || item in rest
  {
  }

  /** Before the edit both texts read alike, unless the edit closes a literal there. */
  lemma ReadingBefore(cls: Classes, a: string, b: string, c: nat, stop: nat)
    requires Edited(a, b, c) && Boundary(cls, a, stop) && stop <= c
    requires stop == c && c > 0 && a[c - 1] == '\'' && Closes(b, c - 1, c) ==> !Boundary(cls, a, c - 1)
    ensures Reading(cls, a, 0) == Between(Scan(cls, a), |a|, 0, stop) + Reading(cls, a, stop)
    ensures Reading(cls, b, 0) == Between(Scan(cls, a), |a|, 0, stop) + Reading(cls, b, stop)
  {
    forall j: nat | Reaches(Scan(cls, a), |a|, 0, j) && j < stop ensures Scan(cls, b)(j) == Scan(cls, a)(j) {
      EndsBy(Scan(cls, a), |a|, 0, j, stop);
      StepBefore(cls, a, b, c, j);
    }
    RunSplits(Scan(cls, a), |a|, 0, stop);
    RunAlike(Scan(cls, a), |a|, Scan(cls, b), |b|, 0, stop);
  }

  lemma StepBefore(cls: Classes, a: string, b: string, c: nat, i: nat)
    requires Edited(a, b, c) && i < c && ItemAt(cls, a, i).end <= c && !(a[i] == '\'' && Closes(b, i, c))
    ensures Scan(cls, b)(i) == Scan(cls, a)(i)
  {
    ItemBefore(cls, a, b, c, i);
    SpanAlike(a, b, c, i, ItemAt(cls, a, i).end);
  }

  /** A lone tick right before the comment, and behind it a newline and a tick: with the comment gone
      the three are a char literal. */
  predicate Completed(cls: Classes, src: string, item: Item) {
    && 0 < item.start <= |src| && src[item.start - 1] == '\'' && Item(Plain, item.start - 1, item.start) in Items(cls, src, 0)
    && item.end + 1 < |src| && src[item.end + 1] == '\''
  }

  lemma TickIsItem(cls: Classes, src: string, c: nat)
    requires 0 < c <= |src| && src[c - 1] == '\'' && Begins(src, c) && Boundary(cls, src, c - 1)
    ensures Item(Plain, c - 1, c) in Items(cls, src, 0)
  {
    TickIsPlain(cls, src, c - 1);
    BoundaryIsItem(cls, src, 0, c - 1);
  }

  lemma TickFollows(src: string, b: string, item: Item, n: nat)
    requires Edit(src, b, item, n) && 0 < item.start && Closes(b, item.start - 1, item.start)
    ensures n == 0 && item.end + 1 < |src| && src[item.end + 1] == '\''
  {
    assert n == 0 ==> b[item.start + 1] == src[item.end + 1];
  }

  lemma EditIsClosed(cls: Classes, src: string, b: string, item: Item, n: nat)
    requires Edit(src, b, item, n) && item.start > 0 && src[item.start - 1] == '\'' && Closes(b, item.start - 1, item.start)
    requires Boundary(cls, src, item.start - 1)
    ensures n == 0 && Completed(cls, src, item)
  {
    TickIsItem(cls, src, item.start);
    TickFollows(src, b, item, n);
  }

  lemma EditKeepsReading(cls: Classes, src: string, b: string, item: Item, n: nat)
    requires Edit(src, b, item, n) && (n == 0 ==> !Completed(cls, src, item))
    requires Boundary(cls, src, item.start) && ItemAt(cls, src, item.start) == item && item.kind.LineComment?
    ensures Reading(cls, b, 0) == Reading(cls, src, 0)
  {
    var c := item.start;
    EditIsEdited(src, b, item, n);
    if c > 0 && src[c - 1] == '\'' && Closes(b, c - 1, c) && Boundary(cls, src, c - 1) { EditIsClosed(cls, src, b, item, n); }
    ReadingBefore(cls, src, b, c, c);
    ReadingFrom(cls, src, b, item, n);
    LineIsUnread(cls, src, c, item.end);
  }

  lemma SameReadingPasses(cls: Classes, a: string, b: string)
    requires Reading(cls, a, 0) == Reading(cls, b, 0)
    ensures GistOf(cls, a) == GistOf(cls, b) && ResidueOf(cls, a) == ResidueOf(cls, b)
  {
    ReadingIs(cls, a, 0);
    ReadingIs(cls, b, 0);
    CommentOnlyEditsPass(cls, a, b);
  }

  lemma CommentStands(cls: Classes, src: string, k: nat)
    requires k < |Items(cls, src, 0)| && Items(cls, src, 0)[k].kind.LineComment?
    ensures var item := Items(cls, src, 0)[k];
            && Opens(src, item.start) && item.start <= item.end <= |src| && Breaks(src, item.end)
            && item == ItemAt(cls, src, item.start) && Boundary(cls, src, item.start)
  {
    StartsFrom(cls, src, 0, k);
    LineStands(cls, src, Items(cls, src, 0)[k]);
    BoundaryIsItem(cls, src, 0, Items(cls, src, 0)[k].start);
  }

  /** Rewriting a line comment leaves the residue alone, and so does deleting one, but for that case. */
  lemma LineCommentEdited(cls: Classes, src: string, k: nat, text: string)
    requires k < |Items(cls, src, 0)| && Items(cls, src, 0)[k].kind.LineComment?
    requires LineText(text) || (text == [] && !Completed(cls, src, Items(cls, src, 0)[k]))
    ensures var item := Items(cls, src, 0)[k];
            && item.start <= item.end <= |src|
            && GistOf(cls, Replaced(src, item, text)) == GistOf(cls, src)
            && ResidueOf(cls, Replaced(src, item, text)) == ResidueOf(cls, src)
  {
    CommentStands(cls, src, k);
    var item := Items(cls, src, 0)[k];
    ReplacedIs(src, item, text);
    EditKeepsReading(cls, src, Replaced(src, item, text), item, |text|);
    SameReadingPasses(cls, Replaced(src, item, text), src);
  }

  // Block comments.

  /** A text that is one block comment, closed. */
  predicate BlockText(text: string) { StartsWith(text, 0, "/*") && BlockEnd(text + [' '], 2, 1) == |text| }

  lemma {:induction false} BlockSlash(s: string, j: nat, depth: nat)
    requires j <= |s| && depth > 0 && BlockEnd(s, j, depth) < |s|
    ensures j + 2 <= BlockEnd(s, j, depth) && s[BlockEnd(s, j, depth) - 1] == '/'
    decreases |s| - j
  {
    PairAt(s, j);
    if StartsWith(s, j, "/*") {
      BlockSlash(s, j + 2, depth + 1);
    } else if StartsWith(s, j, "*/") {
      if depth > 1 { BlockSlash(s, j + 2, depth - 1); }
    } else {
      BlockSlash(s, j + 1, depth);
    }
  }

  /** `b` has, from `c` on, what `s` has up to `end`. */
  predicate Stands(s: string, b: string, c: nat, end: nat) { end <= |s| && c + end <= |b| && forall k | 0 <= k < end :: s[k] == b[c + k] }

  lemma PairInside(s: string, b: string, c: nat, end: nat, j: nat)
    requires Stands(s, b, c, end) && j + 2 <= end
    ensures StartsWith(s, j, "/*") == StartsWith(b, c + j, "/*") && StartsWith(s, j, "*/") == StartsWith(b, c + j, "*/")
  {
    PairAt(s, j);
    PairAt(b, c + j);
  }

  ghost predicate PairsStand(s: string, b: string, c: nat, end: nat) {
    && end < |s| && c + end <= |b|
    && forall j: nat | j + 2 <= end :: StartsWith(s, j, "/*") == StartsWith(b, c + j, "/*") && StartsWith(s, j, "*/") == StartsWith(b, c + j, "*/")
  }

  lemma {:induction false} BlockInside(s: string, b: string, c: nat, j: nat, depth: nat, end: nat)
    requires j <= |s| && BlockEnd(s, j, depth) == end && PairsStand(s, b, c, end)
    ensures BlockEnd(b, c + j, depth) == c + end
    decreases |s| - j
  {
    if depth > 0 {
      BlockSlash(s, j, depth);
      if StartsWith(s, j, "/*") {
        BlockInside(s, b, c, j + 2, depth + 1, end);
      } else if StartsWith(s, j, "*/") {
        BlockInside(s, b, c, j + 2, depth - 1, end);
      } else {
        BlockInside(s, b, c, j + 1, depth, end);
      }
    }
  }

  /** A block comment from `c` to `end`. */
  predicate BlockStandsAt(b: string, c: nat, end: nat) { c + 2 <= |b| && b[c] == '/' && b[c + 1] == '*' && BlockEnd(b, c + 2, 1) == end }

  lemma BlockTextEnds(text: string)
    requires BlockText(text)
    ensures 4 <= |text| && text[0] == '/' && text[1] == '*' && text[|text| - 1] == '/'
  {
    BlockSlash(text + [' '], 2, 1);
    PairAt(text, 0);
  }

  lemma BlockTextPairs(text: string, b: string, c: nat)
    requires Stands(text, b, c, |text|)
    ensures PairsStand(text + [' '], b, c, |text|)
  {
    forall j: nat | j + 2 <= |text|
      ensures StartsWith(text + [' '], j, "/*") == StartsWith(b, c + j, "/*") && StartsWith(text + [' '], j, "*/") == StartsWith(b, c + j, "*/")
    {
      PairInside(text + [' '], b, c, |text|, j);
    }
  }

  lemma BlockTextStands(text: string, b: string, c: nat)
    requires BlockText(text) && Stands(text, b, c, |text|)
    ensures 4 <= |text| && BlockStandsAt(b, c, c + |text|) && b[c + |text| - 1] == '/'
  {
    BlockTextEnds(text);
    BlockTextPairs(text, b, c);
    BlockInside(text + [' '], b, c, 2, 1, |text|);
    assert text[0] == b[c + 0] && text[1] == b[c + 1] && text[|text| - 1] == b[c + (|text| - 1)];
  }

  lemma BlockIsItem(cls: Classes, b: string, c: nat, end: nat)
    requires BlockStandsAt(b, c, end)
    ensures ItemAt(cls, b, c) == Item(BlockComment, c, end)
  {
    PairAt(b, c);
  }

  lemma BlockReads(cls: Classes, b: string, c: nat, end: nat)
    requires BlockStandsAt(b, c, end)
    ensures Reading(cls, b, c) == [Gap] + Reading(cls, b, end)
  {
    BlockIsItem(cls, b, c, end);
    RunOn(Scan(cls, b), |b|, c, Step(end, [Gap]));
  }

  /** The item's text exchanged for another of length `n`, and the rest moved. */
  ghost predicate Exchanged(src: string, b: string, item: Item, n: nat) {
    && item.start <= item.end <= |src| && Alike(src, b, item.start)
    && Moved(src, b, item.end, item.start + n - item.end) && Seam(src, b, item.end, item.start + n - item.end)
  }

  lemma ReplacedParts(src: string, item: Item, text: string)
    requires item.start <= item.end <= |src|
    ensures var b := Replaced(src, item, text);
            Alike(src, b, item.start) && Moved(src, b, item.end, item.start + |text| - item.end) && Stands(text, b, item.start, |text|)
  {
    assert forall k | item.end <= k < |src| :: src[k] == src[item.end..][k - item.end];
  }

  lemma BlocksMeet(src: string, b: string, item: Item, n: nat)
    requires item.start <= item.end <= |src| && 0 < n && item.start + n <= |b|
    requires BlockStandsAt(src, item.start, item.end) && b[item.start + n - 1] == '/'
    ensures Seam(src, b, item.end, item.start + n - item.end)
  {
    if item.end < |src| { BlockSlash(src, item.start + 2, 1); }
  }

  lemma BlockReplacedIs(src: string, item: Item, text: string)
    requires item.start <= item.end <= |src| && BlockStandsAt(src, item.start, item.end) && BlockText(text)
    ensures var b := Replaced(src, item, text);
            Exchanged(src, b, item, |text|) && BlockStandsAt(b, item.start, item.start + |text|)
  {
    ReplacedParts(src, item, text);
    BlockTextStands(text, Replaced(src, item, text), item.start);
    BlocksMeet(src, Replaced(src, item, text), item, |text|);
  }

  lemma BlocksAreEdited(src: string, b: string, item: Item, n: nat)
    requires Exchanged(src, b, item, n) && BlockStandsAt(src, item.start, item.end) && BlockStandsAt(b, item.start, item.start + n)
    ensures Edited(src, b, item.start) && Begins(b, item.start)
  {
  }

  lemma SameFromThere(cls: Classes, src: string, b: string, c: nat)
    requires Edited(src, b, c) && Begins(b, c) && Boundary(cls, src, c) && Reading(cls, b, c) == Reading(cls, src, c)
    ensures Reading(cls, b, 0) == Reading(cls, src, 0)
  {
    ReadingBefore(cls, src, b, c, c);
  }

  lemma ExchangedReads(cls: Classes, src: string, b: string, item: Item, n: nat)
    requires Exchanged(src, b, item, n)
    ensures Reading(cls, b, item.start + n) == Reading(cls, src, item.end)
  {
    ReadingAt(cls, src, b, item.end, item.start + n);
  }

  lemma BlockReadAt(cls: Classes, src: string, b: string, c: nat, e: nat, f: nat)
    requires BlockStandsAt(src, c, e) && BlockStandsAt(b, c, f) && Reading(cls, b, f) == Reading(cls, src, e)
    ensures Reading(cls, b, c) == Reading(cls, src, c)
  {
    BlockReads(cls, src, c, e);
    BlockReads(cls, b, c, f);
  }

  lemma BlockReadOn(cls: Classes, src: string, b: string, item: Item, n: nat)
    requires Exchanged(src, b, item, n) && BlockStandsAt(src, item.start, item.end) && BlockStandsAt(b, item.start, item.start + n)
    ensures Reading(cls, b, item.start) == Reading(cls, src, item.start)
  {
    ExchangedReads(cls, src, b, item, n);
    BlockReadAt(cls, src, b, item.start, item.end, item.start + n);
  }

  lemma BlockEditKeepsReading(cls: Classes, src: string, b: string, item: Item, n: nat)
    requires Exchanged(src, b, item, n) && Boundary(cls, src, item.start)
    requires BlockStandsAt(src, item.start, item.end) && BlockStandsAt(b, item.start, item.start + n)
    ensures Reading(cls, b, 0) == Reading(cls, src, 0)
  {
    BlockReadOn(cls, src, b, item, n);
    BlocksAreEdited(src, b, item, n);
    SameFromThere(cls, src, b, item.start);
  }

  lemma BlockItemStands(cls: Classes, src: string, i: nat)
    requires i < |src| && ItemAt(cls, src, i).kind.BlockComment?
    ensures i <= ItemAt(cls, src, i).end <= |src| && BlockStandsAt(src, i, ItemAt(cls, src, i).end)
  {
    PairAt(src, i);
  }

  lemma BlockStands(cls: Classes, src: string, k: nat)
    requires k < |Items(cls, src, 0)| && Items(cls, src, 0)[k].kind.BlockComment?
    ensures var item := Items(cls, src, 0)[k];
            item.start <= item.end <= |src| && BlockStandsAt(src, item.start, item.end) && Boundary(cls, src, item.start)
  {
    StartsFrom(cls, src, 0, k);
    BlockItemStands(cls, src, Items(cls, src, 0)[k].start);
    BoundaryIsItem(cls, src, 0, Items(cls, src, 0)[k].start);
  }

  /** Rewriting a block comment as another leaves the residue alone, whatever stands around it. */
  lemma BlockCommentEdited(cls: Classes, src: string, k: nat, text: string)
    requires k < |Items(cls, src, 0)| && Items(cls, src, 0)[k].kind.BlockComment? && BlockText(text)
    ensures var item := Items(cls, src, 0)[k];
            && item.start <= item.end <= |src|
            && GistOf(cls, Replaced(src, item, text)) == GistOf(cls, src)
            && ResidueOf(cls, Replaced(src, item, text)) == ResidueOf(cls, src)
  {
    BlockStands(cls, src, k);
    var item := Items(cls, src, 0)[k];
    BlockReplacedIs(src, item, text);
    BlockEditKeepsReading(cls, src, Replaced(src, item, text), item, |text|);
    SameReadingPasses(cls, Replaced(src, item, text), src);
  }

  // ---- the case it does not pass -------------------------------------------------------------

  /** How much of a text is not whitespace: what flushing keeps. */
  function Ink(cls: Classes, s: string): nat { if s == "" then 0 else (if cls.space(s[0]) then 0 else 1) + Ink(cls, s[1..]) }

  lemma {:induction false} InkJoins(cls: Classes, s: string, t: string)
    ensures Ink(cls, s + t) == Ink(cls, s) + Ink(cls, t)
    decreases |s|
  {
    if s == "" {
      assert s + t == t;
    } else {
      InkJoins(cls, s[1..], t);
      assert (s + t)[1..] == s[1..] + t;
    }
  }

  lemma InkOf(cls: Classes, c: char)
    ensures Ink(cls, [c]) == if cls.space(c) then 0 else 1
  {
    assert [c][1..] == "";
  }

  lemma {:induction false} InkOfLStrip(cls: Classes, s: string)
    ensures Ink(cls, LStrip(cls, s)) == Ink(cls, s)
    decreases |s|
  {
    if s != "" && cls.space(s[0]) { InkOfLStrip(cls, s[1..]); }
  }

  lemma {:induction false} InkOfRStrip(cls: Classes, s: string)
    ensures Ink(cls, RStrip(cls, s)) == Ink(cls, s)
    decreases |s|
  {
    if s != "" && cls.space(s[|s| - 1]) {
      var init, last := s[..|s| - 1], s[|s| - 1];
      InkOfRStrip(cls, init);
      InkJoins(cls, init, [last]);
      InkOf(cls, last);
      assert s == init + [last];
    }
  }

  lemma {:induction false} InkOfCollapse(cls: Classes, s: string)
    requires cls.space(' ')
    ensures Ink(cls, Collapse(cls, s)) == Ink(cls, s)
    decreases |s|
  {
    if s != "" {
      if cls.space(s[0]) {
        var rest := Collapse(cls, LStrip(cls, s[1..]));
        InkOfLStrip(cls, s[1..]);
        InkOfCollapse(cls, LStrip(cls, s[1..]));
        InkJoins(cls, " ", rest);
        InkOf(cls, ' ');
      } else {
        InkOfCollapse(cls, s[1..]);
        InkJoins(cls, [s[0]], Collapse(cls, s[1..]));
        InkOf(cls, s[0]);
      }
    }
  }

  lemma InkOfFlushed(cls: Classes, code: string)
    requires cls.space(' ')
    ensures Ink(cls, Flushed(cls, code)) == Ink(cls, code)
  {
    var collapsed := Collapse(cls, code);
    var s := Strip(cls, collapsed);
    InkOfCollapse(cls, code);
    InkOfRStrip(cls, collapsed);
    InkOfLStrip(cls, RStrip(cls, collapsed));
    InkJoins(cls, s, " ");
    InkOf(cls, ' ');
  }

  /** What later marks do to a gist: its parts stay, and its open code is in the next one. */
  predicate Continues(cls: Classes, g: Gist, h: Gist) {
    && |g.parts| <= |h.parts| && h.parts[..|g.parts|] == g.parts
    && Ink(cls, g.rest) <= Ink(cls, if |h.parts| == |g.parts| then h.rest else h.parts[|g.parts|].code)
  }

  lemma TakeContinues(cls: Classes, g: Gist, h: Gist, mark: Mark)
    requires cls.space(' ') && Continues(cls, g, h)
    ensures Continues(cls, g, Take(cls, h, mark))
  {
    match mark
    case Gap => InkJoins(cls, h.rest, " ");
    case Code(text) => InkJoins(cls, h.rest, text);
    case Literal(text) => InkOfFlushed(cls, h.rest);
  }

  lemma {:induction false} GatherContinues(cls: Classes, x: seq<Mark>, y: seq<Mark>)
    requires cls.space(' ')
    ensures Continues(cls, Gather(cls, x), Gather(cls, x + y))
    decreases |y|
  {
    if y == [] {
      assert x + y == x;
    } else {
      var init, last := y[..|y| - 1], y[|y| - 1];
      GatherContinues(cls, x, init);
      GatherMore(cls, x + init, [last]);
      assert x + y == (x + init) + [last];
      TakeContinues(cls, Gather(cls, x), Gather(cls, x + init), last);
    }
  }

  /** After the same marks, a tick in the code and a literal never come to the same parts. */
  lemma TickIsNoLiteral(cls: Classes, x: seq<Mark>, literal: string, y: seq<Mark>, z: seq<Mark>)
    requires cls.space(' ') && !cls.space('\'')
    ensures Gather(cls, (x + [Code("'")]) + y).parts != Gather(cls, (x + [Literal(literal)]) + z).parts
  {
    var g := Gather(cls, x);
    GatherMore(cls, x, [Code("'")]);
    GatherMore(cls, x, [Literal(literal)]);
    GatherContinues(cls, x + [Code("'")], y);
    GatherContinues(cls, x + [Literal(literal)], z);
    InkJoins(cls, g.rest, "'");
    InkOf(cls, '\'');
    InkOfFlushed(cls, g.rest);
    var n, h := |g.parts|, Gather(cls, (x + [Literal(literal)]) + z);
    assert h.parts[..n + 1][n] == h.parts[n];
  }

  lemma TicksEnclose(cls: Classes, b: string, i: nat)
    requires i + 2 < |b| && b[i] == '\'' && b[i + 1] == '\n' && b[i + 2] == '\''
    ensures ItemAt(cls, b, i) == Item(CharLiteral, i, i + 3)
  {
  }

  lemma CompletedReads(cls: Classes, src: string, b: string, item: Item)
    requires Edit(src, b, item, 0) && Completed(cls, src, item)
    ensures var i := item.start - 1;
            && i + 2 < |b|
            && ItemAt(cls, src, i) == Item(Plain, i, i + 1) && Slice(src, i, i + 1) == "'"
            && ItemAt(cls, b, i) == Item(CharLiteral, i, i + 3)
  {
    var i := item.start - 1;
    TickIsPlain(cls, src, i);
    assert b[i + 1] == src[item.end] && b[i + 2] == src[item.end + 1];
    TicksEnclose(cls, b, i);
  }

  /** Marks from a lone tick on, and from where that tick opens a literal. */
  lemma PartsDiffer(cls: Classes, a: string, b: string, i: nat, x: seq<Mark>)
    requires cls.space(' ') && !cls.space('\'')
    requires i < |a| && ItemAt(cls, a, i) == Item(Plain, i, i + 1) && Slice(a, i, i + 1) == "'"
    requires i < |b| && ItemAt(cls, b, i) == Item(CharLiteral, i, i + 3)
    ensures Gather(cls, x + Reading(cls, a, i)).parts != Gather(cls, x + Reading(cls, b, i)).parts
  {
    var y, z, literal := Reading(cls, a, i + 1), Reading(cls, b, i + 3), Slice(b, i, i + 3);
    RunOn(Scan(cls, a), |a|, i, Step(i + 1, [Code("'")]));
    RunOn(Scan(cls, b), |b|, i, Step(i + 3, [Literal(literal)]));
    Regrouped(x, [Code("'")], y);
    Regrouped(x, [Literal(literal)], z);
    TickIsNoLiteral(cls, x, literal, y, z);
  }

  lemma PartsOfReading(cls: Classes, src: string)
    ensures GistOf(cls, src).parts == Gather(cls, Reading(cls, src, 0)).parts
  {
    ReadingIs(cls, src, 0);
  }

  lemma ReadingsDiffer(cls: Classes, src: string, b: string, item: Item)
    requires Edit(src, b, item, 0) && Completed(cls, src, item) && cls.space(' ') && !cls.space('\'')
    ensures Gather(cls, Reading(cls, src, 0)).parts != Gather(cls, Reading(cls, b, 0)).parts
  {
    var i := item.start - 1;
    ReadUpToTheTick(cls, src, b, item);
    CompletedReads(cls, src, b, item);
    PartsDiffer(cls, src, b, i, Between(Scan(cls, src), |src|, 0, i));
  }

  lemma ReadUpToTheTick(cls: Classes, src: string, b: string, item: Item)
    requires Edit(src, b, item, 0) && Completed(cls, src, item)
    ensures var i := item.start - 1; var x := Between(Scan(cls, src), |src|, 0, i);
            Reading(cls, src, 0) == x + Reading(cls, src, i) && Reading(cls, b, 0) == x + Reading(cls, b, i)
  {
    var i := item.start - 1;
    TickIsPlain(cls, src, i);
    BoundaryIsItem(cls, src, 0, i);
    EditIsEdited(src, b, item, 0);
    ReadingBefore(cls, src, b, item.start, i);
  }

  lemma CompletedDiffers(cls: Classes, src: string, b: string, item: Item)
    requires Edit(src, b, item, 0) && Completed(cls, src, item) && cls.space(' ') && !cls.space('\'')
    ensures GistOf(cls, b) != GistOf(cls, src)
  {
    ReadingsDiffer(cls, src, b, item);
    PartsOfReading(cls, src);
    PartsOfReading(cls, b);
  }

  lemma DifferentGistFails(cls: Classes, a: string, b: string)
    requires NulFree(a) && NulFree(b) && GistOf(cls, a) != GistOf(cls, b)
    ensures ResidueOf(cls, a) != ResidueOf(cls, b)
  {
    NulFreeIsClean(cls, a);
    NulFreeIsClean(cls, b);
    if ResidueOf(cls, a) == ResidueOf(cls, b) { PassMeansSameGist(cls, a, b); }
  }

  lemma DeletedIsNulFree(src: string, item: Item)
    requires NulFree(src) && item.start <= item.end <= |src|
    ensures NulFree(Replaced(src, item, []))
  {
  }

  /** Deleting a line comment from a source with no NUL passes exactly when no lone tick before it and
      newline and tick behind it are left to make a literal. */
  lemma LineCommentDeleted(cls: Classes, src: string, k: nat)
    requires k < |Items(cls, src, 0)| && Items(cls, src, 0)[k].kind.LineComment?
    requires NulFree(src) && cls.space(' ') && !cls.space('\'')
    ensures var item := Items(cls, src, 0)[k];
            && item.start <= item.end <= |src|
            && (ResidueOf(cls, Replaced(src, item, [])) == ResidueOf(cls, src) <==> !Completed(cls, src, item))
  {
    CommentStands(cls, src, k);
    var item := Items(cls, src, 0)[k];
    if Completed(cls, src, item) {
      ReplacedIs(src, item, []);
      CompletedDiffers(cls, src, Replaced(src, item, []), item);
      DeletedIsNulFree(src, item);
      DifferentGistFails(cls, Replaced(src, item, []), src);
    } else {
      LineCommentEdited(cls, src, k, []);
    }
  }
}
