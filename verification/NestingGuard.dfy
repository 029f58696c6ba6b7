/** The pre-parse nesting guard: a byte scan that must agree with a reading by tokens, and what
    passing it says about the height of the tree the parser will build. */
module NestingGuard {
  import opened Bytes
  import opened Positions

  const MAX_NESTING_DEPTH := 500

  /** What the guard sees of a source: strings, words and all other bytes are one to it. */
  datatype Token = Open | Close | Unary | Other

  predicate Digit(c: Byte) { '0' <= c <= '9' }
  predicate Letter(c: Byte) { 'a' <= c <= 'z' || 'A' <= c <= 'Z' }
  predicate WordByte(c: Byte) { Digit(c) || Letter(c) || c == '_' }
  predicate Whitespace(c: Byte) { c == ' ' || c == '\t' || c == '\n' || c == '\r' || c == 12 as char }
  predicate Quote(c: Byte) { c == '"' || c == '\'' }
  predicate Opening(c: Byte) { c == '(' || c == '[' || c == '{' }
  predicate Closing(c: Byte) { c == ')' || c == ']' || c == '}' }
  predicate Sign(c: Byte) { c == '-' || c == '+' || c == '~' }

  // ---- the reading by tokens -------------------------------------------------------------

  function WordEnd(b: Bytes, i: nat): (end: nat)
    requires i <= |b|
    ensures i <= end <= |b|
    ensures i < |b| && WordByte(b[i]) ==> i < end
    ensures end < |b| ==> !WordByte(b[end])
    decreases |b| - i
  {
    if i == |b| || !WordByte(b[i]) then i else WordEnd(b, i + 1)
  }

  predicate Triple(b: Bytes, i: nat)
    requires i < |b|
  {
    i + 2 < |b| && b[i + 1] == b[i] && b[i + 2] == b[i]
  }

  /** Past the end of a string whose content starts at `i`: past its closing quote, at the newline
      that leaves a single-line string unterminated, or at the end of the source. */
  function StringEnd(b: Bytes, quote: Byte, triple: bool, i: nat): (end: nat)
    requires i <= |b|
    ensures i <= end <= |b|
    decreases |b| - i
  {
    if i == |b| then i
    else if b[i] == '\\' then (if i + 1 < |b| then StringEnd(b, quote, triple, i + 2) else |b|)
    else if b[i] == quote && !triple then i + 1
    else if b[i] == quote && Triple(b, i) then i + 3
    else if b[i] == '\n' && !triple then i
    else StringEnd(b, quote, triple, i + 1)
  }

  function SkipStringAt(b: Bytes, i: nat): (end: nat)
    requires i < |b|
    ensures i < end <= |b|
  {
    StringEnd(b, b[i], Triple(b, i), if Triple(b, i) then i + 3 else i + 1)
  }

  predicate IsNot(word: Bytes) { |word| == 3 && word[0] == 'n' && word[1] == 'o' && word[2] == 't' }

  /** Words and strings are whole tokens, comments and whitespace are none. */
  function Tokens(b: Bytes, i: nat): seq<Token>
    requires i <= |b|
    decreases |b| - i
  {
    if i == |b| then []
    else if b[i] == '#' then (if LineEnd(b, i) == |b| then [] else Tokens(b, LineEnd(b, i) + 1))
    else if Whitespace(b[i]) then Tokens(b, i + 1)
    else if Quote(b[i]) then [Other] + Tokens(b, SkipStringAt(b, i))
    else if WordByte(b[i]) then
      [if IsNot(b[i..WordEnd(b, i)]) then Unary else Other] + Tokens(b, WordEnd(b, i))
    else
      [if Opening(b[i]) then Open else if Closing(b[i]) then Close else if Sign(b[i]) then Unary else Other]
      + Tokens(b, i + 1)
  }

  /** Bracket depth and unary run so far. */
  datatype Counts = Counts(depth: nat, run: nat)

  function Count(c: Counts, t: Token): Counts {
    match t
    case Open => Counts(c.depth + 1, 0)
    case Close => Counts(if c.depth > 0 then c.depth - 1 else 0, 0)
    case Unary => Counts(c.depth, c.run + 1)
    case Other => Counts(c.depth, 0)
  }

  predicate Fits(c: Counts) { c.depth <= MAX_NESTING_DEPTH && c.run <= MAX_NESTING_DEPTH }

  /** Counting on from `c`: the counts at the end, or nothing once a ceiling is crossed. */
  function After(c: Counts, ts: seq<Token>): Option<Counts>
    decreases |ts|
  {
    if ts == [] then Some(c) else if Fits(Count(c, ts[0])) then After(Count(c, ts[0]), ts[1..]) else None
  }

  const START := Counts(0, 0)

  // ---- the scan --------------------------------------------------------------------------

  method SkipString(b: Bytes, start: nat) returns (end: nat)
    requires start < |b| && Quote(b[start])
    ensures end == SkipStringAt(b, start)
  {
    var quote := b[start];
    var triple := start + 2 < |b| && b[start + 1] == quote && b[start + 2] == quote;
    var i := start + if triple then 3 else 1;
    while i < |b|
      invariant i <= |b| ==> StringEnd(b, quote, triple, i) == SkipStringAt(b, start)
      invariant i > |b| ==> SkipStringAt(b, start) == |b|
      decreases |b| - i
    {
      if b[i] == '\\' {
        i := i + 2;
      } else if b[i] == quote {
        if triple {
          if i + 2 < |b| && b[i + 1] == quote && b[i + 2] == quote { return i + 3; }
          i := i + 1;
        } else {
          return i + 1;
        }
      } else if b[i] == '\n' && !triple {
        return i;
      } else {
        i := i + 1;
      }
    }
    end := |b|;
  }

  /** The keyword test with both of its boundaries, as the scan makes it. */
  predicate WordAt(b: Bytes, i: nat, needle: Bytes)
    requires i <= |b|
  {
    && |b| - i >= |needle| && b[i..i + |needle|] == needle
    && (i == 0 || !WordByte(b[i - 1]))
    && (i + |needle| >= |b| || !WordByte(b[i + |needle|]))
  }

  /** Where the scan stands, the byte before is never part of a word that runs on. */
  predicate AtBoundary(b: Bytes, i: nat)
    requires i <= |b|
  {
    i == 0 || i == |b| || !WordByte(b[i - 1]) || !WordByte(b[i])
  }

  lemma {:induction false} WordEndAt(b: Bytes, i: nat, end: nat)
    requires i <= end <= |b| && (forall k | i <= k < end :: WordByte(b[k])) && (end < |b| ==> !WordByte(b[end]))
    ensures WordEnd(b, i) == end
    decreases end - i
  {
    if i < end { WordEndAt(b, i + 1, end); }
  }

  const NOT: Bytes := "not"

  /** At a boundary the two-sided test says exactly that the whole word is `not`; its left half adds
      nothing. */
  lemma WordAtIsTheWholeWord(b: Bytes, i: nat)
    requires i < |b| && AtBoundary(b, i) && WordByte(b[i])
    ensures WordAt(b, i, NOT) <==> IsNot(b[i..WordEnd(b, i)])
    ensures WordAt(b, i, NOT) ==> WordEnd(b, i) == i + 3
    ensures i == 0 || !WordByte(b[i - 1])
  {
    if WordAt(b, i, NOT) {
      NotIsSpelled(b[i..i + 3]);
      WordEndAt(b, i, i + 3);
    }
    if IsNot(b[i..WordEnd(b, i)]) { NotIsSpelled(b[i..WordEnd(b, i)]); }
  }

  lemma NotIsSpelled(w: Bytes)
    ensures w == NOT <==> IsNot(w)
  {
  }

  lemma StringEndIsBoundary(b: Bytes, quote: Byte, triple: bool, i: nat)
    requires i <= |b| && Quote(quote)
    ensures AtBoundary(b, StringEnd(b, quote, triple, i))
    decreases |b| - i
  {
    if i < |b| {
      if b[i] == '\\' {
        if i + 1 < |b| { StringEndIsBoundary(b, quote, triple, i + 2); }
      } else if b[i] != quote || triple {
        if !(b[i] == quote && Triple(b, i)) { StringEndIsBoundary(b, quote, triple, i + 1); }
      }
    }
  }

  method SkipComment(b: Bytes, start: nat) returns (end: nat)
    requires start < |b|
    ensures end == LineEnd(b, start)
  {
    end := start;
    while end < |b| && b[end] != '\n'
      invariant end <= |b| && LineEnd(b, end) == LineEnd(b, start)
    {
      end := end + 1;
    }
  }

  method SkipWord(b: Bytes, start: nat) returns (end: nat)
    requires start < |b|
    ensures end == WordEnd(b, start)
  {
    end := start;
    while end < |b| && WordByte(b[end])
      invariant end <= |b| && WordEnd(b, end) == WordEnd(b, start)
    {
      end := end + 1;
    }
  }

  lemma CommentEnds(b: Bytes, i: nat)
    requires i < |b| && b[i] == '#'
    ensures i < LineEnd(b, i) && AtBoundary(b, LineEnd(b, i)) && Tokens(b, i) == Tokens(b, LineEnd(b, i))
  {
    LineEndIsNewline(b, i);
  }

  /** One lexeme that is a token: its counts, or a ceiling crossed. */
  method Tally(c: Counts, t: Token) returns (r: Option<Counts>)
    requires Fits(c)
    ensures r == if Fits(Count(c, t)) then Some(Count(c, t)) else None
  {
    match t
    case Open =>
      var depth := c.depth + 1;
      if depth > MAX_NESTING_DEPTH { return None; }
      return Some(Counts(depth, 0));
    case Close => return Some(Counts(if c.depth > 0 then c.depth - 1 else 0, 0));
    case Unary =>
      var run := c.run + 1;
      if run > MAX_NESTING_DEPTH { return None; }
      return Some(Counts(c.depth, run));
    case Other => return Some(Counts(c.depth, 0));
  }

  /** From `i` the reading takes `t`, or nothing, and goes on at `next`. */
  predicate Steps(b: Bytes, i: nat, t: Option<Token>, next: nat)
    requires i < |b|
  {
    && i < next <= |b| && AtBoundary(b, next)
    && Tokens(b, i) == (if t.Some? then [t.value] else []) + Tokens(b, next)
  }

  lemma CommentSteps(b: Bytes, i: nat)
    requires i < |b| && b[i] == '#'
    ensures Steps(b, i, None, LineEnd(b, i))
  {
    CommentEnds(b, i);
  }

  lemma SpaceSteps(b: Bytes, i: nat)
    requires i < |b| && Whitespace(b[i])
    ensures Steps(b, i, None, i + 1)
  {
    assert [] + Tokens(b, i + 1) == Tokens(b, i + 1);
  }

  lemma StringSteps(b: Bytes, i: nat)
    requires i < |b| && Quote(b[i])
    ensures Steps(b, i, Some(Other), SkipStringAt(b, i))
  {
    StringEndIsBoundary(b, b[i], Triple(b, i), if Triple(b, i) then i + 3 else i + 1);
  }

  lemma WordSteps(b: Bytes, i: nat)
    requires i < |b| && AtBoundary(b, i) && WordByte(b[i])
    ensures Steps(b, i, Some(if WordAt(b, i, NOT) then Unary else Other), WordEnd(b, i))
    ensures WordAt(b, i, NOT) ==> WordEnd(b, i) == i + 3 && b[i] == 'n'
  {
    WordAtIsTheWholeWord(b, i);
    if WordAt(b, i, NOT) { NotIsSpelled(b[i..i + 3]); }
  }

  lemma ByteSteps(b: Bytes, i: nat)
    requires i < |b| && b[i] != '#' && !Whitespace(b[i]) && !Quote(b[i]) && !WordByte(b[i])
    ensures Steps(b, i, Some(if Opening(b[i]) then Open else if Closing(b[i]) then Close else if Sign(b[i]) then Unary else Other), i + 1)
  {
  }

  lemma Takes(b: Bytes, i: nat, t: Option<Token>, next: nat, c: Counts)
    requires i < |b| && Steps(b, i, t, next)
    ensures After(c, Tokens(b, i))
            == if t.None? then After(c, Tokens(b, next)) else if Fits(Count(c, t.value)) then After(Count(c, t.value), Tokens(b, next)) else None
  {
    if t.Some? { AfterOne(c, t.value, Tokens(b, next)); } else { assert [] + Tokens(b, next) == Tokens(b, next); }
  }

  /** The token at `i` and where the scan resumes; no token for comments and whitespace. */
  method NextToken(b: Bytes, i: nat) returns (t: Option<Token>, next: nat)
    requires i < |b| && AtBoundary(b, i)
    ensures Steps(b, i, t, next)
  {
    var c := b[i];
    if c == '#' {
      next := SkipComment(b, i);
      CommentSteps(b, i);
      return None, next;
    } else if Quote(c) {
      next := SkipString(b, i);
      StringSteps(b, i);
      return Some(Other), next;
    } else if Opening(c) {
      ByteSteps(b, i);
      return Some(Open), i + 1;
    } else if Closing(c) {
      ByteSteps(b, i);
      return Some(Close), i + 1;
    } else if Sign(c) {
      ByteSteps(b, i);
      return Some(Unary), i + 1;
    } else if Whitespace(c) {
      SpaceSteps(b, i);
      return None, i + 1;
    } else if WordByte(c) {
      WordSteps(b, i);
      if c == 'n' && WordAt(b, i, NOT) { return Some(Unary), i + 3; }
      next := SkipWord(b, i);
      return Some(Other), next;
    } else {
      ByteSteps(b, i);
      return Some(Other), i + 1;
    }
  }

  /** The guard: accepts exactly the sources whose every prefix of tokens stays within the ceilings. */
  method CheckNestingDepth(b: Bytes) returns (ok: bool)
    ensures ok <==> After(START, Tokens(b, 0)).Some?
  {
    var counts := START;
    var i: nat := 0;
    while i < |b|
      invariant i <= |b| && AtBoundary(b, i) && Fits(counts)
      invariant After(START, Tokens(b, 0)) == After(counts, Tokens(b, i))
    {
      var t, next := NextToken(b, i);
      Takes(b, i, t, next, counts);
      if t.Some? {
        var tallied := Tally(counts, t.value);
        if tallied.None? { return false; }
        counts := tallied.value;
      }
      i := next;
    }
    ok := true;
  }

  // ---- what acceptance says --------------------------------------------------------------

  /** The counts after all of the tokens, ceilings aside. */
  function Tallied(ts: seq<Token>): Counts {
    if ts == [] then START else Count(Tallied(ts[..|ts| - 1]), ts[|ts| - 1])
  }

  predicate AllUnary(ts: seq<Token>, lo: int, hi: nat)
    requires 0 <= lo <= hi <= |ts|
  {
    forall j | lo <= j < hi :: ts[j].Unary?
  }

  /** The unary run is the longest tail of unary tokens. */
  lemma {:induction false} RunIsTheUnaryTail(ts: seq<Token>, m: nat)
    ensures Tallied(ts).run >= m <==> m <= |ts| && AllUnary(ts, |ts| - m, |ts|)
    decreases |ts|
  {
    if ts != [] && m > 0 {
      var n := |ts| - 1;
      RunIsTheUnaryTail(ts[..n], m - 1);
      assert forall j | 0 <= j < n :: ts[..n][j] == ts[j];
    }
  }

  lemma {:induction false} AfterFromPrefix(done: seq<Token>, ts: seq<Token>)
    ensures After(Tallied(done), ts).Some? <==> forall k | 0 < k <= |ts| :: Fits(Tallied(done + ts[..k]))
    decreases |ts|
  {
    if ts != [] {
      var more := done + [ts[0]];
      assert more[..|more| - 1] == done;
      assert Tallied(more) == Count(Tallied(done), ts[0]);
      AfterFromPrefix(more, ts[1..]);
      assert done + ts[..1] == more;
      forall k | 0 < k < |ts| ensures more + ts[1..][..k] == done + ts[..k + 1] {}
      assert forall k | 1 < k <= |ts| :: done + ts[..k] == more + ts[1..][..k - 1];
    }
  }

  /** After its first k tokens a source has more than the ceiling of unary tokens in a row. */
  predicate Overrun(ts: seq<Token>, k: nat)
    requires k <= |ts|
  {
    k > MAX_NESTING_DEPTH && AllUnary(ts, k - MAX_NESTING_DEPTH - 1, k)
  }

  predicate Overdeep(ts: seq<Token>, k: nat)
    requires k <= |ts|
  {
    Tallied(ts[..k]).depth > MAX_NESTING_DEPTH
  }

  lemma FitsMeans(ts: seq<Token>, k: nat)
    requires k <= |ts|
    ensures Fits(Tallied([] + ts[..k])) <==> !Overdeep(ts, k) && !Overrun(ts, k)
  {
    assert [] + ts[..k] == ts[..k];
    RunIsTheUnaryTail(ts[..k], MAX_NESTING_DEPTH + 1);
    assert forall j | 0 <= j < k :: ts[..k][j] == ts[j];
  }

  /** Accepted means: nowhere more than the ceiling of brackets open, nowhere more than the ceiling of
      unary tokens in a row. */
  lemma AcceptedMeans(ts: seq<Token>)
    ensures After(START, ts).Some? <==> forall k | 0 < k <= |ts| :: !Overdeep(ts, k) && !Overrun(ts, k)
  {
    AfterFromPrefix([], ts);
    forall k | 0 < k <= |ts|
      ensures Fits(Tallied([] + ts[..k])) <==> !Overdeep(ts, k) && !Overrun(ts, k)
    {
      FitsMeans(ts, k);
    }
  }

  // ---- expression trees ------------------------------------------------------------------

  /** An expression as it is written. `Infix` binds tighter than `not` (comparison, arithmetic),
      `Join` looser (`and`, `or`, a conditional); `Group` stands for any bracketed operand, and a call
      or index for its bracketed part. */
  datatype Expr =
    | Word(word: Bytes)
    | Group(opening: Byte, inner: Expr, closing: Byte)
    | Signed(sign: Byte, operand: Expr)
    | Not(operand: Expr)
    | Infix(left: Expr, op: Byte, right: Expr)
    | Join(left: Expr, word: Bytes, right: Expr)

  predicate Tight(e: Expr) { e.Word? || e.Group? || e.Signed? }
  predicate Middle(e: Expr) { Tight(e) || e.Infix? }
  predicate Negated(e: Expr) { Middle(e) || e.Not? }

  predicate PlainWord(w: Bytes) { |w| > 0 && !IsNot(w) && forall i | 0 <= i < |w| :: WordByte(w[i]) }

  predicate OpByte(c: Byte) {
    !WordByte(c) && !Whitespace(c) && !Quote(c) && !Opening(c) && !Closing(c) && c != '#'
  }

  /** Written without brackets only where precedence allows. */
  predicate Formed(e: Expr) {
    match e
    case Word(w) => PlainWord(w)
    case Group(opening, inner, closing) => Opening(opening) && Closing(closing) && Formed(inner)
    case Signed(sign, operand) => Sign(sign) && Tight(operand) && Formed(operand)
    case Not(operand) => Negated(operand) && Formed(operand)
    case Infix(left, op, right) => OpByte(op) && Middle(left) && Middle(right) && Formed(left) && Formed(right)
    case Join(left, word, right) => PlainWord(word) && Formed(left) && Formed(right)
  }

  /** Brackets and unary operators on the deepest way down: what costs the parser a stack frame. */
  function Height(e: Expr): nat {
    match e
    case Word(_) => 0
    case Group(_, inner, _) => 1 + Height(inner)
    case Signed(_, operand) => 1 + Height(operand)
    case Not(operand) => 1 + Height(operand)
    case Infix(left, _, right) => if Height(left) >= Height(right) then Height(left) else Height(right)
    case Join(left, _, right) => if Height(left) >= Height(right) then Height(left) else Height(right)
  }

  function OpToken(op: Byte): Token { if Sign(op) then Unary else Other }

  function TokensOf(e: Expr): seq<Token> {
    match e
    case Word(_) => [Other]
    case Group(_, inner, _) => [Open] + (TokensOf(inner) + [Close])
    case Signed(_, operand) => [Unary] + TokensOf(operand)
    case Not(operand) => [Unary] + TokensOf(operand)
    case Infix(left, op, right) => TokensOf(left) + ([OpToken(op)] + TokensOf(right))
    case Join(left, _, right) => TokensOf(left) + ([Other] + TokensOf(right))
  }

  lemma {:induction false} AfterBoth(c: Counts, a: seq<Token>, b: seq<Token>)
    ensures After(c, a + b) == (if After(c, a).Some? then After(After(c, a).value, b) else None)
    decreases |a|
  {
    if a == [] {
      assert a + b == b;
    } else {
      assert (a + b)[1..] == a[1..] + b;
      if Fits(Count(c, a[0])) { AfterBoth(Count(c, a[0]), a[1..], b); }
    }
  }

  lemma AfterOne(c: Counts, t: Token, rest: seq<Token>)
    ensures After(c, [t] + rest) == if Fits(Count(c, t)) then After(Count(c, t), rest) else None
  {
    assert ([t] + rest)[1..] == rest;
  }

  /** What is left above a bracket depth: at most two full runs a level, `not` and sign, and one bracket
      between levels. */
  function Room(depth: nat): nat
    requires depth <= MAX_NESTING_DEPTH
  {
    2 * MAX_NESTING_DEPTH * (MAX_NESTING_DEPTH + 1 - depth) + (MAX_NESTING_DEPTH - depth)
  }

  /** The room inside a bracketed operand, and the bracket. */
  function Inside(depth: nat): nat
    requires depth <= MAX_NESTING_DEPTH
  {
    if depth < MAX_NESTING_DEPTH then 1 + Room(depth + 1) else 0
  }

  function RoomFor(e: Expr, c: Counts): nat
    requires Fits(c)
  {
    if Tight(e) then Inside(c.depth) + MAX_NESTING_DEPTH - c.run
    else if Middle(e) then Inside(c.depth) + MAX_NESTING_DEPTH
    else if e.Not? then Inside(c.depth) + 2 * MAX_NESTING_DEPTH - c.run
    else Inside(c.depth) + 2 * MAX_NESTING_DEPTH
  }

  lemma {:induction false} ExprBalances(e: Expr, c: Counts)
    requires Formed(e) && After(c, TokensOf(e)).Some?
    ensures After(c, TokensOf(e)).value.depth == c.depth
    decreases e
  {
    match e
    case Word(_) =>
    case Group(_, inner, _) =>
      AfterOne(c, Open, TokensOf(inner) + [Close]);
      AfterBoth(Count(c, Open), TokensOf(inner), [Close]);
      ExprBalances(inner, Count(c, Open));
    case Signed(_, operand) => AfterOne(c, Unary, TokensOf(operand)); ExprBalances(operand, Count(c, Unary));
    case Not(operand) => AfterOne(c, Unary, TokensOf(operand)); ExprBalances(operand, Count(c, Unary));
    case Infix(left, op, right) =>
      var t := OpToken(op);
      AfterBoth(c, TokensOf(left), [t] + TokensOf(right));
      ExprBalances(left, c);
      AfterOne(After(c, TokensOf(left)).value, t, TokensOf(right));
      ExprBalances(right, Count(After(c, TokensOf(left)).value, t));
    case Join(left, _, right) =>
      AfterBoth(c, TokensOf(left), [Other] + TokensOf(right));
      ExprBalances(left, c);
      AfterOne(After(c, TokensOf(left)).value, Other, TokensOf(right));
      ExprBalances(right, Count(After(c, TokensOf(left)).value, Other));
  }

  lemma PairBalances(left: Expr, t: Token, right: Expr, c: Counts)
    requires Formed(left) && Formed(right) && (t.Unary? || t.Other?)
    requires After(c, TokensOf(left) + ([t] + TokensOf(right))).Some?
    ensures After(c, TokensOf(left)).Some? && After(c, TokensOf(left)).value.depth == c.depth
    ensures var mid := Count(After(c, TokensOf(left)).value, t);
            Fits(mid) && mid.depth == c.depth && After(mid, TokensOf(right)).Some?
            && After(mid, TokensOf(right)).value.depth == c.depth
            && After(c, TokensOf(left) + ([t] + TokensOf(right))) == After(mid, TokensOf(right))
  {
    AfterBoth(c, TokensOf(left), [t] + TokensOf(right));
    ExprBalances(left, c);
    var mid := After(c, TokensOf(left)).value;
    AfterOne(mid, t, TokensOf(right));
    ExprBalances(right, Count(mid, t));
  }

  // ---- the height bound ------------------------------------------------------------------

  lemma InsideGroup(inner: Expr, c: Counts)
    requires Fits(c) && c.depth < MAX_NESTING_DEPTH
    ensures RoomFor(inner, Count(c, Open)) + 1 <= Inside(c.depth)
  {
  }

  lemma {:induction false} HeightFits(e: Expr, c: Counts)
    requires Formed(e) && Fits(c) && After(c, TokensOf(e)).Some?
    ensures Height(e) <= RoomFor(e, c)
    decreases e
  {
    match e
    case Word(_) =>
    case Group(_, inner, _) =>
      AfterOne(c, Open, TokensOf(inner) + [Close]);
      AfterBoth(Count(c, Open), TokensOf(inner), [Close]);
      HeightFits(inner, Count(c, Open));
      InsideGroup(inner, c);
    case Signed(_, operand) =>
      AfterOne(c, Unary, TokensOf(operand));
      HeightFits(operand, Count(c, Unary));
    case Not(operand) =>
      AfterOne(c, Unary, TokensOf(operand));
      HeightFits(operand, Count(c, Unary));
    case Infix(left, op, right) =>
      var t := OpToken(op);
      PairBalances(left, t, right, c);
      HeightFits(left, c);
      HeightFits(right, Count(After(c, TokensOf(left)).value, t));
    case Join(left, _, right) =>
      PairBalances(left, Other, right, c);
      HeightFits(left, c);
      HeightFits(right, Count(After(c, TokensOf(left)).value, Other));
  }

  /** No accepted expression costs the parser more than 1000 * 501 + 500 frames. */
  lemma AcceptedHeight(e: Expr)
    requires Formed(e) && After(START, TokensOf(e)).Some?
    ensures Height(e) <= 1000 * 501 + 500
  {
    HeightFits(e, START);
  }

  // And one costs exactly that: each level a full run of `not`, a comparison, a full run of signs.

  function Nots(n: nat, e: Expr): Expr { if n == 0 then e else Not(Nots(n - 1, e)) }
  function Minuses(n: nat, e: Expr): Expr { if n == 0 then e else Signed('-', Minuses(n - 1, e)) }

  function Level(core: Expr): Expr {
    Nots(MAX_NESTING_DEPTH, Infix(Word(['x']), '<', Minuses(MAX_NESTING_DEPTH, core)))
  }

  function Tower(n: nat): Expr {
    if n == 0 then Level(Word(['x'])) else Level(Group('(', Tower(n - 1), ')'))
  }

  lemma {:induction false} MinusesAre(n: nat, e: Expr)
    requires Formed(e) && Tight(e)
    ensures Formed(Minuses(n, e)) && Tight(Minuses(n, e)) && Height(Minuses(n, e)) == n + Height(e)
  {
    if n > 0 { MinusesAre(n - 1, e); }
  }

  lemma {:induction false} MinusesPass(n: nat, e: Expr, c: Counts)
    requires c.run + n <= MAX_NESTING_DEPTH && Fits(c)
    ensures After(c, TokensOf(Minuses(n, e))) == After(Counts(c.depth, c.run + n), TokensOf(e))
  {
    if n > 0 {
      MinusesPass(n - 1, e, Count(c, Unary));
      AfterOne(c, Unary, TokensOf(Minuses(n - 1, e)));
    }
  }

  lemma {:induction false} NotsAre(n: nat, e: Expr)
    requires Formed(e) && Negated(e)
    ensures Formed(Nots(n, e)) && Negated(Nots(n, e)) && Height(Nots(n, e)) == n + Height(e)
  {
    if n > 0 { NotsAre(n - 1, e); }
  }

  lemma {:induction false} NotsPass(n: nat, e: Expr, c: Counts)
    requires c.run + n <= MAX_NESTING_DEPTH && Fits(c)
    ensures After(c, TokensOf(Nots(n, e))) == After(Counts(c.depth, c.run + n), TokensOf(e))
  {
    if n > 0 {
      NotsPass(n - 1, e, Count(c, Unary));
      AfterOne(c, Unary, TokensOf(Nots(n - 1, e)));
    }
  }

  lemma LevelIs(core: Expr)
    requires Formed(core) && Tight(core)
    ensures Formed(Level(core)) && Height(Level(core)) == 2 * MAX_NESTING_DEPTH + Height(core)
  {
    MinusesAre(MAX_NESTING_DEPTH, core);
    ComparedIs(Minuses(MAX_NESTING_DEPTH, core));
    NotsAre(MAX_NESTING_DEPTH, Infix(Word(['x']), '<', Minuses(MAX_NESTING_DEPTH, core)));
  }

  lemma ComparedIs(e: Expr)
    requires Formed(e) && Tight(e)
    ensures Formed(Infix(Word(['x']), '<', e)) && Height(Infix(Word(['x']), '<', e)) == Height(e)
  {
  }

  lemma LevelPasses(core: Expr, depth: nat)
    requires depth <= MAX_NESTING_DEPTH
    ensures After(Counts(depth, 0), TokensOf(Level(core))) == After(Counts(depth, MAX_NESTING_DEPTH), TokensOf(core))
  {
    var signs := Minuses(MAX_NESTING_DEPTH, core);
    NotsPass(MAX_NESTING_DEPTH, Infix(Word(['x']), '<', signs), Counts(depth, 0));
    ComparedPasses(signs, Counts(depth, MAX_NESTING_DEPTH));
    MinusesPass(MAX_NESTING_DEPTH, core, Counts(depth, 0));
  }

  lemma ComparedPasses(e: Expr, c: Counts)
    requires Fits(c)
    ensures After(c, TokensOf(Infix(Word(['x']), '<', e))) == After(Counts(c.depth, 0), TokensOf(e))
  {
    AfterOne(c, Other, [Other] + TokensOf(e));
    AfterOne(Counts(c.depth, 0), Other, TokensOf(e));
  }

  lemma {:induction false} TowerIsFormed(n: nat)
    ensures Formed(Tower(n)) && Height(Tower(n)) == 2 * MAX_NESTING_DEPTH * (n + 1) + n
  {
    if n == 0 {
      LevelIs(Word(['x']));
    } else {
      TowerIsFormed(n - 1);
      LevelIs(Group('(', Tower(n - 1), ')'));
    }
  }

  lemma GroupCloses(inner: Expr, depth: nat)
    requires depth < MAX_NESTING_DEPTH && After(Counts(depth + 1, 0), TokensOf(inner)) == Some(Counts(depth + 1, 0))
    ensures After(Counts(depth, MAX_NESTING_DEPTH), TokensOf(Group('(', inner, ')'))) == Some(Counts(depth, 0))
  {
    AfterOne(Counts(depth, MAX_NESTING_DEPTH), Open, TokensOf(inner) + [Close]);
    AfterBoth(Counts(depth + 1, 0), TokensOf(inner), [Close]);
  }

  lemma {:induction false} TowerPasses(n: nat, depth: nat)
    requires depth + n <= MAX_NESTING_DEPTH
    ensures After(Counts(depth, 0), TokensOf(Tower(n))) == Some(Counts(depth, 0))
  {
    if n == 0 {
      LevelPasses(Word(['x']), depth);
      assert After(Counts(depth, MAX_NESTING_DEPTH), [Other]) == Some(Counts(depth, 0));
    } else {
      TowerPasses(n - 1, depth + 1);
      LevelPasses(Group('(', Tower(n - 1), ')'), depth);
      GroupCloses(Tower(n - 1), depth);
    }
  }

  /** The bound is met, so no smaller one holds; 500 * 501 + 500 in particular does not. */
  lemma HeightBoundIsMet()
    ensures Formed(Tower(500)) && After(START, TokensOf(Tower(500))).Some? && Height(Tower(500)) == 1000 * 501 + 500
  {
    TowerIsFormed(500);
    TowerPasses(500, 0);
  }

  // ---- the printed form ------------------------------------------------------------------

  /** A lexeme is a word or a single punctuation byte; each is printed with a space after it. */
  predicate Lexeme(l: Bytes) {
    && |l| > 0
    && if WordByte(l[0]) then forall k | 0 <= k < |l| :: WordByte(l[k])
       else |l| == 1 && (OpByte(l[0]) || Opening(l[0]) || Closing(l[0]))
  }

  function Kind(l: Bytes): Token
    requires Lexeme(l)
  {
    if WordByte(l[0]) then (if IsNot(l) then Unary else Other)
    else if Opening(l[0]) then Open else if Closing(l[0]) then Close else OpToken(l[0])
  }

  predicate AllLexemes(ls: seq<Bytes>) { forall l :: l in ls ==> Lexeme(l) }

  function Kinds(ls: seq<Bytes>): seq<Token>
    requires AllLexemes(ls)
  {
    if ls == [] then [] else [Kind(ls[0])] + Kinds(ls[1..])
  }

  function Spell(ls: seq<Bytes>): Bytes {
    if ls == [] then [] else (ls[0] + [' ']) + Spell(ls[1..])
  }

  function Lexemes(e: Expr): seq<Bytes> {
    match e
    case Word(w) => [w]
    case Group(opening, inner, closing) => [[opening]] + (Lexemes(inner) + [[closing]])
    case Signed(sign, operand) => [[sign]] + Lexemes(operand)
    case Not(operand) => [NOT] + Lexemes(operand)
    case Infix(left, op, right) => Lexemes(left) + ([[op]] + Lexemes(right))
    case Join(left, word, right) => Lexemes(left) + ([word] + Lexemes(right))
  }

  function Print(e: Expr): Bytes { Spell(Lexemes(e)) }

  predicate At(b: Bytes, i: nat, w: Bytes) { i + |w| <= |b| && forall k | 0 <= k < |w| :: b[i + k] == w[k] }

  lemma WordToken(b: Bytes, i: nat, w: Bytes)
    requires At(b, i, w) && Lexeme(w) && WordByte(w[0]) && i + |w| < |b| && b[i + |w|] == ' '
    ensures Tokens(b, i) == [Kind(w)] + Tokens(b, i + |w|)
  {
    forall k | i <= k < i + |w| ensures WordByte(b[k]) { assert b[i + (k - i)] == w[k - i]; }
    assert b[i + 0] == w[0];
    WordEndAt(b, i, i + |w|);
    assert b[i..i + |w|] == w;
  }

  lemma LexemeToken(b: Bytes, i: nat, l: Bytes)
    requires At(b, i, l) && Lexeme(l) && i + |l| < |b| && b[i + |l|] == ' '
    ensures Tokens(b, i) == [Kind(l)] + Tokens(b, i + |l| + 1)
  {
    assert b[i + 0] == l[0];
    assert Tokens(b, i + |l|) == Tokens(b, i + |l| + 1);
    if WordByte(l[0]) { WordToken(b, i, l); }
  }

  lemma FirstLexemeToken(b: Bytes, i: nat, l: Bytes, rest: Bytes)
    requires Lexeme(l) && At(b, i, (l + [' ']) + rest)
    ensures Tokens(b, i) == [Kind(l)] + Tokens(b, i + |l| + 1) && At(b, i + |l| + 1, rest)
  {
    var head := l + [' '];
    AtBoth(b, i, head, rest);
    assert b[i + |l|] == head[|l|];
    forall k | 0 <= k < |l| ensures b[i + k] == l[k] { assert head[k] == l[k]; }
    LexemeToken(b, i, l);
  }

  lemma {:induction false} SpelledAt(ls: seq<Bytes>, b: Bytes, i: nat)
    requires AllLexemes(ls) && At(b, i, Spell(ls)) && i + |Spell(ls)| == |b|
    ensures Tokens(b, i) == Kinds(ls)
    decreases |ls|
  {
    if ls != [] {
      FirstSpelled(ls, b, i);
      SpelledAt(ls[1..], b, i + |ls[0]| + 1);
    }
  }

  lemma FirstSpelled(ls: seq<Bytes>, b: Bytes, i: nat)
    requires ls != [] && Lexeme(ls[0]) && At(b, i, Spell(ls)) && i + |Spell(ls)| == |b|
    ensures var next := i + |ls[0]| + 1;
            next + |Spell(ls[1..])| == |b| && At(b, next, Spell(ls[1..])) && Tokens(b, i) == [Kind(ls[0])] + Tokens(b, next)
  {
    FirstLexemeToken(b, i, ls[0], Spell(ls[1..]));
  }

  lemma AtBoth(b: Bytes, i: nat, x: Bytes, y: Bytes)
    requires At(b, i, x + y)
    ensures At(b, i, x) && At(b, i + |x|, y)
  {
    var w := x + y;
    forall k | 0 <= k < |x| ensures b[i + k] == x[k] { assert w[k] == x[k]; }
    forall k | 0 <= k < |y| ensures b[i + |x| + k] == y[k] { assert b[i + (|x| + k)] == w[|x| + k]; }
  }

  lemma {:induction false} KindsBoth(a: seq<Bytes>, b: seq<Bytes>)
    requires AllLexemes(a) && AllLexemes(b)
    ensures AllLexemes(a + b) && Kinds(a + b) == Kinds(a) + Kinds(b)
    decreases |a|
  {
    if a == [] {
      assert a + b == b;
    } else {
      assert (a + b)[0] == a[0] && (a + b)[1..] == a[1..] + b;
      KindsBoth(a[1..], b);
    }
  }

  lemma KindsOne(l: Bytes, rest: seq<Bytes>)
    requires Lexeme(l) && AllLexemes(rest)
    ensures AllLexemes([l] + rest) && Kinds([l] + rest) == [Kind(l)] + Kinds(rest)
  {
    var ls := [l] + rest;
    assert ls[0] == l && ls[1..] == rest;
  }

  lemma NotIsALexeme()
    ensures Lexeme(NOT) && Kind(NOT) == Unary
  {
    assert NOT[0] == 'n' && NOT[1] == 'o' && NOT[2] == 't';
  }

  lemma {:induction false} KindsOf(e: Expr)
    requires Formed(e)
    ensures AllLexemes(Lexemes(e)) && Kinds(Lexemes(e)) == TokensOf(e)
    decreases e
  {
    match e
    case Word(w) => KindsOne(w, []);
    case Group(opening, inner, closing) =>
      KindsOf(inner);
      KindsOne([closing], []);
      KindsBoth(Lexemes(inner), [[closing]]);
      KindsOne([opening], Lexemes(inner) + [[closing]]);
    case Signed(sign, operand) => KindsOf(operand); KindsOne([sign], Lexemes(operand));
    case Not(operand) => KindsOf(operand); NotIsALexeme(); KindsOne(NOT, Lexemes(operand));
    case Infix(left, op, right) =>
      KindsOf(left);
      KindsOf(right);
      KindsOne([op], Lexemes(right));
      KindsBoth(Lexemes(left), [[op]] + Lexemes(right));
    case Join(left, word, right) =>
      KindsOf(left);
      KindsOf(right);
      KindsOne(word, Lexemes(right));
      KindsBoth(Lexemes(left), [word] + Lexemes(right));
  }

  /** The source of an expression reads as its tokens; so what the guard accepts of it is low. */
  lemma PrintedIsRead(e: Expr)
    requires Formed(e)
    ensures Tokens(Print(e), 0) == TokensOf(e)
    ensures After(START, Tokens(Print(e), 0)).Some? ==> Height(e) <= 1000 * 501 + 500
  {
    KindsOf(e);
    SpelledAt(Lexemes(e), Print(e), 0);
    if After(START, TokensOf(e)).Some? { AcceptedHeight(e); }
  }
}
