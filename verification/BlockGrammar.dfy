/** The ordered block grammar of the config file: one `key: value` line a field, in canonical order,
    each at most once; and the two blocks it spells, a mount and a tool.

    Which characters are whitespace, and which tokens are well-formed pins, are parameters. A block's
    body is the list of its lines, each with its number in the file. */
module BlockGrammar {
  import opened Bytes
  import opened Names
  import opened Positions

  const MOUNT_FIELDS: seq<string> := ["name", "path", "primary", "vault", "pin", "alias"]
  const TOOL_FIELDS: seq<string> := ["name", "kind", "config"]

  datatype Reason =
    | UnterminatedBlock | MalformedLine | UnknownField | DuplicateField | FieldOutOfOrder | MissingRequiredField | BadValue

  datatype Fault = Fault(reason: Reason, line: nat)

  /** One line read as a field. */
  datatype Field = Field(line: nat, key: string, value: string)

  // ---- canonical order -------------------------------------------------------------------

  function IndexOf(legal: seq<string>, key: string): (r: Option<nat>)
    ensures r.Some? ==> r.value < |legal| && legal[r.value] == key
    ensures r.None? <==> key !in legal
  {
    if legal == [] then None
    else if legal[0] == key then Some(0)
    else
      var rest := IndexOf(legal[1..], key);
      if rest.Some? then Some(rest.value + 1) else None
  }

  predicate Distinct(legal: seq<string>) { forall i, j | 0 <= i < |legal| && 0 <= j < |legal| && legal[i] == legal[j] :: i == j }

  predicate Known(legal: seq<string>, f: Field) { IndexOf(legal, f.key).Some? }

  function Place(legal: seq<string>, f: Field): nat
    requires Known(legal, f)
  {
    IndexOf(legal, f.key).value
  }

  /** Every field known, each at a later place than the one before. */
  ghost predicate Increasing(legal: seq<string>, fields: seq<Field>) {
    && (forall f :: f in fields ==> Known(legal, f))
    && (forall i, j | 0 <= i < j < |fields| :: Place(legal, fields[i]) < Place(legal, fields[j]))
  }

  /** What is wrong with one more field, after fields that are in order. Out of order points at the
      field it should have preceded. */
  function Deviation(legal: seq<string>, taken: seq<Field>, f: Field): Option<Fault>
    requires forall t :: t in taken ==> Known(legal, t)
  {
    if !Known(legal, f) then Some(Fault(UnknownField, f.line))
    else if exists t :: t in taken && t.key == f.key then Some(Fault(DuplicateField, f.line))
    else if taken != [] && Place(legal, f) < Place(legal, taken[|taken| - 1]) then Some(Fault(FieldOutOfOrder, taken[|taken| - 1].line))
    else None
  }

  lemma SameKeySamePlace(legal: seq<string>, a: Field, b: Field)
    requires Known(legal, a) && Known(legal, b)
    ensures Place(legal, a) == Place(legal, b) <==> a.key == b.key
  {
  }

  /** One more field passes exactly when the order stays strictly increasing. */
  lemma PassesWhenIncreasing(legal: seq<string>, taken: seq<Field>, f: Field)
    requires Increasing(legal, taken)
    ensures Deviation(legal, taken, f).None? <==> Increasing(legal, taken + [f])
  {
    var all := taken + [f];
    assert forall i | 0 <= i < |taken| :: all[i] == taken[i] && taken[i] in taken;
    assert all[|taken|] == f && f in all;
    if Deviation(legal, taken, f).None? {
      forall i | 0 <= i < |taken| ensures Place(legal, taken[i]) < Place(legal, f) {
        SameKeySamePlace(legal, taken[i], f);
        SameKeySamePlace(legal, taken[|taken| - 1], f);
      }
    }
  }

  /** The cursor of one block: what was seen at each place, and how far along the order it stands. */
  class Fields {
    const legal: seq<string>
    var seen: seq<Option<Field>>
    var maxIndex: Option<nat>
    var maxLine: nat
    ghost var taken: seq<Field>

    ghost predicate Valid()
      reads this
    {
      && Increasing(legal, taken) && |seen| == |legal|
      && (forall t :: t in taken ==> seen[Place(legal, t)] == Some(t))
      && (forall i | 0 <= i < |seen| && seen[i].Some? :: seen[i].value in taken && Place(legal, seen[i].value) == i)
      && (taken == [] ==> maxIndex.None?)
      && (taken != [] ==> maxIndex == Some(Place(legal, taken[|taken| - 1])) && maxLine == taken[|taken| - 1].line)
    }

    constructor (legal: seq<string>)
      ensures Valid() && taken == [] && this.legal == legal
    {
      this.legal := legal;
      seen := seq(|legal|, _ => None);
      maxIndex := None;
      maxLine := 0;
      taken := [];
    }

    method Record(f: Field) returns (fault: Option<Fault>)
      requires Valid()
      modifies this
      ensures Valid() && fault == Deviation(legal, old(taken), f)
      ensures taken == if fault.None? then old(taken) + [f] else old(taken)
    {
      PassesWhenIncreasing(legal, taken, f);
      var index := IndexOf(legal, f.key);
      if index.None? { return Some(Fault(UnknownField, f.line)); }
      if seen[index.value].Some? {
        SameKeySamePlace(legal, seen[index.value].value, f);
        return Some(Fault(DuplicateField, f.line));
      }
      forall t | t in taken ensures t.key != f.key { SameKeySamePlace(legal, t, f); }
      if maxIndex.Some? && index.value < maxIndex.value { return Some(Fault(FieldOutOfOrder, maxLine)); }
      Later(f);
      seen := seen[index.value := Some(f)];
      if maxIndex.None? || index.value > maxIndex.value {
        maxIndex := Some(index.value);
        maxLine := f.line;
      }
      taken := taken + [f];
      fault := None;
    }

    lemma Later(f: Field)
      requires Valid() && Deviation(legal, taken, f).None?
      ensures forall t :: t in taken ==> Place(legal, t) < Place(legal, f)
    {
      PassesWhenIncreasing(legal, taken, f);
      var all := taken + [f];
      forall t | t in taken ensures Place(legal, t) < Place(legal, f) {
        var i :| 0 <= i < |taken| && taken[i] == t;
        assert all[i] == t && all[|taken|] == f;
      }
    }

    method Get(key: string) returns (r: Option<Field>)
      requires Valid()
      ensures r == Lookup(taken, key)
    {
      var index := IndexOf(legal, key);
      if index.None? { LookupMisses(taken, key); return None; }
      r := seen[index.value];
      if r.Some? {
        LookupFinds(legal, taken, r.value);
      } else {
        LookupMisses(taken, key);
      }
    }
  }

  function Lookup(fields: seq<Field>, key: string): Option<Field> {
    if fields == [] then None else if fields[0].key == key then Some(fields[0]) else Lookup(fields[1..], key)
  }

  lemma {:induction false} LookupMisses(fields: seq<Field>, key: string)
    requires forall f :: f in fields ==> f.key != key
    ensures Lookup(fields, key) == None
  {
    if fields != [] {
      assert fields[0] in fields;
      LookupMisses(fields[1..], key);
    }
  }

  lemma {:induction false} LookupFinds(legal: seq<string>, fields: seq<Field>, f: Field)
    requires Increasing(legal, fields) && f in fields
    ensures Lookup(fields, f.key) == Some(f)
  {
    if fields[0] == f {
    } else {
      var i :| 0 < i < |fields| && fields[i] == f;
      SameKeySamePlace(legal, fields[0], f);
      assert fields[1..][i - 1] == f;
      LookupFinds(legal, fields[1..], f);
    }
  }

  // ---- lines -----------------------------------------------------------------------------

  datatype Line = Line(n: nat, text: string)

  datatype Block = Block(fenceLine: nat, unterminated: bool, body: seq<Line>)

  /** Spaces and carriage returns are whitespace; colons and what names are made of are not. */
  ghost predicate Lawful(white: char -> bool) {
    white(' ') && white('\r') && !white(':') && forall c :: NameByte(c) ==> !white(c)
  }

  /** A terminator takes one carriage return with it. */
  function StripReturn(line: string): (r: string)
    ensures line == r || line == r + "\r"
  {
    if line != "" && line[|line| - 1] == '\r' then line[..|line| - 1] else line
  }

  /** The lines of a text, as `str::lines` gives them. */
  function TextLines(text: string): seq<string>
    decreases |text|
  {
    var k := LineEnd(text, 0);
    if text == "" then [] else if k == |text| then [text] else [StripReturn(text[..k])] + TextLines(text[k + 1..])
  }

  function Numbered(lines: seq<string>, n: nat): seq<Line> {
    if lines == [] then [] else [Line(n, lines[0])] + Numbered(lines[1..], n + 1)
  }

  /** A block's body, from the text between its fences. */
  function BodyOf(text: string, n: nat): seq<Line> { Numbered(TextLines(text), n) }

  /** The text of a body, each line terminated. */
  function TextOf(body: seq<Line>): string {
    if body == [] then "" else body[0].text + ("\n" + TextOf(body[1..]))
  }

  /** A text that one line holds and gives back whole. */
  predicate OneLine(text: string) { '\n' !in text && StripReturn(text) == text }

  lemma {:induction false} LineEndAfter(head: string, tail: string, i: nat)
    requires '\n' !in head && i <= |head|
    ensures LineEnd(head + ("\n" + tail), i) == |head|
    decreases |head| - i
  {
    var text := head + ("\n" + tail);
    if i < |head| {
      assert text[i] == head[i] && head[i] in head;
      LineEndAfter(head, tail, i + 1);
    }
  }

  lemma FirstTextLine(head: string, tail: string)
    requires '\n' !in head
    ensures TextLines(head + ("\n" + tail)) == [StripReturn(head)] + TextLines(tail)
  {
    var text := head + ("\n" + tail);
    LineEndAfter(head, tail, 0);
    assert text[..|head|] == head && text[|head| + 1..] == tail;
  }

  ghost predicate NumberedFrom(body: seq<Line>, n: nat) {
    forall i | 0 <= i < |body| :: body[i].n == n + i && OneLine(body[i].text)
  }

  lemma Reassociate(head: string, tail: string, rest: string)
    ensures (head + ("\n" + tail)) + rest == head + ("\n" + (tail + rest))
  {
  }

  lemma FirstOfBody(line: Line, tail: string)
    requires OneLine(line.text)
    ensures BodyOf(line.text + ("\n" + tail), line.n) == [line] + BodyOf(tail, line.n + 1)
  {
    FirstTextLine(line.text, tail);
    assert ([line.text] + TextLines(tail))[1..] == TextLines(tail);
  }

  /** The text of a numbered body reads back as that body, then as whatever follows it. */
  lemma {:induction false} TextReads(body: seq<Line>, n: nat, rest: string)
    requires NumberedFrom(body, n)
    ensures BodyOf(TextOf(body) + rest, n) == body + BodyOf(rest, n + |body|)
    decreases |body|
  {
    if body == [] {
      assert "" + rest == rest;
    } else {
      TextReads(body[1..], n + 1, rest);
      FirstLineReads(body[0], TextOf(body[1..]), rest);
      FirstAgain(body, BodyOf(rest, n + |body|));
    }
  }

  lemma FirstLineReads(first: Line, text: string, rest: string)
    requires OneLine(first.text)
    ensures BodyOf((first.text + ("\n" + text)) + rest, first.n) == [first] + BodyOf(text + rest, first.n + 1)
  {
    Reassociate(first.text, text, rest);
    FirstOfBody(first, text + rest);
  }

  lemma FirstAgain(body: seq<Line>, more: seq<Line>)
    requires body != []
    ensures [body[0]] + (body[1..] + more) == body + more
  {
  }

  lemma BodyIsOneLineEach(text: string, n: nat)
    ensures forall l :: l in BodyOf(text, n) ==> '\n' !in l.text
  {
    TextLinesAreLines(text);
    NumberedFor(TextLines(text), n);
  }

  lemma {:induction false} TextLinesAreLines(text: string)
    ensures forall l :: l in TextLines(text) ==> '\n' !in l
    decreases |text|
  {
    if text != "" {
      var k := LineEnd(text, 0);
      FirstLineIsLine(text);
      if k < |text| {
        TextLinesAreLines(text[k + 1..]);
        assert TextLines(text) == [StripReturn(text[..k])] + TextLines(text[k + 1..]);
      } else {
        assert TextLines(text) == [text];
      }
    }
  }

  lemma FirstLineIsLine(text: string)
    ensures var k := LineEnd(text, 0);
            '\n' !in text[..k] && '\n' !in StripReturn(text[..k]) && (k == |text| ==> '\n' !in text)
  {
    LineEndIsFirst(text, 0);
    assert text[0..LineEnd(text, 0)] == text[..LineEnd(text, 0)];
    if LineEnd(text, 0) == |text| { assert text[..|text|] == text; }
  }

  lemma {:induction false} NumberedFor(lines: seq<string>, n: nat)
    ensures forall l :: l in Numbered(lines, n) ==> l.text in lines
    decreases |lines|
  {
    if lines != [] { NumberedFor(lines[1..], n + 1); }
  }

  lemma {:induction false} LineEndIsFirst(text: string, i: nat)
    requires i <= |text|
    ensures '\n' !in text[i..LineEnd(text, i)]
    decreases |text| - i
  {
    if i < |text| && text[i] != '\n' {
      LineEndIsFirst(text, i + 1);
      assert text[i..LineEnd(text, i)] == [text[i]] + text[i + 1..LineEnd(text, i)];
    }
  }

  function TrimEnd(white: char -> bool, s: string): (r: string)
    ensures |r| <= |s| && r == s[..|r|]
    ensures r == s <==> s == "" || !white(s[|s| - 1])
  {
    if s != "" && white(s[|s| - 1]) then TrimEnd(white, s[..|s| - 1]) else s
  }

  predicate Blank(white: char -> bool, s: string) { forall i | 0 <= i < |s| :: white(s[i]) }

  function Separator(text: string, i: nat): (r: Option<nat>)
    requires i <= |text|
    ensures r.Some? ==> i <= r.value && r.value + 1 < |text| && text[r.value] == ':' && text[r.value + 1] == ' '
    decreases |text| - i
  {
    if i + 1 >= |text| then None else if text[i] == ':' && text[i + 1] == ' ' then Some(i) else Separator(text, i + 1)
  }

  /** `key`, `:`, one space, value; trailing whitespace is not part of the value. */
  function SplitField(white: char -> bool, line: Line): Option<Field> {
    var at := Separator(line.text, 0);
    if at.None? then None
    else
      var key := line.text[..at.value];
      if key == "" || exists i :: 0 <= i < |key| && white(key[i]) then None
      else Some(Field(line.n, key, TrimEnd(white, line.text[at.value + 2..])))
  }

  predicate AllKnown(legal: seq<string>, fields: seq<Field>) { forall f :: f in fields ==> Known(legal, f) }

  /** The fields of a body, up to the first line that is not one or deviates. */
  function ReadFields(white: char -> bool, legal: seq<string>, body: seq<Line>, taken: seq<Field>): Result<seq<Field>, Fault>
    requires AllKnown(legal, taken)
    decreases |body|
  {
    if body == [] then Ok(taken)
    else
      var f := SplitField(white, body[0]);
      if f.None? then Err(Fault(MalformedLine, body[0].n))
      else if Deviation(legal, taken, f.value).Some? then Err(Deviation(legal, taken, f.value).value)
      else ReadFields(white, legal, body[1..], taken + [f.value])
  }

  // ---- the mount block -------------------------------------------------------------------

  datatype Lexicon = Lexicon(white: char -> bool, pin: string -> bool)

  function Text(f: Option<Field>): Option<string> { if f.Some? then Some(f.value.value) else None }

  /** Presence first, then each value in field order. */
  function FinishMount(lex: Lexicon, fence: nat, fields: seq<Field>): Result<MountEntry, Fault> {
    var name, path := Lookup(fields, "name"), Lookup(fields, "path");
    var primary, vault := Lookup(fields, "primary"), Lookup(fields, "vault");
    var pin, alias := Lookup(fields, "pin"), Lookup(fields, "alias");
    if name.None? || path.None? then Err(Fault(MissingRequiredField, fence))
    else if !CheckName(name.value.value) then Err(Fault(BadValue, name.value.line))
    else if Blank(lex.white, path.value.value) then Err(Fault(BadValue, path.value.line))
    else if primary.Some? && primary.value.value != "true" then Err(Fault(BadValue, primary.value.line))
    else if vault.Some? && Blank(lex.white, vault.value.value) then Err(Fault(BadValue, vault.value.line))
    else if pin.Some? && !lex.pin(pin.value.value) then Err(Fault(BadValue, pin.value.line))
    else if alias.Some? && (Blank(lex.white, alias.value.value) || !CheckName(alias.value.value)) then Err(Fault(BadValue, alias.value.line))
    else Ok(MountEntry(name.value.value, path.value.value, primary.Some?, Text(vault), Text(pin), Text(alias)))
  }

  function ParsedMount(lex: Lexicon, block: Block): Result<MountEntry, Fault> {
    if block.unterminated then Err(Fault(UnterminatedBlock, block.fenceLine))
    else
      match ReadFields(lex.white, MOUNT_FIELDS, block.body, [])
      case Err(fault) => Err(fault)
      case Ok(fields) => FinishMount(lex, block.fenceLine, fields)
  }

  method CollectFields(white: char -> bool, legal: seq<string>, body: seq<Line>) returns (fields: Fields, fault: Option<Fault>)
    ensures fields.Valid() && fields.legal == legal && fresh(fields)
    ensures ReadFields(white, legal, body, []) == if fault.Some? then Err(fault.value) else Ok(fields.taken)
  {
    fields := new Fields(legal);
    for i := 0 to |body|
      invariant fields.Valid() && fields.legal == legal && fresh(fields)
      invariant ReadFields(white, legal, body[i..], fields.taken) == ReadFields(white, legal, body, [])
    {
      assert body[i..][0] == body[i] && body[i..][1..] == body[i + 1..];
      var f := SplitField(white, body[i]);
      if f.None? { return fields, Some(Fault(MalformedLine, body[i].n)); }
      var deviation := fields.Record(f.value);
      if deviation.Some? { return fields, deviation; }
    }
    fault := None;
  }

  method ParseMount(lex: Lexicon, block: Block) returns (r: Result<MountEntry, Fault>)
    ensures r == ParsedMount(lex, block)
  {
    if block.unterminated { return Err(Fault(UnterminatedBlock, block.fenceLine)); }
    var fields, fault := CollectFields(lex.white, MOUNT_FIELDS, block.body);
    if fault.Some? { return Err(fault.value); }
    var name := fields.Get("name");
    if name.None? { return Err(Fault(MissingRequiredField, block.fenceLine)); }
    var path := fields.Get("path");
    if path.None? { return Err(Fault(MissingRequiredField, block.fenceLine)); }
    if !CheckName(name.value.value) { return Err(Fault(BadValue, name.value.line)); }
    if Blank(lex.white, path.value.value) { return Err(Fault(BadValue, path.value.line)); }
    var primary := fields.Get("primary");
    if primary.Some? && primary.value.value != "true" { return Err(Fault(BadValue, primary.value.line)); }
    var vault := fields.Get("vault");
    if vault.Some? && Blank(lex.white, vault.value.value) { return Err(Fault(BadValue, vault.value.line)); }
    var pin := fields.Get("pin");
    if pin.Some? && !lex.pin(pin.value.value) { return Err(Fault(BadValue, pin.value.line)); }
    var alias := fields.Get("alias");
    if alias.Some? && (Blank(lex.white, alias.value.value) || !CheckName(alias.value.value)) {
      return Err(Fault(BadValue, alias.value.line));
    }
    return Ok(MountEntry(name.value.value, path.value.value, primary.Some?, Text(vault), Text(pin), Text(alias)));
  }

  /** A body passes `Record` line by line exactly when the places of its fields strictly increase. */
  lemma {:induction false} BodyPassesWhenIncreasing(white: char -> bool, legal: seq<string>, body: seq<Line>, taken: seq<Field>)
    requires Increasing(legal, taken)
    requires forall i | 0 <= i < |body| :: SplitField(white, body[i]).Some?
    ensures ReadFields(white, legal, body, taken).Ok? <==> Increasing(legal, taken + Split(white, body))
    ensures ReadFields(white, legal, body, taken).Ok? ==> ReadFields(white, legal, body, taken).value == taken + Split(white, body)
    decreases |body|
  {
    if body == [] {
      assert taken + [] == taken;
    } else {
      var f := SplitField(white, body[0]).value;
      PassesWhenIncreasing(legal, taken, f);
      Regroup(taken, f, Split(white, body[1..]));
      if Increasing(legal, taken + [f]) {
        BodyPassesWhenIncreasing(white, legal, body[1..], taken + [f]);
      } else {
        PrefixIncreases(legal, taken + [f], Split(white, body[1..]));
      }
    }
  }

  lemma Regroup(a: seq<Field>, f: Field, rest: seq<Field>)
    ensures (a + [f]) + rest == a + ([f] + rest)
  {
  }

  lemma PrefixIncreases(legal: seq<string>, a: seq<Field>, b: seq<Field>)
    requires !Increasing(legal, a)
    ensures !Increasing(legal, a + b)
  {
    if Increasing(legal, a + b) {
      assert forall i | 0 <= i < |a| :: (a + b)[i] == a[i];
      assert Increasing(legal, a);
    }
  }

  function Split(white: char -> bool, body: seq<Line>): seq<Field>
    requires forall i | 0 <= i < |body| :: SplitField(white, body[i]).Some?
  {
    if body == [] then [] else [SplitField(white, body[0]).value] + Split(white, body[1..])
  }

  // ---- printing in canonical order ---------------------------------------------------------

  function Printed(key: string, value: string): string { key + (": " + value) }

  /** A line for each value there is, in the fields' order. */
  function PrintFrom(legal: seq<string>, values: seq<Option<string>>, i: nat, n: nat): seq<Line>
    requires |values| == |legal| && i <= |legal|
    decreases |legal| - i
  {
    if i == |legal| then []
    else if values[i].Some? then [Line(n, Printed(legal[i], values[i].value))] + PrintFrom(legal, values, i + 1, n + 1)
    else PrintFrom(legal, values, i + 1, n)
  }

  function FieldsFrom(white: char -> bool, legal: seq<string>, values: seq<Option<string>>, i: nat, n: nat): seq<Field>
    requires |values| == |legal| && i <= |legal|
    decreases |legal| - i
  {
    if i == |legal| then []
    else if values[i].Some? then
      [Field(n, legal[i], TrimEnd(white, values[i].value))] + FieldsFrom(white, legal, values, i + 1, n + 1)
    else FieldsFrom(white, legal, values, i + 1, n)
  }

  predicate Key(key: string) { key != "" && forall i | 0 <= i < |key| :: NameByte(key[i]) }

  lemma {:induction false} SeparatorAt(text: string, i: nat, at: nat)
    requires i <= at && at + 1 < |text| && text[at] == ':' && text[at + 1] == ' '
    requires forall k | i <= k < at :: text[k] != ':'
    ensures Separator(text, i) == Some(at)
    decreases at - i
  {
    if i < at { SeparatorAt(text, i + 1, at); }
  }

  lemma SplitFieldAt(white: char -> bool, line: Line, at: nat)
    requires Separator(line.text, 0) == Some(at) && 0 < at && at + 2 <= |line.text|
    requires forall i | 0 <= i < at :: !white(line.text[i])
    ensures SplitField(white, line) == Some(Field(line.n, line.text[..at], TrimEnd(white, line.text[at + 2..])))
  {
  }

  lemma PrintedParts(key: string, value: string)
    ensures var text := Printed(key, value);
            && |text| == |key| + 2 + |value| && text[|key|] == ':' && text[|key| + 1] == ' '
            && text[..|key|] == key && text[|key| + 2..] == value
            && forall i | 0 <= i < |key| :: text[i] == key[i]
  {
  }

  lemma SplitPrinted(white: char -> bool, key: string, value: string, n: nat)
    requires Lawful(white) && Key(key)
    ensures SplitField(white, Line(n, Printed(key, value))) == Some(Field(n, key, TrimEnd(white, value)))
  {
    PrintedParts(key, value);
    SeparatorAt(Printed(key, value), 0, |key|);
    SplitFieldAt(white, Line(n, Printed(key, value)), |key|);
  }

  lemma {:induction false} PrintedSplits(white: char -> bool, legal: seq<string>, values: seq<Option<string>>, i: nat, n: nat)
    requires |values| == |legal| && i <= |legal| && Lawful(white) && forall k :: k in legal ==> Key(k)
    ensures forall j | 0 <= j < |PrintFrom(legal, values, i, n)| :: SplitField(white, PrintFrom(legal, values, i, n)[j]).Some?
    ensures Split(white, PrintFrom(legal, values, i, n)) == FieldsFrom(white, legal, values, i, n)
    decreases |legal| - i
  {
    if i < |legal| {
      if values[i].Some? {
        PrintedSplits(white, legal, values, i + 1, n + 1);
        SplitPrinted(white, legal[i], values[i].value, n);
        var rest := PrintFrom(legal, values, i + 1, n + 1);
        assert ([Line(n, Printed(legal[i], values[i].value))] + rest)[1..] == rest;
      } else {
        PrintedSplits(white, legal, values, i + 1, n);
      }
    }
  }

  lemma {:induction false} IndexOfAt(legal: seq<string>, i: nat)
    requires Distinct(legal) && i < |legal|
    ensures IndexOf(legal, legal[i]) == Some(i)
  {
    var found := IndexOf(legal, legal[i]).value;
    assert legal[found] == legal[i];
  }

  ghost predicate PlacedFrom(legal: seq<string>, fields: seq<Field>, i: nat) {
    Increasing(legal, fields) && forall f :: f in fields ==> i <= Place(legal, f)
  }

  lemma FirstIsPlaced(legal: seq<string>, first: Field, rest: seq<Field>, i: nat)
    requires Known(legal, first) && Place(legal, first) == i && PlacedFrom(legal, rest, i + 1)
    ensures PlacedFrom(legal, [first] + rest, i)
  {
    assert forall j | 0 <= j < |rest| :: rest[j] in rest;
  }

  lemma {:induction false} FieldsIncrease(white: char -> bool, legal: seq<string>, values: seq<Option<string>>, i: nat, n: nat)
    requires |values| == |legal| && i <= |legal| && Distinct(legal)
    ensures PlacedFrom(legal, FieldsFrom(white, legal, values, i, n), i)
    decreases |legal| - i
  {
    if i < |legal| {
      IndexOfAt(legal, i);
      if values[i].Some? {
        FieldsIncrease(white, legal, values, i + 1, n + 1);
        FirstIsPlaced(legal, Field(n, legal[i], TrimEnd(white, values[i].value)), FieldsFrom(white, legal, values, i + 1, n + 1), i);
      } else {
        FieldsIncrease(white, legal, values, i + 1, n);
      }
    }
  }

  /** Looking a field up finds the value it was printed from. */
  lemma {:induction false} LookupPrinted(white: char -> bool, legal: seq<string>, values: seq<Option<string>>, i: nat, n: nat, k: nat)
    requires |values| == |legal| && i <= k < |legal| && Distinct(legal)
    ensures Text(Lookup(FieldsFrom(white, legal, values, i, n), legal[k]))
            == if values[k].Some? then Some(TrimEnd(white, values[k].value)) else None
    decreases |legal| - i
  {
    var next := if values[i].Some? then n + 1 else n;
    if i == k {
      FieldsIncrease(white, legal, values, i + 1, next);
      IndexOfAt(legal, k);
      var rest := FieldsFrom(white, legal, values, i + 1, next);
      LookupMisses(rest, legal[k]);
    } else {
      LookupPrinted(white, legal, values, i + 1, next, k);
    }
  }

  /** Whatever is printed in canonical order reads back, field by field, trailing whitespace aside. */
  lemma PrintedReads(white: char -> bool, legal: seq<string>, values: seq<Option<string>>, n: nat)
    requires |values| == |legal| && Lawful(white) && Distinct(legal) && forall k :: k in legal ==> Key(k)
    ensures ReadFields(white, legal, PrintFrom(legal, values, 0, n), []) == Ok(FieldsFrom(white, legal, values, 0, n))
  {
    PrintedSplits(white, legal, values, 0, n);
    FieldsIncrease(white, legal, values, 0, n);
    var fields := FieldsFrom(white, legal, values, 0, n);
    assert [] + fields == fields;
    BodyPassesWhenIncreasing(white, legal, PrintFrom(legal, values, 0, n), []);
  }

  // ---- mounts come back ------------------------------------------------------------------

  function MountValues(e: MountEntry): seq<Option<string>> {
    [Some(e.name), Some(e.path), if e.primary then Some("true") else None, e.vault, e.pin, e.alias]
  }

  function PrintMount(e: MountEntry, n: nat): seq<Line> {
    assert |MOUNT_FIELDS| == 6;
    PrintFrom(MOUNT_FIELDS, MountValues(e), 0, n)
  }

  predicate Trimmed(white: char -> bool, s: string) { s == "" || !white(s[|s| - 1]) }

  /** A value one field line can carry. */
  predicate Carried(white: char -> bool, s: string) { Trimmed(white, s) && '\n' !in s }

  /** The entries the grammar can spell. */
  predicate LegalMount(lex: Lexicon, e: MountEntry) {
    && CheckName(e.name)
    && Carried(lex.white, e.path) && !Blank(lex.white, e.path)
    && (e.vault.Some? ==> Carried(lex.white, e.vault.value) && !Blank(lex.white, e.vault.value))
    && (e.pin.Some? ==> Carried(lex.white, e.pin.value) && lex.pin(e.pin.value))
    && (e.alias.Some? ==> CheckName(e.alias.value))
  }

  /** Every value there is fits its line. */
  ghost predicate AllCarried(white: char -> bool, values: seq<Option<string>>) {
    forall i | 0 <= i < |values| && values[i].Some? :: Carried(white, values[i].value)
  }

  lemma MountFieldNames()
    ensures Distinct(MOUNT_FIELDS) && forall k :: k in MOUNT_FIELDS ==> Key(k)
  {
    NamesAreKeys();
    assert MOUNT_FIELDS[0][0] == 'n' && MOUNT_FIELDS[1][0] == 'p' && MOUNT_FIELDS[1][1] == 'a';
    assert MOUNT_FIELDS[2][0] == 'p' && MOUNT_FIELDS[2][1] == 'r' && MOUNT_FIELDS[3][0] == 'v';
    assert MOUNT_FIELDS[4][0] == 'p' && MOUNT_FIELDS[4][1] == 'i' && MOUNT_FIELDS[5][0] == 'a';
  }

  lemma NamesAreKeys()
    ensures Key("name") && Key("path") && Key("primary") && Key("vault") && Key("pin") && Key("alias")
  {
  }

  lemma TrimmedName(white: char -> bool, name: string)
    requires Lawful(white)
    ensures CheckName(TrimEnd(white, name)) && TrimEnd(white, name) == name <==> CheckName(name)
  {
  }

  lemma FinishIsOkWhenLegal(lex: Lexicon, fence: nat, fields: seq<Field>, e: MountEntry)
    requires Lawful(lex.white) && Fits(lex.white, e)
    requires Text(Lookup(fields, "name")) == Some(TrimEnd(lex.white, e.name))
    requires Text(Lookup(fields, "path")) == Some(TrimEnd(lex.white, e.path))
    requires Text(Lookup(fields, "primary")) == if e.primary then Some("true") else None
    requires Text(Lookup(fields, "vault")) == if e.vault.Some? then Some(TrimEnd(lex.white, e.vault.value)) else None
    requires Text(Lookup(fields, "pin")) == if e.pin.Some? then Some(TrimEnd(lex.white, e.pin.value)) else None
    requires Text(Lookup(fields, "alias")) == if e.alias.Some? then Some(TrimEnd(lex.white, e.alias.value)) else None
    ensures FinishMount(lex, fence, fields) == Ok(e) <==> LegalMount(lex, e)
  {
    TrimmedName(lex.white, e.name);
    if e.alias.Some? { TrimmedName(lex.white, e.alias.value); }
  }

  lemma MountLookups(lex: Lexicon, e: MountEntry, n: nat)
    requires Lawful(lex.white)
    ensures var fields := FieldsFrom(lex.white, MOUNT_FIELDS, MountValues(e), 0, n);
            && Text(Lookup(fields, "name")) == Some(TrimEnd(lex.white, e.name))
            && Text(Lookup(fields, "path")) == Some(TrimEnd(lex.white, e.path))
            && Text(Lookup(fields, "primary")) == (if e.primary then Some("true") else None)
            && Text(Lookup(fields, "vault")) == (if e.vault.Some? then Some(TrimEnd(lex.white, e.vault.value)) else None)
            && Text(Lookup(fields, "pin")) == (if e.pin.Some? then Some(TrimEnd(lex.white, e.pin.value)) else None)
            && Text(Lookup(fields, "alias")) == if e.alias.Some? then Some(TrimEnd(lex.white, e.alias.value)) else None
  {
    MountFieldNames();
    var white, values := lex.white, MountValues(e);
    LookupPrinted(white, MOUNT_FIELDS, values, 0, n, 0);
    LookupPrinted(white, MOUNT_FIELDS, values, 0, n, 1);
    LookupPrinted(white, MOUNT_FIELDS, values, 0, n, 2);
    LookupPrinted(white, MOUNT_FIELDS, values, 0, n, 3);
    LookupPrinted(white, MOUNT_FIELDS, values, 0, n, 4);
    LookupPrinted(white, MOUNT_FIELDS, values, 0, n, 5);
    assert NameByte("true"[3]);
  }

  lemma {:induction false} PrintedIsNumbered(white: char -> bool, legal: seq<string>, values: seq<Option<string>>, i: nat, n: nat)
    requires |values| == |legal| && i <= |legal| && Lawful(white) && AllCarried(white, values) && forall k :: k in legal ==> Key(k)
    ensures NumberedFrom(PrintFrom(legal, values, i, n), n)
    decreases |legal| - i
  {
    if i < |legal| {
      if values[i].Some? {
        PrintedIsNumbered(white, legal, values, i + 1, n + 1);
        PrintedIsOneLine(white, legal[i], values[i].value);
      } else {
        PrintedIsNumbered(white, legal, values, i + 1, n);
      }
    }
  }

  lemma PrintedIsOneLine(white: char -> bool, key: string, value: string)
    requires Lawful(white) && Key(key) && Carried(white, value)
    ensures OneLine(Printed(key, value))
  {
    var text := Printed(key, value);
    forall i | 0 <= i < |text| ensures text[i] != '\n' {
      if |key| + 2 <= i { assert text[i] == value[i - |key| - 2]; }
    }
    if value != "" { assert text[|text| - 1] == value[|value| - 1]; }
  }

  ghost predicate AllFitting(white: char -> bool, fields: seq<Field>) { forall f :: f in fields ==> Carried(white, f.value) }

  lemma {:induction false} ReadFits(white: char -> bool, legal: seq<string>, body: seq<Line>, taken: seq<Field>)
    requires AllKnown(legal, taken) && AllFitting(white, taken) && ReadFields(white, legal, body, taken).Ok?
    requires forall l :: l in body ==> '\n' !in l.text
    ensures AllFitting(white, ReadFields(white, legal, body, taken).value)
    decreases |body|
  {
    if body != [] {
      var f := SplitField(white, body[0]).value;
      assert body[0] in body;
      SplitFits(white, body[0]);
      ReadFits(white, legal, body[1..], taken + [f]);
    }
  }

  lemma SplitFits(white: char -> bool, line: Line)
    requires '\n' !in line.text && SplitField(white, line).Some?
    ensures Carried(white, SplitField(white, line).value.value)
  {
    var at := Separator(line.text, 0).value;
    TrimEndIsTrimmed(white, line.text[at + 2..]);
  }

  lemma {:induction false} TrimEndIsTrimmed(white: char -> bool, s: string)
    ensures Trimmed(white, TrimEnd(white, s))
    decreases |s|
  {
    if s != "" && white(s[|s| - 1]) { TrimEndIsTrimmed(white, s[..|s| - 1]); }
  }

  lemma {:induction false} LookupFits(white: char -> bool, fields: seq<Field>, key: string)
    requires AllFitting(white, fields)
    ensures Lookup(fields, key).Some? ==> Carried(white, Lookup(fields, key).value.value)
  {
    if fields != [] { LookupFits(white, fields[1..], key); }
  }

  lemma FinishFits(lex: Lexicon, fence: nat, fields: seq<Field>)
    requires Lawful(lex.white) && AllFitting(lex.white, fields) && FinishMount(lex, fence, fields).Ok?
    ensures Fits(lex.white, FinishMount(lex, fence, fields).value)
  {
    LookupFits(lex.white, fields, "name");
    LookupFits(lex.white, fields, "path");
    LookupFits(lex.white, fields, "vault");
    LookupFits(lex.white, fields, "pin");
    LookupFits(lex.white, fields, "alias");
  }

  predicate Fits(white: char -> bool, e: MountEntry) {
    && Carried(white, e.name) && Carried(white, e.path)
    && (e.vault.Some? ==> Carried(white, e.vault.value))
    && (e.pin.Some? ==> Carried(white, e.pin.value))
    && (e.alias.Some? ==> Carried(white, e.alias.value))
  }

  lemma FitsMeansAll(white: char -> bool, e: MountEntry)
    requires Lawful(white)
    ensures Fits(white, e) <==> AllCarried(white, MountValues(e))
  {
    var values := MountValues(e);
    NameIsCarried(white, "true");
    assert values[0] == Some(e.name) && values[1] == Some(e.path) && values[3] == e.vault && values[4] == e.pin && values[5] == e.alias;
  }

  /** What a parse of lines gives fits on lines. */
  lemma ParsedFits(lex: Lexicon, block: Block)
    requires Lawful(lex.white) && (forall l :: l in block.body ==> '\n' !in l.text) && ParsedMount(lex, block).Ok?
    ensures Fits(lex.white, ParsedMount(lex, block).value)
  {
    ReadFits(lex.white, MOUNT_FIELDS, block.body, []);
    FinishFits(lex, block.fenceLine, ReadFields(lex.white, MOUNT_FIELDS, block.body, []).value);
  }

  lemma LegalFits(lex: Lexicon, e: MountEntry)
    requires Lawful(lex.white) && LegalMount(lex, e)
    ensures Fits(lex.white, e)
  {
    NameIsCarried(lex.white, e.name);
    if e.alias.Some? { NameIsCarried(lex.white, e.alias.value); }
  }

  lemma NameIsCarried(white: char -> bool, name: string)
    requires Lawful(white) && (CheckName(name) || name == "true")
    ensures Carried(white, name)
  {
  }

  /** Printing an entry in canonical order, as text, and parsing the lines of that text gives it back
      exactly when it is legal. */
  lemma MountComesBack(lex: Lexicon, e: MountEntry, fence: nat)
    requires Lawful(lex.white)
    ensures ParsedMount(lex, Block(fence, false, BodyOf(TextOf(PrintMount(e, fence + 1)), fence + 1))) == Ok(e) <==> LegalMount(lex, e)
  {
    var lines := PrintMount(e, fence + 1);
    var body := BodyOf(TextOf(lines), fence + 1);
    BodyIsOneLineEach(TextOf(lines), fence + 1);
    if ParsedMount(lex, Block(fence, false, body)) == Ok(e) { ParsedFits(lex, Block(fence, false, body)); }
    if LegalMount(lex, e) { LegalFits(lex, e); }
    FitsMeansAll(lex.white, e);
    if Fits(lex.white, e) {
      MountFieldNames();
      PrintedIsNumbered(lex.white, MOUNT_FIELDS, MountValues(e), 0, fence + 1);
      TextReads(lines, fence + 1, "");
      assert TextOf(lines) + "" == TextOf(lines) && lines + [] == lines;
      LinesComeBack(lex, e, fence);
    }
  }

  lemma LinesComeBack(lex: Lexicon, e: MountEntry, fence: nat)
    requires Lawful(lex.white) && Fits(lex.white, e)
    ensures ParsedMount(lex, Block(fence, false, PrintMount(e, fence + 1))) == Ok(e) <==> LegalMount(lex, e)
  {
    var values := MountValues(e);
    MountFieldNames();
    PrintedReads(lex.white, MOUNT_FIELDS, values, fence + 1);
    MountLookups(lex, e, fence + 1);
    FinishIsOkWhenLegal(lex, fence, FieldsFrom(lex.white, MOUNT_FIELDS, values, 0, fence + 1), e);
  }

  // ---- tools -----------------------------------------------------------------------------

  datatype ToolDecl = ToolDecl(name: string, kind: string, config: Option<string>)

  predicate Indented(text: string) { text != "" && (text[0] == ' ' || text[0] == '\t') }

  /** `config:` on its own: everything after it is the payload. */
  predicate IsMarker(white: char -> bool, text: string) { TrimEnd(white, text) == "config:" }

  /** The payload lines, verbatim; the first that is not indented refuses. */
  function ReadPayload(body: seq<Line>): Result<seq<string>, Fault> {
    if body == [] then Ok([])
    else if !Indented(body[0].text) then Err(Fault(MalformedLine, body[0].n))
    else
      match ReadPayload(body[1..])
      case Err(fault) => Err(fault)
      case Ok(rest) => Ok([body[0].text] + rest)
  }

  datatype ToolBody = ToolBody(fields: seq<Field>, payload: Option<seq<string>>)

  function ReadTool(white: char -> bool, body: seq<Line>, taken: seq<Field>): Result<ToolBody, Fault>
    requires AllKnown(TOOL_FIELDS, taken)
    decreases |body|
  {
    if body == [] then Ok(ToolBody(taken, None))
    else if IsMarker(white, body[0].text) then
      var marker := Field(body[0].n, "config", "");
      var deviation := Deviation(TOOL_FIELDS, taken, marker);
      if deviation.Some? then Err(deviation.value)
      else
        match ReadPayload(body[1..])
        case Err(fault) => Err(fault)
        case Ok(payload) => Ok(ToolBody(taken + [marker], Some(payload)))
    else
      var f := SplitField(white, body[0]);
      if f.None? then Err(Fault(MalformedLine, body[0].n))
      else if Deviation(TOOL_FIELDS, taken, f.value).Some? then Err(Deviation(TOOL_FIELDS, taken, f.value).value)
      else ReadTool(white, body[1..], taken + [f.value])
  }

  function Joined(lines: seq<string>): string {
    if lines == [] then "" else if |lines| == 1 then lines[0] else lines[0] + ("\n" + Joined(lines[1..]))
  }

  function FinishTool(fence: nat, body: ToolBody): Result<ToolDecl, Fault> {
    var name, kind := Lookup(body.fields, "name"), Lookup(body.fields, "kind");
    if name.None? || kind.None? then Err(Fault(MissingRequiredField, fence))
    else if !CheckName(name.value.value) then Err(Fault(BadValue, name.value.line))
    else if !CheckName(kind.value.value) then Err(Fault(BadValue, kind.value.line))
    else Ok(ToolDecl(name.value.value, kind.value.value,
                     if body.payload.Some? then Some(Joined(body.payload.value) + "\n") else None))
  }

  function ParsedTool(white: char -> bool, block: Block): Result<ToolDecl, Fault> {
    if block.unterminated then Err(Fault(UnterminatedBlock, block.fenceLine))
    else
      match ReadTool(white, block.body, [])
      case Err(fault) => Err(fault)
      case Ok(body) => FinishTool(block.fenceLine, body)
  }

  function Onto(collected: seq<string>, r: Result<seq<string>, Fault>): Result<seq<string>, Fault> {
    match r
    case Err(fault) => Err(fault)
    case Ok(rest) => Ok(collected + rest)
  }

  lemma OntoOne(collected: seq<string>, line: string, rest: seq<string>)
    ensures (collected + [line]) + rest == collected + ([line] + rest)
  {
  }

  method CollectPayload(body: seq<Line>) returns (r: Result<seq<string>, Fault>)
    ensures r == ReadPayload(body)
  {
    var collected: seq<string> := [];
    assert body[0..] == body;
    if ReadPayload(body).Ok? { assert [] + ReadPayload(body).value == ReadPayload(body).value; }
    for i := 0 to |body|
      invariant ReadPayload(body) == Onto(collected, ReadPayload(body[i..]))
    {
      assert body[i..][0] == body[i] && body[i..][1..] == body[i + 1..];
      if !Indented(body[i].text) { return Err(Fault(MalformedLine, body[i].n)); }
      var rest := ReadPayload(body[i + 1..]);
      if rest.Ok? { OntoOne(collected, body[i].text, rest.value); }
      collected := collected + [body[i].text];
    }
    assert collected + [] == collected;
    r := Ok(collected);
  }

  method CollectTool(white: char -> bool, body: seq<Line>) returns (fields: Fields, r: Result<Option<seq<string>>, Fault>)
    ensures fields.Valid() && fresh(fields)
    ensures ReadTool(white, body, []) == match r case Err(fault) => Err(fault) case Ok(payload) => Ok(ToolBody(fields.taken, payload))
  {
    fields := new Fields(TOOL_FIELDS);
    for i := 0 to |body|
      invariant fields.Valid() && fields.legal == TOOL_FIELDS && fresh(fields)
      invariant ReadTool(white, body[i..], fields.taken) == ReadTool(white, body, [])
    {
      assert body[i..][0] == body[i] && body[i..][1..] == body[i + 1..];
      if IsMarker(white, body[i].text) {
        var deviation := fields.Record(Field(body[i].n, "config", ""));
        if deviation.Some? { return fields, Err(deviation.value); }
        var payload := CollectPayload(body[i + 1..]);
        if payload.Err? { return fields, Err(payload.error); }
        return fields, Ok(Some(payload.value));
      }
      var f := SplitField(white, body[i]);
      if f.None? { return fields, Err(Fault(MalformedLine, body[i].n)); }
      var deviation := fields.Record(f.value);
      if deviation.Some? { return fields, Err(deviation.value); }
    }
    r := Ok(None);
  }

  method ParseTool(white: char -> bool, block: Block) returns (r: Result<ToolDecl, Fault>)
    ensures r == ParsedTool(white, block)
  {
    if block.unterminated { return Err(Fault(UnterminatedBlock, block.fenceLine)); }
    var fields, payload := CollectTool(white, block.body);
    if payload.Err? { return Err(payload.error); }
    var name := fields.Get("name");
    if name.None? { return Err(Fault(MissingRequiredField, block.fenceLine)); }
    var kind := fields.Get("kind");
    if kind.None? { return Err(Fault(MissingRequiredField, block.fenceLine)); }
    if !CheckName(name.value.value) { return Err(Fault(BadValue, name.value.line)); }
    if !CheckName(kind.value.value) { return Err(Fault(BadValue, kind.value.line)); }
    return Ok(ToolDecl(name.value.value, kind.value.value,
                       if payload.value.Some? then Some(Joined(payload.value.value) + "\n") else None));
  }

  /** No newline that a carriage return would go with. */
  predicate Returnless(text: string) {
    forall i | 0 <= i < |text| - 1 :: text[i] != '\r' || text[i + 1] != '\n'
  }

  /** What a parse can make of a payload: indented lines, each ended by a newline; no lines at all make
      a newline alone. */
  predicate Payload(text: string) {
    text == "\n" || (text != "" && text[|text| - 1] == '\n' && Returnless(text) && forall l :: l in TextLines(text) ==> Indented(l))
  }

  lemma OneMoreLine(line: string, rest: string)
    requires '\n' !in line
    ensures Returnless(line + ("\n" + rest)) <==> StripReturn(line) == line && Returnless(rest)
  {
    var text := line + ("\n" + rest);
    assert forall i | 0 <= i < |line| :: text[i] == line[i] && line[i] in line;
    assert forall i | 0 <= i < |rest| :: text[|line| + 1 + i] == rest[i];
    if Returnless(text) {
      assert text[|line| - 1 + 1] == '\n';
    } else {
      var i :| 0 <= i < |text| - 1 && text[i] == '\r' && text[i + 1] == '\n';
      if |line| < i { assert text[i] == rest[i - |line| - 1] && text[i + 1] == rest[i - |line|]; }
    }
  }

  lemma FirstOfText(text: string) returns (line: string, rest: string)
    requires text != "" && text[|text| - 1] == '\n'
    ensures text == line + ("\n" + rest) && '\n' !in line && (rest != "" ==> rest[|rest| - 1] == '\n')
  {
    var k := LineEnd(text, 0);
    LineEndIsFirst(text, 0);
    assert text[0..k] == text[..k] && forall i | 0 <= i < k :: text[i] == text[..k][i];
    LineEndIsNewline(text, 0);
    line, rest := text[..k], text[k + 1..];
    AroundNewline(text, k);
  }

  lemma AroundNewline(text: string, k: nat)
    requires k < |text| && text[k] == '\n'
    ensures text == text[..k] + ("\n" + text[k + 1..])
  {
  }

  /** Joining the lines of a terminated text gives it back exactly when no newline took a carriage
      return with it. */
  lemma {:induction false} LinesJoin(text: string)
    requires text != "" && text[|text| - 1] == '\n'
    ensures TextLines(text) != [] && |Joined(TextLines(text)) + "\n"| <= |text|
    ensures Joined(TextLines(text)) + "\n" == text <==> Returnless(text)
    decreases |text|
  {
    var line, rest := FirstOfText(text);
    FirstTextLine(line, rest);
    OneMoreLine(line, rest);
    var lines := TextLines(text);
    assert lines[1..] == TextLines(rest);
    if rest == "" {
      assert TextLines(rest) == [] && Joined(lines) == StripReturn(line);
    } else {
      LinesJoin(rest);
      JoinedMore(StripReturn(line), Joined(TextLines(rest)), line, rest);
      assert Joined(lines) == StripReturn(line) + ("\n" + Joined(TextLines(rest)));
    }
  }

  lemma JoinedMore(stripped: string, joined: string, line: string, rest: string)
    requires (stripped == line || line == stripped + "\r") && |joined + "\n"| <= |rest|
    ensures |stripped + ("\n" + joined) + "\n"| <= |line + ("\n" + rest)|
    ensures stripped + ("\n" + joined) + "\n" == line + ("\n" + rest) <==> stripped == line && joined + "\n" == rest
  {
    var a, b := stripped + ("\n" + joined) + "\n", line + ("\n" + rest);
    assert a == stripped + ("\n" + (joined + "\n"));
    if a == b {
      assert |stripped| == |line|;
      assert a[|line| + 1..] == joined + "\n" && b[|line| + 1..] == rest;
    }
  }

  lemma {:induction false} PayloadReads(lines: seq<string>, n: nat)
    requires forall l :: l in lines ==> Indented(l)
    ensures ReadPayload(Numbered(lines, n)) == Ok(lines)
    decreases |lines|
  {
    if lines != [] {
      var rest := Numbered(lines[1..], n + 1);
      PayloadReads(lines[1..], n + 1);
      assert lines[0] in lines && [lines[0]] + lines[1..] == lines;
      assert ([Line(n, lines[0])] + rest)[1..] == rest;
    }
  }

  /** No payload lines at all are spelled by a newline alone. */
  function PayloadText(config: string): string { if config == "\n" then "" else config }

  function PrintTool(t: ToolDecl): string {
    if t.config.Some? then TextOf(ToolHead(t, 0) + [Line(2, "config:")]) + PayloadText(t.config.value) else TextOf(ToolHead(t, 0))
  }

  predicate LegalTool(t: ToolDecl) {
    CheckName(t.name) && CheckName(t.kind) && (t.config.Some? ==> Payload(t.config.value))
  }

  lemma ToolFieldNames()
    ensures Distinct(TOOL_FIELDS) && Key("name") && Key("kind")
    ensures IndexOf(TOOL_FIELDS, "name") == Some(0) && IndexOf(TOOL_FIELDS, "kind") == Some(1) && IndexOf(TOOL_FIELDS, "config") == Some(2)
  {
    assert TOOL_FIELDS[0][0] == 'n' && TOOL_FIELDS[1][0] == 'k' && TOOL_FIELDS[2][0] == 'c';
    IndexOfAt(TOOL_FIELDS, 0);
    IndexOfAt(TOOL_FIELDS, 1);
    IndexOfAt(TOOL_FIELDS, 2);
  }

  /** Name, kind and config are in canonical order. */
  lemma InToolOrder(name: Field, kind: Field, config: Field)
    requires name.key == "name" && kind.key == "kind" && config.key == "config"
    ensures AllKnown(TOOL_FIELDS, [name]) && AllKnown(TOOL_FIELDS, [name, kind])
    ensures Deviation(TOOL_FIELDS, [], name).None? && Deviation(TOOL_FIELDS, [name], kind).None?
    ensures Deviation(TOOL_FIELDS, [name, kind], config).None?
  {
    ToolFieldNames();
    SameKeySamePlace(TOOL_FIELDS, name, kind);
    SameKeySamePlace(TOOL_FIELDS, name, config);
    SameKeySamePlace(TOOL_FIELDS, kind, config);
  }

  /** A field line is never taken for the marker. */
  lemma NotAMarker(white: char -> bool, key: string, value: string)
    requires Key(key) && key[0] != 'c'
    ensures !IsMarker(white, Printed(key, value))
  {
    var text := Printed(key, value);
    var t := TrimEnd(white, text);
    assert text[0] == key[0];
    assert t != "" ==> t[0] == text[0];
    assert "config:"[0] == 'c';
  }

  lemma TheMarker(white: char -> bool)
    requires Lawful(white)
    ensures IsMarker(white, "config:")
  {
    assert "config:"[6] == ':';
  }

  lemma ToolLineReads(white: char -> bool, line: Line, f: Field, rest: seq<Line>, taken: seq<Field>)
    requires AllKnown(TOOL_FIELDS, taken) && !IsMarker(white, line.text) && SplitField(white, line) == Some(f)
    requires Deviation(TOOL_FIELDS, taken, f).None?
    ensures ReadTool(white, [line] + rest, taken) == ReadTool(white, rest, taken + [f])
  {
    var body := [line] + rest;
    assert body[0] == line && body[1..] == rest;
  }

  lemma NameLineReads(white: char -> bool, key: string, value: string, n: nat, rest: seq<Line>, taken: seq<Field>)
    requires Lawful(white) && Key(key) && key[0] != 'c' && CheckName(value) && AllKnown(TOOL_FIELDS, taken)
    requires Deviation(TOOL_FIELDS, taken, Field(n, key, value)).None?
    ensures ReadTool(white, [Line(n, Printed(key, value))] + rest, taken) == ReadTool(white, rest, taken + [Field(n, key, value)])
  {
    NotAMarker(white, key, value);
    SplitPrinted(white, key, value, n);
    TrimmedName(white, value);
    ToolLineReads(white, Line(n, Printed(key, value)), Field(n, key, value), rest, taken);
  }

  function ToolHead(t: ToolDecl, n: nat): seq<Line> {
    [Line(n, Printed("name", t.name))] + [Line(n + 1, Printed("kind", t.kind))]
  }

  function ToolFields(t: ToolDecl, n: nat): seq<Field> { [Field(n, "name", t.name), Field(n + 1, "kind", t.kind)] }

  /** The two field lines every tool has, read in turn. */
  lemma ToolHeadReads(white: char -> bool, t: ToolDecl, n: nat, rest: seq<Line>)
    requires Lawful(white) && CheckName(t.name) && CheckName(t.kind)
    ensures AllKnown(TOOL_FIELDS, ToolFields(t, n))
    ensures ReadTool(white, ToolHead(t, n) + rest, []) == ReadTool(white, rest, ToolFields(t, n))
  {
    var f, g := Field(n, "name", t.name), Field(n + 1, "kind", t.kind);
    var first, second := [Line(n, Printed("name", t.name))], [Line(n + 1, Printed("kind", t.kind))];
    InToolOrder(f, g, Field(0, "config", ""));
    ToolFieldNames();
    assert "name"[0] == 'n' && "kind"[0] == 'k';
    NameLineReads(white, "name", t.name, n, second + rest, []);
    NameLineReads(white, "kind", t.kind, n + 1, rest, [f]);
    assert (first + second) + rest == first + (second + rest);
    assert [] + [f] == [f] && [f] + [g] == [f, g];
  }

  /** The marker and the payload after it, under fields that do not have it yet. */
  lemma ToolPayloadReads(white: char -> bool, lines: seq<string>, n: nat, taken: seq<Field>)
    requires Lawful(white) && AllKnown(TOOL_FIELDS, taken) && (forall l :: l in lines ==> Indented(l))
    requires Deviation(TOOL_FIELDS, taken, Field(n, "config", "")).None?
    ensures ReadTool(white, [Line(n, "config:")] + Numbered(lines, n + 1), taken)
            == Ok(ToolBody(taken + [Field(n, "config", "")], Some(lines)))
  {
    var body := [Line(n, "config:")] + Numbered(lines, n + 1);
    assert body[0] == Line(n, "config:") && body[1..] == Numbered(lines, n + 1);
    TheMarker(white);
    PayloadReads(lines, n + 1);
  }

  lemma ToolFinishes(t: ToolDecl, fence: nat, body: ToolBody, line: nat)
    requires CheckName(t.name) && CheckName(t.kind) && 2 <= |body.fields|
    requires body.fields[0] == Field(line, "name", t.name) && body.fields[1] == Field(line + 1, "kind", t.kind)
    ensures FinishTool(fence, body)
         == Ok(ToolDecl(t.name, t.kind, if body.payload.Some? then Some(Joined(body.payload.value) + "\n") else None))
  {
    assert "name"[0] != "kind"[0];
    assert Lookup(body.fields, "name") == Some(body.fields[0]);
    assert body.fields[1..][0] == body.fields[1];
    assert Lookup(body.fields[1..], "kind") == Some(body.fields[1]);
  }

  lemma HeadIsNumbered(white: char -> bool, t: ToolDecl, n: nat)
    requires Lawful(white) && CheckName(t.name) && CheckName(t.kind)
    ensures NumberedFrom(ToolHead(t, n), n) && NumberedFrom(ToolHead(t, n) + [Line(n + 2, "config:")], n)
    ensures TextOf(ToolHead(t, n)) == TextOf(ToolHead(t, 0))
    ensures TextOf(ToolHead(t, n) + [Line(n + 2, "config:")]) == TextOf(ToolHead(t, 0) + [Line(2, "config:")])
  {
    ToolFieldNames();
    NameIsCarried(white, t.name);
    NameIsCarried(white, t.kind);
    PrintedIsOneLine(white, "name", t.name);
    PrintedIsOneLine(white, "kind", t.kind);
    assert OneLine("config:") by { assert "config:"[6] == ':'; }
    SameText(ToolHead(t, n), ToolHead(t, 0));
    SameText(ToolHead(t, n) + [Line(n + 2, "config:")], ToolHead(t, 0) + [Line(2, "config:")]);
  }

  lemma {:induction false} SameText(a: seq<Line>, b: seq<Line>)
    requires |a| == |b| && forall i | 0 <= i < |a| :: a[i].text == b[i].text
    ensures TextOf(a) == TextOf(b)
  {
    if a != [] { SameText(a[1..], b[1..]); }
  }

  /** What parsing a printed tool comes to: the names as they are, and the payload's lines joined, or
      the payload refused. */
  lemma PrintedToolParses(white: char -> bool, t: ToolDecl, fence: nat)
    requires Lawful(white) && CheckName(t.name) && CheckName(t.kind)
    ensures var r := ParsedTool(white, Block(fence, false, BodyOf(PrintTool(t), fence + 1)));
            if t.config.None? then r == Ok(t)
            else
              var lines := TextLines(PayloadText(t.config.value));
              if forall l :: l in lines ==> Indented(l) then r == Ok(t.(config := Some(Joined(lines) + "\n"))) else r.Err?
  {
    if t.config.None? {
      BareToolParses(white, t, fence);
    } else {
      ConfiguredToolParses(white, t, fence);
    }
  }

  lemma BareToolParses(white: char -> bool, t: ToolDecl, fence: nat)
    requires Lawful(white) && CheckName(t.name) && CheckName(t.kind) && t.config.None?
    ensures ParsedTool(white, Block(fence, false, BodyOf(PrintTool(t), fence + 1))) == Ok(t)
  {
    var n := fence + 1;
    HeadIsNumbered(white, t, n);
    TextReads(ToolHead(t, n), n, "");
    assert TextOf(ToolHead(t, n)) + "" == TextOf(ToolHead(t, n));
    ToolHeadReads(white, t, n, []);
    ToolFinishes(t, fence, ToolBody(ToolFields(t, n), None), n);
  }

  lemma Regrouped(a: seq<Line>, b: seq<Line>, c: seq<Line>)
    ensures (a + b) + c == a + (b + c)
  {
  }

  lemma MarkedReads(head: seq<Line>, mark: Line, n: nat, text: string)
    requires NumberedFrom(head + [mark], n)
    ensures BodyOf(TextOf(head + [mark]) + text, n) == head + ([mark] + Numbered(TextLines(text), n + |head| + 1))
  {
    TextReads(head + [mark], n, text);
    Regrouped(head, [mark], Numbered(TextLines(text), n + |head| + 1));
  }

  /** The lines of a printed tool with a payload: its head, the marker, the payload's own. */
  lemma ConfiguredBody(white: char -> bool, t: ToolDecl, n: nat)
    requires Lawful(white) && CheckName(t.name) && CheckName(t.kind) && t.config.Some?
    ensures BodyOf(PrintTool(t), n)
         == ToolHead(t, n) + ([Line(n + 2, "config:")] + Numbered(TextLines(PayloadText(t.config.value)), n + 3))
  {
    HeadIsNumbered(white, t, n);
    MarkedReads(ToolHead(t, n), Line(n + 2, "config:"), n, PayloadText(t.config.value));
  }

  lemma ConfiguredReads(white: char -> bool, t: ToolDecl, n: nat, lines: seq<string>)
    requires Lawful(white) && CheckName(t.name) && CheckName(t.kind)
    ensures var r := ReadTool(white, ToolHead(t, n) + ([Line(n + 2, "config:")] + Numbered(lines, n + 3)), []);
            if forall l :: l in lines ==> Indented(l) then r == Ok(ToolBody(ToolFields(t, n) + [Field(n + 2, "config", "")], Some(lines)))
            else r.Err?
  {
    var fields := ToolFields(t, n);
    InToolOrder(fields[0], fields[1], Field(n + 2, "config", ""));
    ToolHeadReads(white, t, n, [Line(n + 2, "config:")] + Numbered(lines, n + 3));
    if forall l :: l in lines ==> Indented(l) {
      ToolPayloadReads(white, lines, n + 2, fields);
    } else {
      ToolPayloadRefused(white, lines, n + 2, fields);
    }
  }

  lemma ConfiguredToolParses(white: char -> bool, t: ToolDecl, fence: nat)
    requires Lawful(white) && CheckName(t.name) && CheckName(t.kind) && t.config.Some?
    ensures var r := ParsedTool(white, Block(fence, false, BodyOf(PrintTool(t), fence + 1)));
            var lines := TextLines(PayloadText(t.config.value));
            if forall l :: l in lines ==> Indented(l) then r == Ok(t.(config := Some(Joined(lines) + "\n"))) else r.Err?
  {
    var n, lines := fence + 1, TextLines(PayloadText(t.config.value));
    ConfiguredBody(white, t, n);
    ConfiguredReads(white, t, n, lines);
    ToolFinishes(t, fence, ToolBody(ToolFields(t, n) + [Field(n + 2, "config", "")], Some(lines)), n);
  }

  /** Printing a tool and parsing the lines of that text gives it back, the payload verbatim, exactly
      when it is legal. */
  lemma ToolComesBack(white: char -> bool, t: ToolDecl, fence: nat)
    requires Lawful(white)
    ensures ParsedTool(white, Block(fence, false, BodyOf(PrintTool(t), fence + 1))) == Ok(t) <==> LegalTool(t)
  {
    var body := BodyOf(PrintTool(t), fence + 1);
    if ParsedTool(white, Block(fence, false, body)) == Ok(t) { var _ := ParsedToolIsLegal(white, body, fence); }
    if CheckName(t.name) && CheckName(t.kind) {
      PrintedToolParses(white, t, fence);
      if t.config.Some? { PayloadComesBack(t.config.value); }
    }
  }

  lemma PayloadComesBack(config: string)
    ensures var lines := TextLines(PayloadText(config));
            (forall l :: l in lines ==> Indented(l)) && Joined(lines) + "\n" == config <==> Payload(config)
  {
    var lines := TextLines(PayloadText(config));
    var back := Joined(lines) + "\n";
    assert back[|back| - 1] == '\n';
    if config != "" && config[|config| - 1] == '\n' && config != "\n" { LinesJoin(config); }
  }

  lemma ToolPayloadRefused(white: char -> bool, lines: seq<string>, n: nat, taken: seq<Field>)
    requires Lawful(white) && AllKnown(TOOL_FIELDS, taken) && !(forall l :: l in lines ==> Indented(l))
    requires Deviation(TOOL_FIELDS, taken, Field(n, "config", "")).None?
    ensures ReadTool(white, [Line(n, "config:")] + Numbered(lines, n + 1), taken).Err?
  {
    var body := [Line(n, "config:")] + Numbered(lines, n + 1);
    assert body[0] == Line(n, "config:") && body[1..] == Numbered(lines, n + 1);
    TheMarker(white);
    PayloadRefused(lines, n + 1);
  }

  lemma {:induction false} PayloadRefused(lines: seq<string>, n: nat)
    requires !(forall l :: l in lines ==> Indented(l))
    ensures ReadPayload(Numbered(lines, n)).Err?
    decreases |lines|
  {
    var rest := Numbered(lines[1..], n + 1);
    assert ([Line(n, lines[0])] + rest)[1..] == rest;
    if Indented(lines[0]) { PayloadRefused(lines[1..], n + 1); }
  }

  /** And nothing else comes out of a parse: names are names, and a payload is indented lines. */
  lemma ParsedToolIsLegal(white: char -> bool, body: seq<Line>, fence: nat) returns (lines: Option<seq<string>>)
    requires ParsedTool(white, Block(fence, false, body)).Ok?
    ensures var t := ParsedTool(white, Block(fence, false, body)).value;
            && CheckName(t.name) && CheckName(t.kind)
            && t.config == (if lines.Some? then Some(Joined(lines.value) + "\n") else None)
            && (lines.Some? ==> forall l :: l in lines.value ==> Indented(l))
  {
    var read := ReadTool(white, body, []).value;
    lines := read.payload;
    if lines.Some? { ToolPayloadIsIndented(white, body, []); }
  }

  lemma {:induction false} ToolPayloadIsIndented(white: char -> bool, body: seq<Line>, taken: seq<Field>)
    requires AllKnown(TOOL_FIELDS, taken) && ReadTool(white, body, taken).Ok? && ReadTool(white, body, taken).value.payload.Some?
    ensures forall l :: l in ReadTool(white, body, taken).value.payload.value ==> Indented(l)
    decreases |body|
  {
    if IsMarker(white, body[0].text) {
      PayloadIsIndented(body[1..]);
    } else {
      ToolPayloadIsIndented(white, body[1..], taken + [SplitField(white, body[0]).value]);
    }
  }

  lemma {:induction false} PayloadIsIndented(body: seq<Line>)
    requires ReadPayload(body).Ok?
    ensures forall l :: l in ReadPayload(body).value ==> Indented(l)
  {
    if body != [] { PayloadIsIndented(body[1..]); }
  }

  // ---- when a declared config is kept -----------------------------------------------------

  predicate HasMarker(white: char -> bool, body: seq<Line>) { exists l :: l in body && IsMarker(white, l.text) }

  predicate ConfigField(white: char -> bool, line: Line) {
    var f := SplitField(white, line); f.Some? && f.value.key == "config"
  }

  /** Some line of the block says `config:`, bare or with a value on it. */
  predicate Declares(white: char -> bool, body: seq<Line>) {
    HasMarker(white, body) || exists l :: l in body && ConfigField(white, l)
  }

  predicate EndsInConfig(white: char -> bool, body: seq<Line>) { body != [] && ConfigField(white, body[|body| - 1]) }

  lemma {:induction false} PayloadFollowsMarker(white: char -> bool, body: seq<Line>, taken: seq<Field>)
    requires AllKnown(TOOL_FIELDS, taken) && ReadTool(white, body, taken).Ok?
    ensures ReadTool(white, body, taken).value.payload.Some? <==> HasMarker(white, body)
    decreases |body|
  {
    if body != [] {
      MarkerAhead(white, body);
      if !IsMarker(white, body[0].text) {
        PayloadFollowsMarker(white, body[1..], taken + [SplitField(white, body[0]).value]);
      }
    }
  }

  lemma MarkerAhead(white: char -> bool, body: seq<Line>)
    requires body != []
    ensures HasMarker(white, body) <==> IsMarker(white, body[0].text) || HasMarker(white, body[1..])
  {
    assert body == [body[0]] + body[1..];
  }

  /** `config` comes last: no line of a body that reads follows a config field. */
  lemma NothingAfterConfig(white: char -> bool, body: seq<Line>, taken: seq<Field>, f: Field)
    requires AllKnown(TOOL_FIELDS, taken + [f]) && f.key == "config" && ReadTool(white, body, taken + [f]).Ok?
    ensures body == []
  {
    var all := taken + [f];
    assert f in all && all[|all| - 1] == f;
    ToolFieldNames();
    if body != [] && !IsMarker(white, body[0].text) {
      var g := SplitField(white, body[0]).value;
      SameKeySamePlace(TOOL_FIELDS, g, f);
    }
  }

  lemma {:induction false} ConfigFieldIsLast(white: char -> bool, body: seq<Line>, taken: seq<Field>)
    requires AllKnown(TOOL_FIELDS, taken) && ReadTool(white, body, taken).Ok? && !HasMarker(white, body)
    ensures Declares(white, body) <==> EndsInConfig(white, body)
    decreases |body|
  {
    if body != [] {
      assert body == [body[0]] + body[1..] && body[0] in body;
      var f := SplitField(white, body[0]).value;
      if f.key == "config" {
        NothingAfterConfig(white, body[1..], taken, f);
      } else {
        ConfigFieldIsLast(white, body[1..], taken + [f]);
      }
    }
  }

  /** What the engine keeps of a declared config, for every block that parses: the tool has a payload
      exactly when some line is the bare marker, and so exactly when the block declares a config,
      unless it has no marker and its last line is a `config` field. */
  lemma ConfigIsKeptWhen(white: char -> bool, body: seq<Line>, fence: nat)
    requires ParsedTool(white, Block(fence, false, body)).Ok?
    ensures var t := ParsedTool(white, Block(fence, false, body)).value;
            && (t.config.Some? <==> HasMarker(white, body))
            && ((t.config.Some? <==> Declares(white, body)) <==> HasMarker(white, body) || !EndsInConfig(white, body))
  {
    PayloadFollowsMarker(white, body, []);
    if !HasMarker(white, body) { ConfigFieldIsLast(white, body, []); }
  }

  /** So a value on the `config:` line itself goes nowhere, after any legal tool's head. */
  lemma InlineConfigIsDropped(white: char -> bool, t: ToolDecl, value: string, fence: nat)
    requires Lawful(white) && LegalTool(t) && t.config.None? && !Blank(white, value)
    ensures var body := ToolHead(t, fence + 1) + [Line(fence + 3, Printed("config", value))];
            ParsedTool(white, Block(fence, false, body)) == Ok(t) && Declares(white, body)
  {
    var n := fence + 1;
    var line := Line(fence + 3, Printed("config", value));
    var fields := ToolFields(t, n);
    var f := Field(fence + 3, "config", TrimEnd(white, value));
    InToolOrder(fields[0], fields[1], f);
    ToolHeadReads(white, t, n, [line]);
    InlineIsNoMarker(white, value);
    ConfigIsAKey();
    SplitPrinted(white, "config", value, fence + 3);
    ToolLineReads(white, line, f, [], fields);
    assert [line] + [] == [line];
    ToolFinishes(t, fence, ToolBody(fields + [f], None), n);
    ConfigIsKeptWhen(white, ToolHead(t, n) + [line], fence);
    assert EndsInConfig(white, ToolHead(t, n) + [line]);
  }

  lemma ConfigIsAKey()
    ensures Key("config")
  {
  }

  lemma {:induction false} TrimEndKeeps(white: char -> bool, s: string, i: nat)
    requires i < |s| && !white(s[i])
    ensures i < |TrimEnd(white, s)|
    decreases |s|
  {
    if white(s[|s| - 1]) { TrimEndKeeps(white, s[..|s| - 1], i); }
  }

  lemma InlineIsNoMarker(white: char -> bool, value: string)
    requires !Blank(white, value)
    ensures !IsMarker(white, Printed("config", value))
  {
    var i :| 0 <= i < |value| && !white(value[i]);
    assert Printed("config", value)[8 + i] == value[i];
    TrimEndKeeps(white, Printed("config", value), 8 + i);
  }
}
