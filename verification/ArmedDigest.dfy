/** The armed-set digest: one canonical JSON form, one hash over it.

    Strings are their UTF-8 bytes, which is what the emitter escapes. SHA-256 is a parameter. */
module ArmedDigest {
  import opened Bytes
  import opened ByteOrder

  datatype Json =
    | Str(text: Bytes)
    | Num(n: nat)
    | Bool(b: bool)
    | Arr(items: seq<Json>)
    | Obj(fields: map<Bytes, Json>)

  // ---- compact emission ------------------------------------------------------------------

  /** The minimal escapes of section 7 of RFC 8259, in the emitter's own spelling. */
  function EscapeByte(b: Byte): (s: Bytes)
    ensures s != [] && s[0] != '"'
  {
    if b == '"' then ['\\', '"']
    else if b == '\\' then ['\\', '\\']
    else if b == 0x08 as char then ['\\', 'b']
    else if b == 0x0C as char then ['\\', 'f']
    else if b == '\n' then ['\\', 'n']
    else if b == '\r' then ['\\', 'r']
    else if b == '\t' then ['\\', 't']
    else if b as int < 0x20 then ['\\', 'u', '0', '0', LowerHexDigit(b as int / 16), LowerHexDigit(b as int % 16)]
    else [b]
  }

  /** The escaped text and its closing quote. */
  function Quoted(text: Bytes): Bytes {
    if text == [] then ['"'] else EscapeByte(text[0]) + Quoted(text[1..])
  }

  ghost function Print(j: Json): (s: Bytes)
    decreases j, 1
  {
    match j
    case Str(text) => ['"'] + Quoted(text)
    case Num(n) => Decimal(n)
    case Bool(b) => if b then ['t', 'r', 'u', 'e'] else ['f', 'a', 'l', 's', 'e']
    case Arr(items) => ['['] + Items(j, 0)
    case Obj(fields) => ['{'] + Fields(j, fields)
  }

  /** The items from `i` on, and the closing bracket. */
  ghost function Items(j: Json, i: nat): Bytes
    requires j.Arr? && i <= |j.items|
    decreases j, 0, |j.items| - i
  {
    if i == |j.items| then [']']
    else Print(j.items[i]) + (if i + 1 == |j.items| then [']'] else [','] + Items(j, i + 1))
  }

  /** The remaining fields in key order, and the closing brace. */
  ghost function Fields(j: Json, fields: map<Bytes, Json>): Bytes
    requires j.Obj? && forall k | k in fields :: k in j.fields && fields[k] == j.fields[k]
    decreases j, 0, |fields|
  {
    if fields == map[] then ['}']
    else
      var k := Least(fields.Keys);
      assert |fields - {k}| < |fields| by { Shrinks(fields, k); }
      ['"'] + (Quoted(k) + ([':'] + (Print(fields[k])
        + (if fields - {k} == map[] then ['}'] else [','] + Fields(j, fields - {k})))))
  }

  lemma Shrinks(fields: map<Bytes, Json>, k: Bytes)
    requires k in fields
    ensures |fields - {k}| < |fields|
  {
    assert fields == (fields - {k})[k := fields[k]];
  }

  // ---- the emission is uniquely readable -------------------------------------------------

  lemma EscapeIsPrefixFree(a: Byte, b: Byte, x: Bytes, y: Bytes)
    requires EscapeByte(a) + x == EscapeByte(b) + y
    ensures a == b && x == y
  {
    var s := EscapeByte(a) + x;
    assert s[0] == EscapeByte(a)[0] && s[0] == EscapeByte(b)[0];
    if s[0] == '\\' {
      assert s[1] == EscapeByte(a)[1] && s[1] == EscapeByte(b)[1];
      if s[1] == 'u' {
        assert s[4] == EscapeByte(a)[4] && s[5] == EscapeByte(a)[5];
        assert s[4] == EscapeByte(b)[4] && s[5] == EscapeByte(b)[5];
        assert HexValue(s[4]) == Some(a as int / 16) && HexValue(s[5]) == Some(a as int % 16);
        assert a as int == b as int;
      }
    }
    assert EscapeByte(a) == EscapeByte(b);
    assert x == s[|EscapeByte(a)|..] && y == s[|EscapeByte(b)|..];
  }

  lemma QuotedOpens(a: Bytes, x: Bytes)
    ensures Quoted(a) + x == if a == [] then ['"'] + x else EscapeByte(a[0]) + (Quoted(a[1..]) + x)
  {
    if a != [] { Associate(EscapeByte(a[0]), Quoted(a[1..]), x); }
  }

  lemma EscapesOpen(c: Byte, rest: Bytes)
    ensures (EscapeByte(c) + rest)[0] != '"'
  {
    assert (EscapeByte(c) + rest)[0] == EscapeByte(c)[0];
  }

  lemma {:induction false} QuotedIsPrefixFree(a: Bytes, b: Bytes, x: Bytes, y: Bytes)
    requires Quoted(a) + x == Quoted(b) + y
    ensures a == b && x == y
    decreases |a|
  {
    QuotedOpens(a, x);
    QuotedOpens(b, y);
    if a != [] { EscapesOpen(a[0], Quoted(a[1..]) + x); }
    if b != [] { EscapesOpen(b[0], Quoted(b[1..]) + y); }
    if a == [] || b == [] {
      DropCommon(['"'], x, y);
    } else {
      EscapeIsPrefixFree(a[0], b[0], Quoted(a[1..]) + x, Quoted(b[1..]) + y);
      QuotedIsPrefixFree(a[1..], b[1..], x, y);
      assert a == [a[0]] + a[1..] && b == [b[0]] + b[1..];
    }
  }

  /** A continuation that cannot be read as more digits. */
  predicate Stops(rest: Bytes) { rest == [] || !IsDigit(rest[0]) }

  lemma {:induction false} DigitsArePrefixFree(a: Bytes, b: Bytes, x: Bytes, y: Bytes)
    requires AllDigits(a) && AllDigits(b) && Stops(x) && Stops(y) && a + x == b + y
    ensures a == b && x == y
    decreases |a|
  {
    assert (a != [] ==> (a + x)[0] == a[0]) && (b != [] ==> (b + y)[0] == b[0]);
    assert a == [] ==> a + x == x;
    assert b == [] ==> b + y == y;
    if a != [] && b != [] {
      assert (a + x)[1..] == a[1..] + x && (b + y)[1..] == b[1..] + y;
      DigitsArePrefixFree(a[1..], b[1..], x, y);
      assert a == [a[0]] + a[1..] && b == [b[0]] + b[1..];
    }
  }

  lemma DecimalsArePrefixFree(a: nat, b: nat, x: Bytes, y: Bytes)
    requires Stops(x) && Stops(y) && Decimal(a) + x == Decimal(b) + y
    ensures a == b && x == y
  {
    DigitsArePrefixFree(Decimal(a), Decimal(b), x, y);
    DecimalValue(a);
    DecimalValue(b);
  }

  /** The first byte of a value tells its kind. */
  function Opening(j: Json): set<char> {
    match j
    case Str(_) => {'"'}
    case Num(_) => {'0', '1', '2', '3', '4', '5', '6', '7', '8', '9'}
    case Bool(b) => if b then {'t'} else {'f'}
    case Arr(_) => {'['}
    case Obj(_) => {'{'}
  }

  lemma OpeningByte(j: Json)
    ensures Print(j) != [] && Print(j)[0] in Opening(j)
  {}

  /** Reading is unique: two values printed before continuations that cannot extend a number are
      the same value before the same continuation. */
  lemma {:induction false} PrintIsPrefixFree(a: Json, b: Json, x: Bytes, y: Bytes)
    requires Stops(x) && Stops(y) && Print(a) + x == Print(b) + y
    ensures a == b && x == y
    decreases a, 1
  {
    OpeningByte(a);
    OpeningByte(b);
    assert (Print(a) + x)[0] == Print(a)[0] && (Print(b) + y)[0] == Print(b)[0];
    match (a, b) {
      case (Str(s), Str(t)) =>
        Associate(['"'], Quoted(s), x);
        Associate(['"'], Quoted(t), y);
        DropCommon(['"'], Quoted(s) + x, Quoted(t) + y);
        QuotedIsPrefixFree(s, t, x, y);
      case (Num(m), Num(n)) =>
        DecimalsArePrefixFree(m, n, x, y);
      case (Bool(_), Bool(_)) =>
        DropCommon(Print(a), x, y);
      case (Arr(_), Arr(_)) =>
        Associate(['['], Items(a, 0), x);
        Associate(['['], Items(b, 0), y);
        DropCommon(['['], Items(a, 0) + x, Items(b, 0) + y);
        ItemsArePrefixFree(a, b, 0, x, y);
      case (Obj(_), Obj(_)) =>
        Associate(['{'], Fields(a, a.fields), x);
        Associate(['{'], Fields(b, b.fields), y);
        DropCommon(['{'], Fields(a, a.fields) + x, Fields(b, b.fields) + y);
        FieldsArePrefixFree(a, b, a.fields, b.fields, x, y);
      case _ =>
        assert false;
    }
  }

  /** What follows the item at `i`. */
  ghost function AfterItem(j: Json, i: nat, x: Bytes): Bytes
    requires j.Arr? && i < |j.items|
  {
    (if i + 1 == |j.items| then [']'] else [','] + Items(j, i + 1)) + x
  }

  lemma ItemOpens(j: Json, i: nat, x: Bytes)
    requires j.Arr? && i <= |j.items|
    ensures i == |j.items| ==> Items(j, i) + x == [']'] + x
    ensures i < |j.items| ==> Items(j, i) + x == Print(j.items[i]) + AfterItem(j, i, x)
    ensures Items(j, i) != [] && (Items(j, i)[0] == ']' <==> i == |j.items|)
  {
    if i < |j.items| {
      OpeningByte(j.items[i]);
      Associate(Print(j.items[i]), if i + 1 == |j.items| then [']'] else [','] + Items(j, i + 1), x);
    }
  }

  lemma AfterItemOpens(j: Json, i: nat, x: Bytes)
    requires j.Arr? && i < |j.items|
    ensures AfterItem(j, i, x) == if i + 1 == |j.items| then [']'] + x else [','] + (Items(j, i + 1) + x)
    ensures Stops(AfterItem(j, i, x)) && (AfterItem(j, i, x)[0] == ']' <==> i + 1 == |j.items|)
  {}

  lemma {:induction false} ItemsArePrefixFree(a: Json, b: Json, i: nat, x: Bytes, y: Bytes)
    requires a.Arr? && b.Arr? && i <= |a.items| && i <= |b.items| && a.items[..i] == b.items[..i]
    requires Stops(x) && Stops(y) && Items(a, i) + x == Items(b, i) + y
    ensures a == b && x == y
    decreases a, 0, |a.items| - i
  {
    ItemOpens(a, i, x);
    ItemOpens(b, i, y);
    assert (Items(a, i) + x)[0] == Items(a, i)[0] && (Items(b, i) + y)[0] == Items(b, i)[0];
    if i == |a.items| {
      DropCommon([']'], x, y);
      ItemsDone(a, b, i);
    } else {
      AfterItemOpens(a, i, x);
      AfterItemOpens(b, i, y);
      PrintIsPrefixFree(a.items[i], b.items[i], AfterItem(a, i, x), AfterItem(b, i, y));
      OneMoreItem(a, b, i);
      if i + 1 == |a.items| {
        DropCommon([']'], x, y);
        ItemsDone(a, b, i + 1);
      } else {
        DropCommon([','], Items(a, i + 1) + x, Items(b, i + 1) + y);
        ItemsArePrefixFree(a, b, i + 1, x, y);
      }
    }
  }

  lemma ItemsDone(a: Json, b: Json, i: nat)
    requires a.Arr? && b.Arr? && i == |a.items| == |b.items| && a.items[..i] == b.items[..i]
    ensures a == b
  {
    assert a.items == a.items[..i] && b.items == b.items[..i];
  }

  lemma OneMoreItem(a: Json, b: Json, i: nat)
    requires a.Arr? && b.Arr? && i < |a.items| && i < |b.items|
    requires a.items[..i] == b.items[..i] && a.items[i] == b.items[i]
    ensures a.items[..i + 1] == b.items[..i + 1]
  {
    assert a.items[..i + 1] == a.items[..i] + [a.items[i]] && b.items[..i + 1] == b.items[..i] + [b.items[i]];
  }

  /** What follows the key of the first field. */
  ghost function AfterKey(j: Json, fields: map<Bytes, Json>, x: Bytes): Bytes
    requires j.Obj? && fields != map[] && forall k | k in fields :: k in j.fields && fields[k] == j.fields[k]
  {
    Print(fields[Least(fields.Keys)]) + AfterField(j, fields, x)
  }

  /** What follows the first field. */
  ghost function AfterField(j: Json, fields: map<Bytes, Json>, x: Bytes): Bytes
    requires j.Obj? && fields != map[] && forall k | k in fields :: k in j.fields && fields[k] == j.fields[k]
  {
    var more := fields - {Least(fields.Keys)};
    (if more == map[] then ['}'] else [','] + Fields(j, more)) + x
  }

  lemma FieldsOpen(j: Json, fields: map<Bytes, Json>, x: Bytes)
    requires j.Obj? && fields != map[] && forall k | k in fields :: k in j.fields && fields[k] == j.fields[k]
    ensures Fields(j, fields) + x == ['"'] + (Quoted(Least(fields.Keys)) + ([':'] + AfterKey(j, fields, x)))
  {
    var k := Least(fields.Keys);
    var value := Print(fields[k]);
    var more := if fields - {k} == map[] then ['}'] else [','] + Fields(j, fields - {k});
    Associate(value, more, x);
    Associate([':'], value + more, x);
    Associate(Quoted(k), [':'] + (value + more), x);
    Associate(['"'], Quoted(k) + ([':'] + (value + more)), x);
  }

  lemma AfterFieldStops(j: Json, fields: map<Bytes, Json>, x: Bytes)
    requires j.Obj? && fields != map[] && forall k | k in fields :: k in j.fields && fields[k] == j.fields[k]
    ensures Stops(AfterField(j, fields, x))
    ensures var more := fields - {Least(fields.Keys)};
            AfterField(j, fields, x) == if more == map[] then ['}'] + x else [','] + (Fields(j, more) + x)
  {}

  /** The first byte tells an empty rest of fields from one that goes on. */
  lemma FirstByteTells(j: Json, fields: map<Bytes, Json>, x: Bytes)
    requires j.Obj? && forall k | k in fields :: k in j.fields && fields[k] == j.fields[k]
    ensures fields == map[] ==> Fields(j, fields) + x == ['}'] + x
    ensures (Fields(j, fields) + x)[0] == if fields == map[] then '}' else '"'
  {
    if fields != map[] { FieldsOpen(j, fields, x); }
  }

  lemma {:induction false} FieldsArePrefixFree(a: Json, b: Json, m: map<Bytes, Json>, n: map<Bytes, Json>, x: Bytes, y: Bytes)
    requires a.Obj? && b.Obj?
    requires (forall k | k in m :: k in a.fields && m[k] == a.fields[k]) && (forall k | k in n :: k in b.fields && n[k] == b.fields[k])
    requires Stops(x) && Stops(y) && Fields(a, m) + x == Fields(b, n) + y
    ensures m == n && x == y
    decreases a, 0, |m|, 2
  {
    FirstByteTells(a, m, x);
    FirstByteTells(b, n, y);
    if m == map[] {
      DropCommon(['}'], x, y);
    } else {
      SomeFieldsArePrefixFree(a, b, m, n, x, y);
    }
  }

  lemma {:induction false} SomeFieldsArePrefixFree(a: Json, b: Json, m: map<Bytes, Json>, n: map<Bytes, Json>, x: Bytes, y: Bytes)
    requires a.Obj? && b.Obj? && m != map[] && n != map[]
    requires (forall k | k in m :: k in a.fields && m[k] == a.fields[k]) && (forall k | k in n :: k in b.fields && n[k] == b.fields[k])
    requires Stops(x) && Stops(y) && Fields(a, m) + x == Fields(b, n) + y
    ensures m == n && x == y
    decreases a, 0, |m|, 1
  {
    var k := Least(m.Keys);
    FirstFieldsAgree(a, b, m, n, x, y);
    Shrinks(m, k);
    AfterFieldStops(a, m, x);
    AfterFieldStops(b, n, y);
    RestsArePrefixFree(a, b, m - {k}, n - {k}, x, y);
    OneFieldMore(m, n, k);
  }

  lemma OneFieldMore(m: map<Bytes, Json>, n: map<Bytes, Json>, k: Bytes)
    requires k in m && k in n && m[k] == n[k] && m - {k} == n - {k}
    ensures m == n
  {
    assert m == (m - {k})[k := m[k]] && n == (n - {k})[k := n[k]];
  }

  lemma {:induction false} RestsArePrefixFree(a: Json, b: Json, m: map<Bytes, Json>, n: map<Bytes, Json>, x: Bytes, y: Bytes)
    requires a.Obj? && b.Obj?
    requires (forall k | k in m :: k in a.fields && m[k] == a.fields[k]) && (forall k | k in n :: k in b.fields && n[k] == b.fields[k])
    requires Stops(x) && Stops(y)
    requires (if m == map[] then ['}'] + x else [','] + (Fields(a, m) + x)) == if n == map[] then ['}'] + y else [','] + (Fields(b, n) + y)
    ensures m == n && x == y
    decreases a, 0, |m|, 3
  {
    assert ([','] + (Fields(a, m) + x))[0] == ',' && ([','] + (Fields(b, n) + y))[0] == ',';
    assert (['}'] + x)[0] == '}' && (['}'] + y)[0] == '}';
    if m == map[] {
      DropCommon(['}'], x, y);
    } else {
      DropCommon([','], Fields(a, m) + x, Fields(b, n) + y);
      FieldsArePrefixFree(a, b, m, n, x, y);
    }
  }

  lemma FirstKeysAgree(a: Json, b: Json, m: map<Bytes, Json>, n: map<Bytes, Json>, x: Bytes, y: Bytes)
    requires a.Obj? && b.Obj? && m != map[] && n != map[]
    requires (forall k | k in m :: k in a.fields && m[k] == a.fields[k]) && (forall k | k in n :: k in b.fields && n[k] == b.fields[k])
    requires Fields(a, m) + x == Fields(b, n) + y
    ensures Least(m.Keys) == Least(n.Keys) && AfterKey(a, m, x) == AfterKey(b, n, y)
  {
    var k, l := Least(m.Keys), Least(n.Keys);
    FieldsOpen(a, m, x);
    FieldsOpen(b, n, y);
    KeyIsPrefixFree(k, l, AfterKey(a, m, x), AfterKey(b, n, y));
  }

  lemma KeyIsPrefixFree(k: Bytes, l: Bytes, x: Bytes, y: Bytes)
    requires ['"'] + (Quoted(k) + ([':'] + x)) == ['"'] + (Quoted(l) + ([':'] + y))
    ensures k == l && x == y
  {
    DropCommon(['"'], Quoted(k) + ([':'] + x), Quoted(l) + ([':'] + y));
    QuotedIsPrefixFree(k, l, [':'] + x, [':'] + y);
    DropCommon([':'], x, y);
  }

  lemma {:induction false} FirstFieldsAgree(a: Json, b: Json, m: map<Bytes, Json>, n: map<Bytes, Json>, x: Bytes, y: Bytes)
    requires a.Obj? && b.Obj? && m != map[] && n != map[]
    requires (forall k | k in m :: k in a.fields && m[k] == a.fields[k]) && (forall k | k in n :: k in b.fields && n[k] == b.fields[k])
    requires Fields(a, m) + x == Fields(b, n) + y
    ensures Least(m.Keys) == Least(n.Keys) && m[Least(m.Keys)] == n[Least(n.Keys)]
    ensures AfterField(a, m, x) == AfterField(b, n, y)
    decreases a, 0, |m|, 0
  {
    FirstKeysAgree(a, b, m, n, x, y);
    AfterFieldStops(a, m, x);
    AfterFieldStops(b, n, y);
    PrintIsPrefixFree(m[Least(m.Keys)], n[Least(n.Keys)], AfterField(a, m, x), AfterField(b, n, y));
  }

  /** Equal canonical bytes are the same value. */
  lemma PrintIsInjective(a: Json, b: Json)
    ensures Print(a) == Print(b) ==> a == b
  {
    if Print(a) == Print(b) {
      assert Print(a) + [] == Print(b) + [];
      PrintIsPrefixFree(a, b, [], []);
    }
  }

  // ---- the armed rows --------------------------------------------------------------------

  datatype HpathSeg = HpathSeg(h: Bytes, n: Option<U32>)

  datatype PlanEdit =
    | Append(hpath: seq<HpathSeg>, body: Bytes, rev: Option<Bytes>)
    | Match(hpath: seq<HpathSeg>, old_: Bytes, new_: Bytes, all: bool, rev: Option<Bytes>)
    | ReplaceSection(hpath: seq<HpathSeg>, body: Bytes, rev: Option<Bytes>)
    | Create(parentHpath: seq<HpathSeg>, title: Bytes, body: Bytes, rev: Option<Bytes>)
    | SetProperty(key: Bytes, value: Bytes, rev: Option<Bytes>)
    | RemoveProperty(key: Bytes, rev: Option<Bytes>)

  datatype ArmedEdit = ArmedEdit(path: Bytes, edit: PlanEdit, line: U32, depth: U32)
  datatype ArmedRow = ArmedRow(edit: PlanEdit, path: Bytes)

  const EDIT: Bytes := "edit"
  const PATH: Bytes := "path"
  const H: Bytes := "h"
  const N: Bytes := "n"
  const HPATH: Bytes := "hpath"
  const PARENT_HPATH: Bytes := "parent_hpath"
  const BODY: Bytes := "body"
  const REV: Bytes := "rev"
  const OLD: Bytes := "old"
  const NEW: Bytes := "new"
  const ALL: Bytes := "all"
  const TITLE: Bytes := "title"
  const KEY: Bytes := "key"
  const VALUE: Bytes := "value"
  const APPEND: Bytes := "append"
  const MATCH: Bytes := "match"
  const REPLACE_SECTION: Bytes := "replace_section"
  const CREATE: Bytes := "create"
  const SET_PROPERTY: Bytes := "set_property"
  const REMOVE_PROPERTY: Bytes := "remove_property"

  function SegJson(seg: HpathSeg): Json {
    Obj(map[H := Str(seg.h)] + if seg.n.Some? then map[N := Num(seg.n.value)] else map[])
  }

  function HpathJson(hpath: seq<HpathSeg>): Json {
    Arr(seq(|hpath|, i requires 0 <= i < |hpath| => SegJson(hpath[i])))
  }

  /** An absent rev leaves no field behind. */
  function WithRev(fields: map<Bytes, Json>, rev: Option<Bytes>): Json {
    Obj(if rev.Some? then fields[REV := Str(rev.value)] else fields)
  }

  /** The externally tagged shape of an edit: its tag and what the tag carries. */
  function Tagged(e: PlanEdit): (Bytes, Json) {
    match e
    case Append(hpath, body, rev) => (APPEND, WithRev(map[HPATH := HpathJson(hpath), BODY := Str(body)], rev))
    case Match(hpath, old_, new_, all, rev) =>
      var fields := map[HPATH := HpathJson(hpath), OLD := Str(old_), NEW := Str(new_)];
      (MATCH, WithRev(if all then fields[ALL := Bool(true)] else fields, rev))
    case ReplaceSection(hpath, body, rev) => (REPLACE_SECTION, WithRev(map[HPATH := HpathJson(hpath), BODY := Str(body)], rev))
    case Create(hpath, title, body, rev) =>
      (CREATE, WithRev(map[PARENT_HPATH := HpathJson(hpath), TITLE := Str(title), BODY := Str(body)], rev))
    case SetProperty(key, value, rev) => (SET_PROPERTY, WithRev(map[KEY := Str(key), VALUE := Str(value)], rev))
    case RemoveProperty(key, rev) => (REMOVE_PROPERTY, WithRev(map[KEY := Str(key)], rev))
  }

  function EditJson(e: PlanEdit): Json { Obj(map[Tagged(e).0 := Tagged(e).1]) }

  function RowJson(row: ArmedRow): Json { Obj(map[EDIT := EditJson(row.edit), PATH := Str(row.path)]) }

  function RowsJson(rows: seq<ArmedRow>): Json {
    Arr(seq(|rows|, i requires 0 <= i < |rows| => RowJson(rows[i])))
  }

  /** The canonical bytes of an armed list. */
  ghost function Canonical(rows: seq<ArmedRow>): Bytes { Print(RowsJson(rows)) }

  function Of(armed: ArmedEdit): ArmedRow { ArmedRow(armed.edit, armed.path) }

  function OfAll(armed: seq<ArmedEdit>): (rows: seq<ArmedRow>)
    ensures |rows| == |armed| && forall i | 0 <= i < |armed| :: rows[i] == Of(armed[i])
  {
    seq(|armed|, i requires 0 <= i < |armed| => Of(armed[i]))
  }

  lemma KeysDiffer()
    ensures H != N && EDIT != PATH
    ensures REV !in {HPATH, BODY, OLD, NEW, ALL, PARENT_HPATH, TITLE, KEY, VALUE}
    ensures ALL !in {HPATH, OLD, NEW, REV}
    ensures HPATH !in {BODY, OLD, NEW} && OLD != NEW && PARENT_HPATH !in {TITLE, BODY} && TITLE != BODY && KEY != VALUE
  {
    assert H[0] == 'h' && N[0] == 'n' && EDIT[0] == 'e' && PATH[0] == 'p';
    assert REV[0] == 'r' && HPATH[0] == 'h' && BODY[0] == 'b' && OLD[0] == 'o' && NEW[0] == 'n' && ALL[0] == 'a';
    assert PARENT_HPATH[0] == 'p' && TITLE[0] == 't' && KEY[0] == 'k' && VALUE[0] == 'v';
  }

  /** Byte 2 of a tag tells the six shapes apart. */
  lemma TagsDiffer()
    ensures APPEND[2] == 'p' && MATCH[2] == 't' && CREATE[2] == 'e' && REMOVE_PROPERTY[2] == 'm'
    ensures REPLACE_SECTION[2] == 'p' && SET_PROPERTY[2] == 't'
    ensures |APPEND| == 6 && |REPLACE_SECTION| == 15 && |MATCH| == 5 && |SET_PROPERTY| == 12
  {}

  lemma SegJsonIsInjective(a: HpathSeg, b: HpathSeg)
    requires SegJson(a) == SegJson(b)
    ensures a == b
  {
    KeysDiffer();
    var m, n := SegJson(a).fields, SegJson(b).fields;
    assert m[H] == Str(a.h) && n[H] == Str(b.h);
    assert (N in m <==> a.n.Some?) && (N in n <==> b.n.Some?);
    assert a.n.Some? && b.n.Some? ==> m[N] == Num(a.n.value) && n[N] == Num(b.n.value);
  }

  lemma HpathJsonIsInjective(a: seq<HpathSeg>, b: seq<HpathSeg>)
    requires HpathJson(a) == HpathJson(b)
    ensures a == b
  {
    assert |a| == |HpathJson(a).items| == |b|;
    forall i | 0 <= i < |a| ensures a[i] == b[i] {
      assert HpathJson(a).items[i] == SegJson(a[i]) && HpathJson(b).items[i] == SegJson(b[i]);
      SegJsonIsInjective(a[i], b[i]);
    }
  }

  lemma WithRevIsInjective(m: map<Bytes, Json>, n: map<Bytes, Json>, r: Option<Bytes>, s: Option<Bytes>)
    requires REV !in m && REV !in n && WithRev(m, r) == WithRev(n, s)
    ensures m == n && r == s
  {
    var a, b := WithRev(m, r).fields, WithRev(n, s).fields;
    assert (REV in a <==> r.Some?) && (REV in b <==> s.Some?);
    assert m == a - {REV} && n == b - {REV};
  }

  lemma TwoFields(k: Bytes, l: Bytes, a: Json, b: Json, c: Json, d: Json)
    requires k != l && map[k := a, l := b] == map[k := c, l := d]
    ensures a == c && b == d
  {
    assert map[k := a, l := b][k] == a && map[k := a, l := b][l] == b;
    assert map[k := c, l := d][k] == c && map[k := c, l := d][l] == d;
  }

  lemma ThreeFields(k: Bytes, l: Bytes, o: Bytes, a: Json, b: Json, c: Json, d: Json, e: Json, f: Json)
    requires k != l && l != o && k != o && map[k := a, l := b, o := c] == map[k := d, l := e, o := f]
    ensures a == d && b == e && c == f
  {
    var m, n := map[k := a, l := b, o := c], map[k := d, l := e, o := f];
    assert m[k] == a && m[l] == b && m[o] == c && n[k] == d && n[l] == e && n[o] == f;
  }

  lemma TaggedIsInjective(a: PlanEdit, b: PlanEdit)
    requires Tagged(a) == Tagged(b)
    ensures a == b
  {
    SameShape(a, b);
    KeysDiffer();
    match (a, b) {
      case (Append(p, x, r), Append(q, y, s)) =>
        WithRevIsInjective(map[HPATH := HpathJson(p), BODY := Str(x)], map[HPATH := HpathJson(q), BODY := Str(y)], r, s);
        TwoFields(HPATH, BODY, HpathJson(p), Str(x), HpathJson(q), Str(y));
        HpathJsonIsInjective(p, q);
      case (Match(p, x, x', all, r), Match(q, y, y', all', s)) =>
        MatchIsInjective(a, b);
      case (ReplaceSection(p, x, r), ReplaceSection(q, y, s)) =>
        WithRevIsInjective(map[HPATH := HpathJson(p), BODY := Str(x)], map[HPATH := HpathJson(q), BODY := Str(y)], r, s);
        TwoFields(HPATH, BODY, HpathJson(p), Str(x), HpathJson(q), Str(y));
        HpathJsonIsInjective(p, q);
      case (Create(p, x, x', r), Create(q, y, y', s)) =>
        WithRevIsInjective(map[PARENT_HPATH := HpathJson(p), TITLE := Str(x), BODY := Str(x')],
                           map[PARENT_HPATH := HpathJson(q), TITLE := Str(y), BODY := Str(y')], r, s);
        ThreeFields(PARENT_HPATH, TITLE, BODY, HpathJson(p), Str(x), Str(x'), HpathJson(q), Str(y), Str(y'));
        HpathJsonIsInjective(p, q);
      case (SetProperty(k, x, r), SetProperty(l, y, s)) =>
        WithRevIsInjective(map[KEY := Str(k), VALUE := Str(x)], map[KEY := Str(l), VALUE := Str(y)], r, s);
        TwoFields(KEY, VALUE, Str(k), Str(x), Str(l), Str(y));
      case (RemoveProperty(k, r), RemoveProperty(l, s)) =>
        WithRevIsInjective(map[KEY := Str(k)], map[KEY := Str(l)], r, s);
        assert map[KEY := Str(k)][KEY] == Str(k) && map[KEY := Str(l)][KEY] == Str(l);
    }
  }

  lemma MatchIsInjective(a: PlanEdit, b: PlanEdit)
    requires a.Match? && b.Match? && Tagged(a) == Tagged(b)
    ensures a == b
  {
    KeysDiffer();
    var m := map[HPATH := HpathJson(a.hpath), OLD := Str(a.old_), NEW := Str(a.new_)];
    var n := map[HPATH := HpathJson(b.hpath), OLD := Str(b.old_), NEW := Str(b.new_)];
    var m', n' := if a.all then m[ALL := Bool(true)] else m, if b.all then n[ALL := Bool(true)] else n;
    WithRevIsInjective(m', n', a.rev, b.rev);
    assert (ALL in m' <==> a.all) && (ALL in n' <==> b.all);
    assert m == m' - {ALL} && n == n' - {ALL};
    ThreeFields(HPATH, OLD, NEW, HpathJson(a.hpath), Str(a.old_), Str(a.new_), HpathJson(b.hpath), Str(b.old_), Str(b.new_));
    HpathJsonIsInjective(a.hpath, b.hpath);
  }

  lemma SameShape(a: PlanEdit, b: PlanEdit)
    requires Tagged(a).0 == Tagged(b).0
    ensures (a.Append? <==> b.Append?) && (a.Match? <==> b.Match?) && (a.ReplaceSection? <==> b.ReplaceSection?)
    ensures (a.Create? <==> b.Create?) && (a.SetProperty? <==> b.SetProperty?) && (a.RemoveProperty? <==> b.RemoveProperty?)
  {
    TagsDiffer();
  }

  lemma RowJsonIsInjective(a: ArmedRow, b: ArmedRow)
    requires RowJson(a) == RowJson(b)
    ensures a == b
  {
    KeysDiffer();
    TwoFields(EDIT, PATH, EditJson(a.edit), Str(a.path), EditJson(b.edit), Str(b.path));
    OneField(Tagged(a.edit).0, Tagged(b.edit).0, Tagged(a.edit).1, Tagged(b.edit).1);
    TaggedIsInjective(a.edit, b.edit);
  }

  lemma OneField(k: Bytes, l: Bytes, a: Json, b: Json)
    requires map[k := a] == map[l := b]
    ensures k == l && a == b
  {
    assert k in map[k := a] && k in map[l := b] && map[k := a][k] == a;
  }

  /** Equal canonical bytes are equal rows, in equal order. */
  lemma CanonicalIsInjective(a: seq<ArmedRow>, b: seq<ArmedRow>)
    ensures Canonical(a) == Canonical(b) <==> a == b
  {
    if Canonical(a) == Canonical(b) {
      PrintIsInjective(RowsJson(a), RowsJson(b));
      assert |a| == |RowsJson(a).items| == |b|;
      forall i | 0 <= i < |a| ensures a[i] == b[i] {
        assert RowsJson(a).items[i] == RowJson(a[i]) && RowsJson(b).items[i] == RowJson(b[i]);
        RowJsonIsInjective(a[i], b[i]);
      }
    }
  }

  lemma LeastOfTwo(k: Bytes, l: Bytes, two: map<Bytes, Json>, one: map<Bytes, Json>)
    requires Less(k, l) && k != l && two.Keys == {k, l} && one.Keys == {l}
    ensures k in two && Least(two.Keys) == k
    ensures l in one && Least(one.Keys) == l
  {
    assert k in two.Keys && l in one.Keys;
    assert IsLeast(k, two.Keys) && IsLeast(l, one.Keys);
    LeastIsUnique(k, Least(two.Keys), two.Keys);
    LeastIsUnique(l, Least(one.Keys), one.Keys);
  }

  lemma TwoFieldsPrint(k: Bytes, l: Bytes, x: Json, y: Json)
    requires Less(k, l) && k != l
    ensures Print(Obj(map[k := x, l := y]))
         == ['{'] + (['"'] + (Quoted(k) + ([':'] + (Print(x) + ([','] + (['"'] + (Quoted(l) + ([':'] + (Print(y) + ['}'])))))))))
  {
    var j, one := Obj(map[k := x, l := y]), map[l := y];
    LeastOfTwo(k, l, j.fields, one);
    assert j.fields - {k} == one && one - {l} == map[];
    assert Fields(j, one) == ['"'] + (Quoted(l) + ([':'] + (Print(y) + ['}'])));
    assert Fields(j, j.fields) == ['"'] + (Quoted(k) + ([':'] + (Print(x) + ([','] + Fields(j, one)))));
  }

  /** Keys ride in byte order, not in declaration order: a row prints its edit before its path. */
  lemma RowIsSorted(row: ArmedRow)
    ensures Print(RowJson(row))
         == ['{'] + (['"'] + (Quoted(EDIT) + ([':'] + (Print(EditJson(row.edit))
            + ([','] + (['"'] + (Quoted(PATH) + ([':'] + (Print(Str(row.path)) + ['}'])))))))))
  {
    KeysDiffer();
    assert EDIT[0] == 'e' && PATH[0] == 'p' && Less(EDIT, PATH);
    TwoFieldsPrint(EDIT, PATH, EditJson(row.edit), Str(row.path));
  }

  // ---- the digest ------------------------------------------------------------------------

  const DOMAIN_TAG: Bytes := "armed-set-path-edit:"
  const HASH_TAG: Bytes := "sha256:"

  ghost function Digested(rows: seq<ArmedRow>, sha256: Bytes -> Digest): Bytes {
    DOMAIN_TAG + (HASH_TAG + LowerHex(sha256(Canonical(rows))))
  }

  method ArmedDigestOf(canonical: Bytes, ghost rows: seq<ArmedRow>, sha256: Bytes -> Digest) returns (out: Bytes)
    requires canonical == Canonical(rows)
    ensures out == Digested(rows, sha256)
  {
    var hash := sha256(canonical);
    var hex: Bytes := [];
    for i := 0 to |hash|
      invariant hex == LowerHex(hash[..i])
    {
      assert hash[..i + 1][..i] == hash[..i];
      hex := hex + [LowerHexDigit(hash[i] as int / 16), LowerHexDigit(hash[i] as int % 16)];
    }
    assert hash[..|hash|] == hash;
    out := DOMAIN_TAG + (HASH_TAG + hex);
  }

  /** The digest is of where the bytes land and what they are, and of nothing else: two armed lists
      have the same digest exactly when they pair the same paths with the same edits in the same
      order, whatever their source lines and depths, unless the hash collides on the two forms. */
  lemma DigestIsTheArmedSet(a: seq<ArmedEdit>, b: seq<ArmedEdit>, sha256: Bytes -> Digest)
    requires var (x, y) := (Canonical(OfAll(a)), Canonical(OfAll(b))); sha256(x) == sha256(y) ==> x == y
    ensures Digested(OfAll(a), sha256) == Digested(OfAll(b), sha256) <==>
            |a| == |b| && forall i | 0 <= i < |a| :: a[i].path == b[i].path && a[i].edit == b[i].edit
  {
    var (x, y) := (sha256(Canonical(OfAll(a))), sha256(Canonical(OfAll(b))));
    if Digested(OfAll(a), sha256) == Digested(OfAll(b), sha256) {
      DropCommon(DOMAIN_TAG, HASH_TAG + LowerHex(x), HASH_TAG + LowerHex(y));
      DropCommon(HASH_TAG, LowerHex(x), LowerHex(y));
      ParsePrintedHex(x);
      ParsePrintedHex(y);
      CanonicalIsInjective(OfAll(a), OfAll(b));
      assert forall i | 0 <= i < |a| :: OfAll(a)[i] == Of(a[i]) && OfAll(b)[i] == Of(b[i]);
    }
    if |a| == |b| && forall i | 0 <= i < |a| :: a[i].path == b[i].path && a[i].edit == b[i].edit {
      assert OfAll(a) == OfAll(b);
    }
  }
}
