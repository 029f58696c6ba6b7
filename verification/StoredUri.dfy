/** The stored plane of a cross-root address: the strict `obsidian://` URI. */
module StoredUri {
  import opened Bytes
  import opened Address

  const OBSIDIAN_SCHEME: Bytes := "obsidian://"
  const ACTION_OPEN: Bytes := "open"
  const ACTION_ADVANCED: Bytes := "advanced-uri"

  datatype StoredRef = StoredRef(vault: Bytes, path: Bytes, selector: Option<Bytes>)

  datatype StoredError =
    | NotStoredForm
    | UnknownAction(found: Bytes)
    | BadParams(action: Bytes, names: seq<Bytes>, expected: Bytes)
    | NonCanonicalEncoding(param: Bytes, value: Bytes, canonical: Bytes)
    | EmptyValue(empty: Bytes)
    | BadPath(path: Bytes)

  // ---- one component ---------------------------------------------------------------------

  predicate Literal(b: Byte) {
    0x20 < b as int < 0x7F && b !in {'%', '&', '=', '?', '#', '+'}
  }

  function UpperHexDigit(v: nat): (c: Byte)
    requires v < 16
    ensures HexValue(c) == Some(v) && c != '+'
    ensures IsDigit(c) || 'A' <= c <= 'F'
  {
    if v < 10 then ('0' as int + v) as char else ('A' as int + v - 10) as char
  }

  function EncodeByte(b: Byte): Bytes {
    if Literal(b) then [b] else ['%', UpperHexDigit(b as int / 16), UpperHexDigit(b as int % 16)]
  }

  function Encoded(value: Bytes): Bytes {
    if value == [] then [] else EncodeByte(value[0]) + Encoded(value[1..])
  }

  lemma {:induction false} EncodedAppend(value: Bytes, b: Byte)
    ensures Encoded(value + [b]) == Encoded(value) + EncodeByte(b)
  {
    if value == [] {
      assert value + [b] == [b] && [b][1..] == [];
    } else {
      assert (value + [b])[1..] == value[1..] + [b];
      EncodedAppend(value[1..], b);
    }
  }

  method EncodeComponent(value: Bytes) returns (out: Bytes)
    ensures out == Encoded(value)
  {
    out := [];
    for i := 0 to |value|
      invariant out == Encoded(value[..i])
    {
      EncodedAppend(value[..i], value[i]);
      assert value[..i + 1] == value[..i] + [value[i]];
      if Literal(value[i]) {
        out := out + [value[i]];
      } else {
        out := out + ['%', UpperHexDigit(value[i] as int / 16), UpperHexDigit(value[i] as int % 16)];
      }
    }
    assert value[..|value|] == value;
  }

  /** `u8::from_str_radix(pair, 16)`: two hex digits of either case, or a sign and one digit. */
  function ParsePair(hi: Byte, lo: Byte): (r: Option<Byte>)
  {
    var low :- HexValue(lo);
    if hi == '+' then Some(low as char)
    else
      var high :- HexValue(hi);
      Some((high * 16 + low) as char)
  }

  function Unescape(s: Bytes): Option<Bytes>
    decreases |s|
  {
    if s == [] then Some([])
    else if s[0] == '%' then
      if |s| < 3 then None
      else
        var b :- ParsePair(s[1], s[2]);
        var rest :- Unescape(s[3..]);
        Some([b] + rest)
    else
      var rest :- Unescape(s[1..]);
      Some([s[0]] + rest)
  }

  function Decoded(value: Bytes): Option<Bytes> {
    var out :- Unescape(value);
    if Utf8(out) then Some(out) else None
  }

  method DecodeComponent(value: Bytes) returns (r: Option<Bytes>)
    ensures r == Decoded(value)
  {
    var out: Bytes, i := [], 0;
    assert value[0..] == value && (Unescape(value).Some? ==> [] + Unescape(value).value == Unescape(value).value);
    while i < |value|
      invariant i <= |value|
      invariant Unescape(value) == Prefixed(out, Unescape(value[i..]))
    {
      UnescapeStep(out, value, i);
      if value[i] == '%' {
        if |value| < i + 3 { return None; }
        var b :- ParsePair(value[i + 1], value[i + 2]);
        out := out + [b];
        i := i + 3;
      } else {
        out := out + [value[i]];
        i := i + 1;
      }
    }
    assert value[i..] == [] && out + [] == out;
    r := if Utf8(out) then Some(out) else None;
  }

  function Prefixed(front: Bytes, rest: Option<Bytes>): Option<Bytes> {
    if rest.Some? then Some(front + rest.value) else None
  }

  lemma UnescapeStep(out: Bytes, value: Bytes, i: nat)
    requires i < |value|
    ensures value[i] != '%' ==> Prefixed(out, Unescape(value[i..])) == Prefixed(out + [value[i]], Unescape(value[i + 1..]))
    ensures value[i] == '%' && i + 3 <= |value| ==>
              var b := ParsePair(value[i + 1], value[i + 2]);
              Prefixed(out, Unescape(value[i..]))
              == if b.Some? then Prefixed(out + [b.value], Unescape(value[i + 3..])) else None
    ensures value[i] == '%' && i + 3 > |value| ==> Unescape(value[i..]).None?
  {
    var s := value[i..];
    if value[i] != '%' {
      assert s[1..] == value[i + 1..];
      if Unescape(s[1..]).Some? {
        assert out + ([s[0]] + Unescape(s[1..]).value) == out + [s[0]] + Unescape(s[1..]).value;
      }
    } else if i + 3 <= |value| {
      assert s[3..] == value[i + 3..];
      var b := ParsePair(s[1], s[2]);
      if b.Some? && Unescape(s[3..]).Some? {
        assert out + ([b.value] + Unescape(s[3..]).value) == out + [b.value] + Unescape(s[3..]).value;
      }
    }
  }

  lemma {:induction false} UnescapeEncoded(value: Bytes)
    ensures Unescape(Encoded(value)) == Some(value)
  {
    if value != [] {
      UnescapeEncoded(value[1..]);
      var b := value[0];
      var s := EncodeByte(b) + Encoded(value[1..]);
      assert value == [b] + value[1..];
      if Literal(b) {
        assert s[1..] == Encoded(value[1..]);
        assert Unescape(s) == Some([b] + value[1..]);
      } else {
        assert b as int == b as int / 16 * 16 + b as int % 16;
        assert ParsePair(s[1], s[2]) == Some(b);
        assert s[3..] == Encoded(value[1..]);
        assert Unescape(s) == Some([b] + value[1..]);
      }
    }
  }

  predicate EncodedByte(c: char) { 0x20 < c as int < 0x7F && c !in {'&', '=', '?', '#', '+'} }

  lemma {:induction false} EncodedBytes(value: Bytes)
    ensures forall c | c in Encoded(value) :: EncodedByte(c)
    ensures Encoded(value) == [] <==> value == []
  {
    if value != [] {
      EncodedBytes(value[1..]);
    }
  }

  /** A raw value passes the canon check exactly when it is some string's encoding. */
  lemma CanonIsTheImage(raw: Bytes)
    ensures (Decoded(raw).Some? && Encoded(Decoded(raw).value) == raw) <==> (exists v :: Utf8(v) && Encoded(v) == raw)
  {
    if Decoded(raw).Some? && Encoded(Decoded(raw).value) == raw {
      assert Utf8(Decoded(raw).value);
    }
    if exists v :: Utf8(v) && Encoded(v) == raw {
      var v :| Utf8(v) && Encoded(v) == raw;
      UnescapeEncoded(v);
    }
  }

  /** The hex step alone is looser than the canon: any signed pair decodes, and none is an
      encoding. */
  lemma SignedPairIsNotCanon(digit: Byte)
    requires HexValue(digit).Some?
    ensures Decoded(['%', '+', digit]) == Some([HexValue(digit).value as char])
    ensures forall v :: Encoded(v) != ['%', '+', digit]
  {
    var s: Bytes := ['%', '+', digit];
    var b: Byte := HexValue(digit).value as char;
    assert ParsePair(s[1], s[2]) == Some(b);
    assert Unescape(s[3..]) == Some([]) by { assert s[3..] == []; }
    assert Unescape(s) == Some([b] + []);
    assert [b] + [] == [b];
    AsciiIsUtf8([b]);
    forall v ensures Encoded(v) != s {
      EncodedBytes(v);
      assert '+' == s[1] && '+' in s;
    }
  }

  // ---- the whole URI ---------------------------------------------------------------------

  const VAULT: Bytes := "vault"
  const FILE: Bytes := "file"
  const FILEPATH: Bytes := "filepath"
  const HEADING: Bytes := "heading"
  const BLOCK: Bytes := "block"
  const SELECTOR: Bytes := "selector"
  const OPEN_PARAMS: Bytes := "vault&file"
  const ADVANCED_PARAMS: Bytes := "vault&filepath&(heading|block)"

  type QueryParam = (Bytes, Bytes)

  function ParamText(p: QueryParam): Bytes { p.0 + ['='] + p.1 }

  /** The parameters, each `key=value`, joined by `&`. */
  function Query(params: seq<QueryParam>): Bytes
    requires params != []
    decreases |params|
  {
    if |params| == 1 then ParamText(params[0]) else ParamText(params[0]) + ['&'] + Query(params[1..])
  }

  function Uri(action: Bytes, params: seq<QueryParam>): Bytes
    requires params != []
  {
    OBSIDIAN_SCHEME + (action + ['?'] + Query(params))
  }

  /** `^id` is a block, anything else a heading. */
  function SelectorParam(selector: Bytes): (Bytes, Bytes) {
    if selector != [] && selector[0] == '^' then (BLOCK, selector[1..]) else (HEADING, selector)
  }

  function OpenParams(vault: Bytes, path: Bytes): seq<QueryParam> {
    [(VAULT, Encoded(vault)), (FILE, Encoded(path))]
  }

  function AdvancedParams(vault: Bytes, path: Bytes, key: Bytes, value: Bytes): seq<QueryParam> {
    [(VAULT, Encoded(vault)), (FILEPATH, Encoded(path)), (key, Encoded(value))]
  }

  function Encode(vault: Bytes, path: Bytes, selector: Option<Bytes>): Result<Bytes, StoredError> {
    if vault == [] then Err(EmptyValue(VAULT))
    else if !Confined(path) then Err(BadPath(path))
    else if selector.None? then
      Ok(Uri(ACTION_OPEN, OpenParams(vault, path)))
    else
      var (key, value) := SelectorParam(selector.value);
      if value == [] then Err(EmptyValue(SELECTOR))
      else Ok(Uri(ACTION_ADVANCED, AdvancedParams(vault, path, key, value)))
  }

  function SplitParam(text: Bytes): QueryParam {
    match SplitOnce(text, '=')
    case Some((key, value)) => (key, value)
    case None => (text, [])
  }

  /** The query's parts between the `&`s, each split at its first `=`. */
  function Params(query: Bytes): (params: seq<QueryParam>)
    ensures params != []
    decreases |query|
  {
    match SplitOnce(query, '&')
    case None => [SplitParam(query)]
    case Some((first, rest)) => [SplitParam(first)] + Params(rest)
  }

  function Names(params: seq<QueryParam>): (r: seq<Bytes>)
    ensures |r| == |params|
    ensures forall i | 0 <= i < |params| :: r[i] == params[i].0
  {
    seq(|params|, i requires 0 <= i < |params| => params[i].0)
  }

  /** The value of one parameter, refused unless it is spelled as the canon spells it. */
  function ValueOf(p: QueryParam): Result<Bytes, StoredError> {
    if p.1 == [] then Err(EmptyValue(p.0))
    else
      var decoded :- Decoded(p.1).OkOr(NonCanonicalEncoding(p.0, p.1, Encoded(p.1)));
      if Encoded(decoded) != p.1 then Err(NonCanonicalEncoding(p.0, p.1, Encoded(decoded))) else Ok(decoded)
  }

  /** The action, and the parameters behind the first `?`. */
  function SplitAction(rest: Bytes): (Bytes, seq<QueryParam>) {
    match SplitOnce(rest, '?')
    case Some((action, query)) => (action, if query == [] then [] else Params(query))
    case None => (rest, [])
  }

  predicate OpenShape(action: Bytes, params: seq<QueryParam>) {
    action == ACTION_OPEN && |params| == 2 && params[0].0 == VAULT && params[1].0 == FILE
  }

  predicate AdvancedShape(action: Bytes, params: seq<QueryParam>) {
    && action == ACTION_ADVANCED && |params| == 3 && params[0].0 == VAULT && params[1].0 == FILEPATH
    && (params[2].0 == HEADING || params[2].0 == BLOCK)
  }

  function Decode(uri: Bytes): Result<StoredRef, StoredError> {
    var rest :- StripPrefix(uri, OBSIDIAN_SCHEME).OkOr(NotStoredForm);
    var (action, params) := SplitAction(rest);
    if action != ACTION_OPEN && action != ACTION_ADVANCED then Err(UnknownAction(action))
    else if OpenShape(action, params) || AdvancedShape(action, params) then
      ReadParams(params, |params| == 3 && params[2].0 == BLOCK)
    else
      Err(BadParams(action, Names(params), if action == ACTION_OPEN then OPEN_PARAMS else ADVANCED_PARAMS))
  }

  /** The values in order: vault, path, confinement, selector. */
  function ReadParams(params: seq<QueryParam>, block: bool): Result<StoredRef, StoredError>
    requires |params| == 2 || |params| == 3
  {
    var vault :- ValueOf(params[0]);
    var path :- ValueOf(params[1]);
    if !Confined(path) then Err(BadPath(path))
    else if |params| == 2 then Ok(StoredRef(vault, path, None))
    else
      var value :- ValueOf(params[2]);
      Ok(StoredRef(vault, path, Some(if block then ['^'] + value else value)))
  }

  // ---- splitting a query -----------------------------------------------------------------

  predicate CleanKey(key: Bytes) { '&' !in key && '=' !in key }

  predicate CleanParam(p: QueryParam) { CleanKey(p.0) && CleanKey(p.1) }

  lemma ParamOfText(p: QueryParam)
    requires CleanParam(p)
    ensures SplitParam(ParamText(p)) == p && '&' !in ParamText(p)
  {
    SplitOnceAt(p.0, '=', p.1);
  }

  lemma {:induction false} ParamsOfQuery(params: seq<QueryParam>)
    requires params != [] && forall i | 0 <= i < |params| :: CleanParam(params[i])
    ensures Query(params) != [] && Params(Query(params)) == params
    decreases |params|
  {
    ParamOfText(params[0]);
    if |params| > 1 {
      ParamsOfQuery(params[1..]);
      SplitOnceAt(ParamText(params[0]), '&', Query(params[1..]));
    }
  }

  /** A part with a value has its `=`. */
  lemma ValuedPart(part: Bytes)
    requires SplitParam(part).1 != []
    ensures ParamText(SplitParam(part)) == part
  {}

  lemma {:induction false} QueryOfParams(query: Bytes)
    requires forall i | 0 <= i < |Params(query)| :: Params(query)[i].1 != []
    ensures Query(Params(query)) == query
    decreases |query|
  {
    var params := Params(query);
    match SplitOnce(query, '&')
    case None =>
      assert params[0] == SplitParam(query);
      ValuedPart(query);
    case Some((first, rest)) =>
      assert params[0] == SplitParam(first);
      ValuedPart(first);
      assert params[1..] == Params(rest);
      forall i | 0 <= i < |Params(rest)| ensures Params(rest)[i].1 != [] {
        assert Params(rest)[i] == params[i + 1];
      }
      QueryOfParams(rest);
  }

  lemma KeysAreClean()
    ensures CleanKey(VAULT) && CleanKey(FILE) && CleanKey(FILEPATH) && CleanKey(HEADING) && CleanKey(BLOCK)
  {}

  lemma KeysDiffer()
    ensures '?' !in ACTION_OPEN && '?' !in ACTION_ADVANCED
    ensures |ACTION_OPEN| != |ACTION_ADVANCED| && |HEADING| != |BLOCK|
  {}

  lemma ActionSplits(action: Bytes, params: seq<QueryParam>)
    requires '?' !in action && params != [] && forall i | 0 <= i < |params| :: CleanParam(params[i])
    ensures SplitAction(action + ['?'] + Query(params)) == (action, params)
  {
    SplitOnceAt(action, '?', Query(params));
    ParamsOfQuery(params);
  }

  lemma SchemeStrips(action: Bytes, params: seq<QueryParam>)
    requires params != []
    ensures StripPrefix(Uri(action, params), OBSIDIAN_SCHEME) == Some(action + ['?'] + Query(params))
  {
    StripPrefixOf(OBSIDIAN_SCHEME, action + ['?'] + Query(params));
  }

  /** The parameters a stored form carries. */
  function UriParams(uri: Bytes): seq<QueryParam> {
    match StripPrefix(uri, OBSIDIAN_SCHEME)
    case None => []
    case Some(rest) => SplitAction(rest).1
  }

  lemma EncodedIsClean(key: Bytes, value: Bytes)
    requires CleanKey(key)
    ensures CleanParam((key, Encoded(value)))
  {
    EncodedBytes(value);
  }

  lemma ValueOfEncoded(key: Bytes, value: Bytes)
    requires Utf8(value) && value != []
    ensures ValueOf((key, Encoded(value))) == Ok(value)
  {
    EncodedBytes(value);
    UnescapeEncoded(value);
  }

  // ---- the bijection ---------------------------------------------------------------------

  lemma OpenUriSplits(vault: Bytes, path: Bytes)
    ensures var params := OpenParams(vault, path);
            && StripPrefix(Uri(ACTION_OPEN, params), OBSIDIAN_SCHEME) == Some(ACTION_OPEN + ['?'] + Query(params))
            && SplitAction(ACTION_OPEN + ['?'] + Query(params)) == (ACTION_OPEN, params)
  {
    KeysAreClean();
    KeysDiffer();
    EncodedIsClean(VAULT, vault);
    EncodedIsClean(FILE, path);
    SchemeStrips(ACTION_OPEN, OpenParams(vault, path));
    ActionSplits(ACTION_OPEN, OpenParams(vault, path));
  }

  lemma AdvancedUriSplits(vault: Bytes, path: Bytes, key: Bytes, value: Bytes)
    requires key == HEADING || key == BLOCK
    ensures var params := AdvancedParams(vault, path, key, value);
            && StripPrefix(Uri(ACTION_ADVANCED, params), OBSIDIAN_SCHEME) == Some(ACTION_ADVANCED + ['?'] + Query(params))
            && SplitAction(ACTION_ADVANCED + ['?'] + Query(params)) == (ACTION_ADVANCED, params)
            && UriParams(Uri(ACTION_ADVANCED, params)) == params
  {
    KeysAreClean();
    KeysDiffer();
    EncodedIsClean(VAULT, vault);
    EncodedIsClean(FILEPATH, path);
    EncodedIsClean(key, value);
    SchemeStrips(ACTION_ADVANCED, AdvancedParams(vault, path, key, value));
    ActionSplits(ACTION_ADVANCED, AdvancedParams(vault, path, key, value));
  }

  lemma ReadOpen(vault: Bytes, path: Bytes)
    requires Utf8(vault) && Utf8(path) && vault != [] && Confined(path)
    ensures ReadParams(OpenParams(vault, path), false) == Ok(StoredRef(vault, path, None))
  {
    ValueOfEncoded(VAULT, vault);
    ValueOfEncoded(FILE, path);
  }

  lemma ReadAdvanced(vault: Bytes, path: Bytes, key: Bytes, value: Bytes, block: bool)
    requires Utf8(vault) && Utf8(path) && vault != [] && Confined(path) && Utf8(value) && value != []
    ensures ReadParams(AdvancedParams(vault, path, key, value), block)
         == Ok(StoredRef(vault, path, Some(if block then ['^'] + value else value)))
  {
    ValueOfEncoded(VAULT, vault);
    ValueOfEncoded(FILEPATH, path);
    ValueOfEncoded(key, value);
  }

  /** A URI whose parts have a stored shape is judged by its parameters. */
  lemma DecodeByParams(uri: Bytes, rest: Bytes, action: Bytes, params: seq<QueryParam>)
    requires StripPrefix(uri, OBSIDIAN_SCHEME) == Some(rest) && SplitAction(rest) == (action, params)
    requires OpenShape(action, params) || AdvancedShape(action, params)
    ensures Decode(uri) == ReadParams(params, |params| == 3 && params[2].0 == BLOCK)
  {
  }

  lemma OpenShapeOf(vault: Bytes, path: Bytes)
    ensures OpenShape(ACTION_OPEN, OpenParams(vault, path)) && |OpenParams(vault, path)| == 2
  {}

  lemma DecodeOpen(vault: Bytes, path: Bytes)
    requires Utf8(vault) && Utf8(path) && vault != [] && Confined(path)
    ensures Decode(Uri(ACTION_OPEN, OpenParams(vault, path))) == Ok(StoredRef(vault, path, None))
  {
    var params := OpenParams(vault, path);
    OpenUriSplits(vault, path);
    OpenShapeOf(vault, path);
    DecodeByParams(Uri(ACTION_OPEN, params), ACTION_OPEN + ['?'] + Query(params), ACTION_OPEN, params);
    ReadOpen(vault, path);
  }

  lemma DecodeAdvanced(vault: Bytes, path: Bytes, key: Bytes, value: Bytes)
    requires Utf8(vault) && Utf8(path) && vault != [] && Confined(path)
    requires Utf8(value) && value != [] && (key == HEADING || key == BLOCK)
    ensures Decode(Uri(ACTION_ADVANCED, AdvancedParams(vault, path, key, value)))
         == Ok(StoredRef(vault, path, Some(if key == BLOCK then ['^'] + value else value)))
  {
    var params := AdvancedParams(vault, path, key, value);
    AdvancedUriSplits(vault, path, key, value);
    AdvancedShapeOf(vault, path, key, value);
    DecodeByParams(Uri(ACTION_ADVANCED, params), ACTION_ADVANCED + ['?'] + Query(params), ACTION_ADVANCED, params);
    ReadAdvanced(vault, path, key, value, key == BLOCK);
  }

  lemma AdvancedShapeOf(vault: Bytes, path: Bytes, key: Bytes, value: Bytes)
    requires key == HEADING || key == BLOCK
    ensures AdvancedShape(ACTION_ADVANCED, AdvancedParams(vault, path, key, value))
    ensures !OpenShape(ACTION_ADVANCED, AdvancedParams(vault, path, key, value))
  {}

  lemma SelectorParts(selector: Bytes)
    requires Utf8(selector)
    ensures var (key, value) := SelectorParam(selector);
            && Utf8(value) && (key == HEADING || key == BLOCK)
            && (value == [] <==> selector == [] || selector == ['^'])
            && selector == if key == BLOCK then ['^'] + value else value
  {
    KeysDiffer();
  }

  /** Minting refuses exactly what has no stored spelling, and every minted URI reads back as the
      parts it was minted from. */
  lemma DecodeEncoded(vault: Bytes, path: Bytes, selector: Option<Bytes>)
    requires Utf8(vault) && Utf8(path) && (selector.Some? ==> Utf8(selector.value))
    ensures var r := Encode(vault, path, selector);
            && (r.Ok? <==> vault != [] && Confined(path) && selector != Some([]) && selector != Some(['^']))
            && (r.Ok? ==> Decode(r.value) == Ok(StoredRef(vault, path, selector)))
  {
    if selector.Some? {
      SelectorParts(selector.value);
    }
    if vault != [] && Confined(path) {
      if selector.None? {
        DecodeOpen(vault, path);
      } else {
        var (key, value) := SelectorParam(selector.value);
        if value != [] {
          DecodeAdvanced(vault, path, key, value);
        }
      }
    }
  }

  lemma ValueIsEncoded(p: QueryParam)
    requires ValueOf(p).Ok?
    ensures p.1 != [] && ValueOf(p).value != [] && Utf8(ValueOf(p).value) && p == (p.0, Encoded(ValueOf(p).value))
  {
    EncodedBytes(ValueOf(p).value);
  }

  lemma ReadValues(params: seq<QueryParam>, block: bool)
    requires (|params| == 2 || |params| == 3) && ReadParams(params, block).Ok?
    ensures forall i | 0 <= i < |params| :: ValueOf(params[i]).Ok? && params[i].1 != []
  {
    forall i | 0 <= i < |params| ensures ValueOf(params[i]).Ok? && params[i].1 != [] {
      ValueIsEncoded(params[i]);
    }
  }

  lemma AcceptedParts(uri: Bytes)
    requires Decode(uri).Ok?
    ensures OBSIDIAN_SCHEME <= uri
    ensures var (action, params) := SplitAction(uri[|OBSIDIAN_SCHEME|..]);
            && UriParams(uri) == params
            && (OpenShape(action, params) || AdvancedShape(action, params))
            && Decode(uri) == ReadParams(params, |params| == 3 && params[2].0 == BLOCK)
  {
  }

  lemma ActionJoins(rest: Bytes)
    requires SplitAction(rest).1 != [] && forall i | 0 <= i < |SplitAction(rest).1| :: SplitAction(rest).1[i].1 != []
    ensures rest == SplitAction(rest).0 + ['?'] + Query(SplitAction(rest).1)
  {
    QueryOfParams(SplitOnce(rest, '?').value.1);
  }

  /** An accepted URI is its action and its parameters, nothing else. */
  lemma AcceptedUri(uri: Bytes) returns (action: Bytes)
    requires Decode(uri).Ok?
    ensures var params := UriParams(uri);
            && params != [] && uri == Uri(action, params)
            && (OpenShape(action, params) || AdvancedShape(action, params))
            && Decode(uri) == ReadParams(params, |params| == 3 && params[2].0 == BLOCK)
  {
    AcceptedParts(uri);
    var rest, params := uri[|OBSIDIAN_SCHEME|..], UriParams(uri);
    action := SplitAction(rest).0;
    ReadValues(params, |params| == 3 && params[2].0 == BLOCK);
    ActionJoins(rest);
    assert uri == OBSIDIAN_SCHEME + rest;
  }

  /** The one family whose spelling does not survive: a heading that begins with a caret. */
  predicate HeadingWithCaret(params: seq<QueryParam>) {
    |params| == 3 && params[2].0 == HEADING && params[2].1 != [] && params[2].1[0] == '^'
  }

  lemma EncodedHead(value: Bytes)
    requires value != []
    ensures Encoded(value) != [] && (Encoded(value)[0] == '^' <==> value[0] == '^')
  {}

  lemma MintedFromOpen(params: seq<QueryParam>, r: StoredRef)
    requires OpenShape(ACTION_OPEN, params) && ReadParams(params, false) == Ok(r)
    ensures Encode(r.vault, r.path, r.selector) == Ok(Uri(ACTION_OPEN, params))
  {
    ValueIsEncoded(params[0]);
    ValueIsEncoded(params[1]);
    assert params == OpenParams(r.vault, r.path);
  }

  lemma MintedFromAdvanced(params: seq<QueryParam>, r: StoredRef)
    requires AdvancedShape(ACTION_ADVANCED, params) && ReadParams(params, params[2].0 == BLOCK) == Ok(r)
    requires !HeadingWithCaret(params)
    ensures Encode(r.vault, r.path, r.selector) == Ok(Uri(ACTION_ADVANCED, params))
  {
    KeysDiffer();
    ValueIsEncoded(params[0]);
    ValueIsEncoded(params[1]);
    ValueIsEncoded(params[2]);
    var value := ValueOf(params[2]).value;
    EncodedHead(value);
    assert (['^'] + value)[1..] == value;
    assert SelectorParam(r.selector.value) == (params[2].0, value);
    assert params == AdvancedParams(r.vault, r.path, params[2].0, value);
  }

  lemma CaretSelector(params: seq<QueryParam>, r: StoredRef)
    requires HeadingWithCaret(params) && ReadParams(params, false) == Ok(r)
    ensures r.selector.Some? && r.selector.value != [] && r.selector.value[0] == '^'
  {
    ValueIsEncoded(params[2]);
    EncodedHead(r.selector.value);
  }

  /** Whatever is minted for a selector with a caret carries a block. */
  lemma CaretMintsABlock(vault: Bytes, path: Bytes, selector: Bytes)
    requires selector != [] && selector[0] == '^' && Encode(vault, path, Some(selector)).Ok?
    ensures var params := UriParams(Encode(vault, path, Some(selector)).value); |params| == 3 && params[2].0 == BLOCK
  {
    AdvancedUriSplits(vault, path, BLOCK, selector[1..]);
  }

  /** Every accepted URI is minted again, byte for byte, from what it reads as, except a heading
      that begins with a caret: that one is minted as a block. */
  lemma EncodeDecoded(uri: Bytes)
    requires Decode(uri).Ok?
    ensures var r := Decode(uri).value;
            Encode(r.vault, r.path, r.selector) == Ok(uri) <==> !HeadingWithCaret(UriParams(uri))
  {
    var r := Decode(uri).value;
    var action := AcceptedUri(uri);
    KeysDiffer();
    if HeadingWithCaret(UriParams(uri)) {
      CaretSelector(UriParams(uri), r);
      if Encode(r.vault, r.path, r.selector) == Ok(uri) {
        CaretMintsABlock(r.vault, r.path, r.selector.value);
      }
    } else if OpenShape(action, UriParams(uri)) {
      MintedFromOpen(UriParams(uri), r);
    } else {
      MintedFromAdvanced(UriParams(uri), r);
    }
  }
}
