/** The agent-plane address `[root:]path[#selector]` and the colon law. */
module Address {
  import opened Bytes
  import opened Names

  datatype Addr = Addr(root: Option<Bytes>, path: Bytes, selector: Option<Bytes>)

  datatype AddrError =
    | BadMountName(name: Bytes)
    | EmptyMountName
    | EmptyPath
    | AmbiguousColon(found: Bytes)

  function ParseMountName(name: Bytes): Result<Bytes, AddrError> {
    if name == [] then Err(EmptyMountName)
    else if Addressable(name) then Ok(name)
    else Err(BadMountName(name))
  }

  /** The text before the first `#`, and the fragment behind it. */
  function SplitFragment(spelling: Bytes): (r: (Bytes, Option<Bytes>))
    ensures '#' !in r.0 && spelling == r.0 + FragmentText(r.1)
  {
    match SplitOnce(spelling, '#')
    case None =>
      assert spelling + [] == spelling;
      (spelling, None)
    case Some((left, fragment)) =>
      assert left + ['#'] + fragment == left + (['#'] + fragment);
      (left, Some(fragment))
  }

  function FragmentText(fragment: Option<Bytes>): Bytes {
    if fragment.Some? then ['#'] + fragment.value else []
  }

  /** The text before the first `/`. */
  function Head(text: Bytes): (head: Bytes)
    ensures head <= text && '/' !in head
  {
    text[..Find(text, '/')]
  }

  function Colons(text: Bytes): (n: nat)
    ensures n == 0 <==> ':' !in text
  {
    if text == [] then 0 else (if text[0] == ':' then 1 else 0) + Colons(text[1..])
  }

  /** The colon law, over the text before the fragment. */
  function ParseBefore(before: Bytes): Result<(Option<Bytes>, Bytes), AddrError> {
    var head := Head(before);
    if Colons(head) == 0 then
      if before == [] then Err(EmptyPath) else Ok((None, before))
    else if Colons(head) == 1 then
      var colon := Find(head, ':');
      var name :- ParseMountName(head[..colon]);
      var rest := before[colon + 1..];
      if rest == [] then Err(EmptyPath) else Ok((Some(name), rest))
    else Err(AmbiguousColon(head))
  }

  function Parse(spelling: Bytes): Result<Addr, AddrError> {
    var (before, fragment) := SplitFragment(spelling);
    var (root, path) :- ParseBefore(before);
    Ok(Addr(root, path, fragment))
  }

  /** `[root:]path`. */
  function Target(root: Option<Bytes>, path: Bytes): Bytes {
    (if root.Some? then root.value + [':'] else []) + path
  }

  function Print(a: Addr): Bytes {
    Target(a.root, a.path) + FragmentText(a.selector)
  }

  function WithPath(a: Addr, path: Bytes): Result<Addr, AddrError> {
    var reparsed :- Parse(path);
    if reparsed.root.Some? || reparsed.selector.Some? then Err(AmbiguousColon(path))
    else Ok(a.(path := reparsed.path))
  }

  /** Does the trimmed spelling's head carry a root separator? (`trim` is `str::trim`.) */
  predicate HeadCarriesRootSeparator(spelling: Bytes, trim: Bytes -> Bytes) {
    ':' in Head(SplitFragment(trim(spelling)).0)
  }

  function Split(s: Bytes, b: Byte): (parts: seq<Bytes>)
    ensures parts != []
    decreases |s|
  {
    match SplitOnce(s, b)
    case None => [s]
    case Some((first, rest)) => [first] + Split(rest, b)
  }

  /** The lexical confinement predicate of a corpus-relative path. */
  predicate Confined(path: Bytes) {
    && path != [] && path[0] != '/'
    && (forall segment | segment in Split(path, '/') :: segment != [] && segment != "." && segment != "..")
    && ':' !in Head(path)
  }

  // ---- the colon law ---------------------------------------------------------------------

  /** A path an address may carry: not empty, no fragment mark, no colon in its head. */
  predicate PathPart(path: Bytes) { path != [] && '#' !in path && ':' !in Head(path) }

  /** What every address is: a canonical name if any, and a path with no root separator. */
  predicate WellFormed(a: Addr) {
    (a.root.Some? ==> Addressable(a.root.value)) && PathPart(a.path)
  }

  lemma {:induction false} ColonsOfSplit(left: Bytes, right: Bytes)
    ensures Colons(left + right) == Colons(left) + Colons(right)
  {
    if left == [] {
      assert left + right == right;
    } else {
      assert (left + right)[1..] == left[1..] + right;
      ColonsOfSplit(left[1..], right);
    }
  }

  lemma {:induction false} HeadOfRooted(name: Bytes, rest: Bytes)
    requires '/' !in name
    ensures Head(name + rest) == name + Head(rest)
  {
    if name == [] {
      assert name + rest == rest && name + Head(rest) == Head(rest);
    } else {
      assert (name + rest)[1..] == name[1..] + rest;
      HeadOfRooted(name[1..], rest);
    }
  }

  /** One colon ends a name; the rest of the head is the rest's own. */
  lemma RootedHead(name: Bytes, rest: Bytes)
    requires '/' !in name && ':' !in name
    ensures Head(name + [':'] + rest) == name + [':'] + Head(rest)
    ensures Colons(name + [':'] + Head(rest)) == 1 + Colons(Head(rest))
  {
    HeadOfRooted(name + [':'], rest);
    ColonsOfSplit(name + [':'], Head(rest));
    ColonsOfSplit(name, [':']);
    assert Colons([':']) == 1 + Colons([':'][1..]);
  }

  lemma SplitFragmentOf(before: Bytes, selector: Option<Bytes>)
    requires '#' !in before
    ensures SplitFragment(before + FragmentText(selector)) == (before, selector)
  {
    if selector.Some? {
      assert before + (['#'] + selector.value) == before + ['#'] + selector.value;
      SplitOnceAt(before, '#', selector.value);
    } else {
      assert before + [] == before;
    }
  }

  /** Parsing and printing are mutual inverses between the accepted spellings and the well-formed
      addresses: an address parses from exactly one spelling, its own print. */
  lemma ParseIsInverse(spelling: Bytes, a: Addr)
    ensures Parse(spelling) == Ok(a) <==> WellFormed(a) && Print(a) == spelling
  {
    if Parse(spelling) == Ok(a) {
      ParsedIsWellFormed(spelling);
    }
    if WellFormed(a) && Print(a) == spelling {
      PrintedParses(a);
    }
  }

  lemma JoinsAtColon(before: Bytes, colon: nat, path: Bytes)
    requires colon < |before| && before[colon] == ':' && path == before[colon + 1..]
    ensures before == before[..colon] + [':'] + path
  {
  }

  lemma ParsedRooted(before: Bytes, name: Bytes, path: Bytes)
    requires ParseBefore(before) == Ok((Some(name), path))
    ensures Addressable(name) && path != [] && before == name + [':'] + path && Colons(Head(before)) == 1
  {
    var head := Head(before);
    JoinsAtColon(before, Find(head, ':'), path);
    assert head[..Find(head, ':')] == before[..Find(head, ':')];
  }

  lemma ParsedBefore(before: Bytes)
    requires ParseBefore(before).Ok?
    ensures var (root, path) := ParseBefore(before).value;
            && (root.Some? ==> Addressable(root.value))
            && path != [] && ':' !in Head(path) && Target(root, path) == before
            && forall c | c in path :: c in before
  {
    var (root, path) := ParseBefore(before).value;
    if root.Some? {
      ParsedRooted(before, root.value, path);
      CleanName(root.value);
      RootedHead(root.value, path);
    } else {
      assert [] + path == path;
    }
  }

  lemma ParsedIsWellFormed(spelling: Bytes)
    requires Parse(spelling).Ok?
    ensures var a := Parse(spelling).value; WellFormed(a) && Print(a) == spelling
  {
    ParsedBefore(SplitFragment(spelling).0);
  }

  lemma CleanName(name: Bytes)
    requires Addressable(name)
    ensures '/' !in name && ':' !in name && '#' !in name
  {
  }

  lemma OneColonParses(before: Bytes, name: Bytes, path: Bytes)
    requires Colons(Head(before)) == 1 && Find(Head(before), ':') == |name|
    requires Head(before)[..|name|] == name && before[|name| + 1..] == path
    requires Addressable(name) && path != []
    ensures ParseBefore(before) == Ok((Some(name), path))
  {
  }

  lemma RootedParses(name: Bytes, path: Bytes)
    requires Addressable(name) && path != []
    requires ':' !in Head(path)
    ensures ParseBefore(name + [':'] + path) == Ok((Some(name), path))
  {
    CleanName(name);
    RootedHead(name, path);
    FindAt(name, ':', Head(path));
    var before := name + [':'] + path;
    assert Head(before)[..|name|] == name && before[|name| + 1..] == path;
    OneColonParses(before, name, path);
  }

  lemma PrintedBefore(root: Option<Bytes>, path: Bytes)
    requires (root.Some? ==> Addressable(root.value)) && PathPart(path)
    ensures '#' !in Target(root, path) && ParseBefore(Target(root, path)) == Ok((root, path))
  {
    if root.Some? {
      CleanName(root.value);
      RootedParses(root.value, path);
    } else {
      assert [] + path == path;
    }
  }

  lemma PrintedParses(a: Addr)
    requires WellFormed(a)
    ensures Parse(Print(a)) == Ok(a)
  {
    PrintedBefore(a.root, a.path);
    SplitFragmentOf(Target(a.root, a.path), a.selector);
  }

  lemma BarePrints(a: Addr)
    requires a.root.None? && a.selector.None?
    ensures Print(a) == a.path
  {
    assert ([] + a.path) + [] == a.path;
  }

  /** A bare spelling is a path exactly when it parses with neither root nor selector. */
  lemma BareIsAPath(path: Bytes)
    ensures PathPart(path) <==> Parse(path) == Ok(Addr(None, path, None))
  {
    var bare := Addr(None, path, None);
    BarePrints(bare);
    ParseIsInverse(path, bare);
    assert WellFormed(bare) <==> PathPart(path);
  }

  /** A path is replaced exactly when it is one an address may carry; nothing else moves. */
  lemma WithPathAdmits(a: Addr, path: Bytes)
    ensures WithPath(a, path).Ok? <==> PathPart(path)
    ensures PathPart(path) ==> WithPath(a, path) == Ok(a.(path := path))
  {
    BareIsAPath(path);
    if WithPath(a, path).Ok? {
      ParsedIsWellFormed(path);
      BarePrints(Parse(path).value);
    }
  }

  /** Replacing the path, time after time; a refused replacement leaves the address. */
  function Rebased(a: Addr, paths: seq<Bytes>): Addr
    decreases |paths|
  {
    if paths == [] then a
    else Rebased(if WithPath(a, paths[0]).Ok? then WithPath(a, paths[0]).value else a, paths[1..])
  }

  /** No parse followed by any replacements smuggles a root separator into a path's head. */
  lemma {:induction false} NoSmuggledRoot(a: Addr, paths: seq<Bytes>)
    requires WellFormed(a)
    ensures var b := Rebased(a, paths);
            WellFormed(b) && b.root == a.root && b.selector == a.selector && Parse(Print(b)) == Ok(b)
    decreases |paths|
  {
    if paths != [] {
      WithPathAdmits(a, paths[0]);
      NoSmuggledRoot(if WithPath(a, paths[0]).Ok? then WithPath(a, paths[0]).value else a, paths[1..]);
    } else {
      PrintedParses(a);
    }
  }

  /** A spelling the head-separator test admits refuses or parses rooted, and one that parses
      rooted is admitted. */
  lemma SeparatorMeansRootedOrRefused(spelling: Bytes, trim: Bytes -> Bytes)
    requires trim(spelling) == spelling
    ensures Parse(spelling).Ok? ==> (HeadCarriesRootSeparator(spelling, trim) <==> Parse(spelling).value.root.Some?)
  {}

  /** A confined path with no fragment mark is an address path, and parses to itself unrooted. */
  lemma ConfinedIsAPath(path: Bytes)
    requires Confined(path) && '#' !in path
    ensures Parse(path) == Ok(Addr(None, path, None))
  {
    ParseIsInverse(path, Addr(None, path, None));
    assert Print(Addr(None, path, None)) == path;
  }
}
