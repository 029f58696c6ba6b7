/** Binding the declared roots of a machine into a table, and the projection other planes resolve
    through.

    The machine is a parameter, `World`: how a path canonicalizes, which paths the deny ceiling
    refuses, what a root declares of itself, and how a pinned claim is decided. A canonical path is
    the list of its components. */
module MountTable {
  import opened Bytes
  import opened Names

  type Path = seq<string>

  datatype MountState = Bound | PathUnseeable | Undeclared | DeclarationUnreadable | ClaimUnverifiable | Drifted

  predicate Refuses(s: MountState) { !s.Bound? }

  datatype Declaration = Missing | Unreadable | Declares(name: string)

  datatype World = World(
    canonicalize: string -> Option<Path>,
    denied: Path -> bool,
    declaration: Path -> Declaration,
    verdict: (Path, string) -> MountState)

  datatype Mount = Mount(
    name: string, declaredPath: string, canonical: Option<Path>, primary: bool, vault: Option<string>,
    pin: Option<string>, alias: Option<string>, declaredName: Option<string>, state: MountState, implicit: bool)

  datatype Reason =
    | MountPathDenied | DuplicateMountPath | NestedMount | DuplicateVaultName | DeclaredBoundMismatch

  function MountInState(e: MountEntry, canonical: Option<Path>, declaredName: Option<string>, state: MountState): Mount {
    Mount(e.name, e.path, canonical, e.primary, e.vault, e.pin, e.alias, declaredName, state, false)
  }

  // ---- the rule, over the entries alone --------------------------------------------------

  /** Component-wise: a sibling whose last component merely begins alike is not inside. */
  predicate Nested(a: Path, b: Path) { a <= b || b <= a }

  /** Why two resolvable entries may not both bind. */
  function Clash(path: Path, vault: Option<string>, prior: Path, priorVault: Option<string>): Option<Reason> {
    if prior == path then Some(DuplicateMountPath)
    else if Nested(prior, path) then Some(NestedMount)
    else if vault.Some? && vault == priorVault then Some(DuplicateVaultName)
    else None
  }

  function PathOf(w: World, e: MountEntry): Option<Path> { w.canonicalize(e.path) }

  /** The first of the earlier entries that clashes, and how. */
  function FirstClash(w: World, entries: seq<MountEntry>, path: Path, vault: Option<string>): Option<Reason> {
    if entries == [] then None
    else
      var p := PathOf(w, entries[0]);
      if p.Some? && Clash(path, vault, p.value, entries[0].vault).Some? then Clash(path, vault, p.value, entries[0].vault)
      else FirstClash(w, entries[1..], path, vault)
  }

  /** What is wrong with the k-th entry, given that the earlier ones stand. */
  function Offense(w: World, entries: seq<MountEntry>, k: nat): Option<Reason>
    requires k < |entries|
  {
    var e := entries[k];
    var p := PathOf(w, e);
    if p.None? then None
    else if w.denied(p.value) then Some(MountPathDenied)
    else if FirstClash(w, entries[..k], p.value, e.vault).Some? then FirstClash(w, entries[..k], p.value, e.vault)
    else if w.declaration(p.value).Declares? && w.declaration(p.value).name != e.name then Some(DeclaredBoundMismatch)
    else None
  }

  /** The whole rule at once. Entries that do not resolve here are exempt from all of it. */
  ghost predicate Bindable(w: World, entries: seq<MountEntry>) {
    && (forall k | 0 <= k < |entries| :: PathOf(w, entries[k]).Some? ==> Admitted(w, entries[k]))
    && (forall j, k | 0 <= j < |entries| && 0 <= k < |entries| && j != k :: Apart(w, entries[j], entries[k]))
  }

  predicate Admitted(w: World, e: MountEntry)
    requires PathOf(w, e).Some?
  {
    var p := PathOf(w, e).value;
    !w.denied(p) && (w.declaration(p).Declares? ==> w.declaration(p).name == e.name)
  }

  /** Different trees, neither inside the other, under different vault names. */
  predicate Apart(w: World, a: MountEntry, b: MountEntry) {
    PathOf(w, a).Some? && PathOf(w, b).Some? ==>
      && PathOf(w, a) != PathOf(w, b)
      && !(PathOf(w, a).value <= PathOf(w, b).value) && !(PathOf(w, b).value <= PathOf(w, a).value)
      && (a.vault.Some? ==> a.vault != b.vault)
  }

  lemma {:induction false} NoClashMeansApart(w: World, entries: seq<MountEntry>, e: MountEntry)
    requires PathOf(w, e).Some?
    ensures FirstClash(w, entries, PathOf(w, e).value, e.vault).None? <==> forall j | 0 <= j < |entries| :: Apart(w, entries[j], e)
    decreases |entries|
  {
    if entries != [] {
      NoClashMeansApart(w, entries[1..], e);
      ClashMeans(w, entries[0], e);
      assert forall j | 0 < j < |entries| :: entries[j] == entries[1..][j - 1];
    }
  }

  lemma ClashMeans(w: World, prior: MountEntry, e: MountEntry)
    requires PathOf(w, e).Some?
    ensures Apart(w, prior, e) <==>
            (PathOf(w, prior).Some? ==> Clash(PathOf(w, e).value, e.vault, PathOf(w, prior).value, prior.vault).None?)
  {
  }

  /** Checking each entry against the earlier ones is checking the whole rule. */
  lemma IncrementalIsGlobal(w: World, entries: seq<MountEntry>)
    ensures (forall k | 0 <= k < |entries| :: Offense(w, entries, k).None?) <==> Bindable(w, entries)
  {
    forall k | 0 <= k < |entries|
      ensures Offense(w, entries, k).None? <==>
              (PathOf(w, entries[k]).Some? ==> Admitted(w, entries[k])) && forall j | 0 <= j < k :: Apart(w, entries[j], entries[k])
    {
      OffenseMeans(w, entries, k);
    }
    if forall k | 0 <= k < |entries| :: Offense(w, entries, k).None? {
      forall j, k | 0 <= j < |entries| && 0 <= k < |entries| && j != k ensures Apart(w, entries[j], entries[k]) {
        assert Offense(w, entries, j).None? && Offense(w, entries, k).None?;
        if k < j { assert Apart(w, entries[k], entries[j]); }
      }
    }
  }

  lemma OffenseMeans(w: World, entries: seq<MountEntry>, k: nat)
    requires k < |entries|
    ensures Offense(w, entries, k).None? <==>
            (PathOf(w, entries[k]).Some? ==> Admitted(w, entries[k])) && forall j | 0 <= j < k :: Apart(w, entries[j], entries[k])
  {
    if PathOf(w, entries[k]).Some? {
      NoClashMeansApart(w, entries[..k], entries[k]);
      assert forall j | 0 <= j < k :: entries[..k][j] == entries[j];
    }
  }

  // ---- binding, entry by entry -----------------------------------------------------------

  /** The row an admitted entry gets. */
  function Row(w: World, e: MountEntry): Mount {
    var p := PathOf(w, e);
    if p.None? then MountInState(e, None, None, PathUnseeable)
    else
      match w.declaration(p.value)
      case Missing => MountInState(e, p, None, Undeclared)
      case Unreadable => MountInState(e, p, None, DeclarationUnreadable)
      case Declares(name) => MountInState(e, p, Some(name), if e.pin.Some? then w.verdict(p.value, e.pin.value) else Bound)
  }

  function Rows(w: World, entries: seq<MountEntry>): seq<Mount> {
    seq(|entries|, i requires 0 <= i < |entries| => Row(w, entries[i]))
  }

  /** The table's rows keep what the checks read of the entries. */
  predicate Mirrors(w: World, mounts: seq<Mount>, entries: seq<MountEntry>) {
    && |mounts| == |entries|
    && forall i | 0 <= i < |mounts| :: mounts[i].canonical == PathOf(w, entries[i]) && mounts[i].vault == entries[i].vault
  }

  method CheckUniqueness(vault: Option<string>, bound: seq<Mount>, path: Path, ghost w: World, ghost entries: seq<MountEntry>)
    returns (r: Option<Reason>)
    requires Mirrors(w, bound, entries)
    ensures r == FirstClash(w, entries, path, vault)
  {
    for i := 0 to |bound|
      invariant FirstClash(w, entries[i..], path, vault) == FirstClash(w, entries, path, vault)
    {
      assert entries[i..][0] == entries[i] && entries[i..][1..] == entries[i + 1..];
      var prior := bound[i].canonical;
      if prior.None? { continue; }
      if prior.value == path { return Some(DuplicateMountPath); }
      if Nested(prior.value, path) { return Some(NestedMount); }
      if vault.Some? && bound[i].vault.Some? && vault.value == bound[i].vault.value { return Some(DuplicateVaultName); }
    }
    r := None;
  }

  method BindOne(w: World, e: MountEntry, bound: seq<Mount>, ghost entries: seq<MountEntry>) returns (r: Result<Mount, Reason>)
    requires Mirrors(w, bound, entries)
    ensures var offense := Offense(w, entries + [e], |entries|);
            r == if offense.Some? then Err(offense.value) else Ok(Row(w, e))
  {
    assert (entries + [e])[..|entries|] == entries;
    var p := w.canonicalize(e.path);
    if p.None? { return Ok(MountInState(e, None, None, PathUnseeable)); }
    if w.denied(p.value) { return Err(MountPathDenied); }
    var clash := CheckUniqueness(e.vault, bound, p.value, w, entries);
    if clash.Some? { return Err(clash.value); }
    match w.declaration(p.value)
    case Missing => return Ok(MountInState(e, p, None, Undeclared));
    case Unreadable => return Ok(MountInState(e, p, None, DeclarationUnreadable));
    case Declares(name) =>
      if name != e.name { return Err(DeclaredBoundMismatch); }
      return Ok(MountInState(e, p, Some(name), if e.pin.Some? then w.verdict(p.value, e.pin.value) else Bound));
  }

  datatype Refusal = Refusal(entry: nat, reason: Reason)

  /** All or nothing: the rows of every entry when the whole rule holds, else the first offending
      entry in file order and why. */
  method Bind(w: World, entries: seq<MountEntry>) returns (r: Result<seq<Mount>, Refusal>)
    ensures r.Ok? <==> Bindable(w, entries)
    ensures r.Ok? ==> r.value == Rows(w, entries)
    ensures r.Err? ==> r.error.entry < |entries| && Offense(w, entries, r.error.entry) == Some(r.error.reason)
    ensures r.Err? ==> forall k | 0 <= k < r.error.entry :: Offense(w, entries, k).None?
  {
    var mounts: seq<Mount> := [];
    for i := 0 to |entries|
      invariant mounts == Rows(w, entries[..i])
      invariant forall k | 0 <= k < i :: Offense(w, entries, k).None?
    {
      var row := BindOne(w, entries[i], mounts, entries[..i]);
      OffenseOfPrefix(w, entries, i);
      if row.Err? {
        IncrementalIsGlobal(w, entries);
        return Err(Refusal(i, row.error));
      }
      assert entries[..i + 1] == entries[..i] + [entries[i]];
      mounts := mounts + [row.value];
    }
    IncrementalIsGlobal(w, entries);
    assert entries[..|entries|] == entries;
    r := Ok(mounts);
  }

  lemma OffenseOfPrefix(w: World, entries: seq<MountEntry>, i: nat)
    requires i < |entries|
    ensures Offense(w, entries[..i] + [entries[i]], |entries[..i]|) == Offense(w, entries, i)
  {
    assert (entries[..i] + [entries[i]])[..i] == entries[..i];
  }

  // ---- the implicit default --------------------------------------------------------------

  const DEFAULT_SESSIONS_NAME: string := "sessions"
  const DEFAULT_SESSIONS_SUBPATH: string := ".local/share/ucc/sessions"

  function DefaultEntry(home: string): MountEntry {
    MountEntry(DEFAULT_SESSIONS_NAME,
               (if home != [] && home[|home| - 1] == '/' then home else home + ['/']) + DEFAULT_SESSIONS_SUBPATH,
               false, None, None, None)
  }

  predicate Claims(m: Mount, spelling: string) { m.name == spelling || m.alias == Some(spelling) }

  /** What the table promises of itself. */
  ghost predicate Sound(w: World, mounts: seq<Mount>, entries: seq<MountEntry>) {
    && Bindable(w, entries) && Mirrors(w, mounts, entries)
    && (forall i | 0 <= i < |mounts| :: mounts[i].name == entries[i].name && mounts[i].alias == entries[i].alias)
    && (forall i | 0 <= i < |mounts| :: mounts[i].declaredName.Some? ==> mounts[i].declaredName == Some(mounts[i].name))
  }

  /** The default is appended only when nothing claims its spelling and it binds clean; the declared
      rows are untouched and the table promises what it did. `home` is there and not blank. */
  method AppendImplicitDefault(w: World, mounts: seq<Mount>, home: Option<string>, ghost entries: seq<MountEntry>)
    returns (all: seq<Mount>, ghost bound: seq<MountEntry>)
    requires Sound(w, mounts, entries)
    ensures Sound(w, all, bound)
    ensures (all == mounts && bound == entries) || (|all| == |mounts| + 1 && all[..|mounts|] == mounts && bound[..|entries|] == entries)
    ensures |all| > |mounts| <==>
            && (forall m :: m in mounts ==> !Claims(m, DEFAULT_SESSIONS_NAME))
            && home.Some? && PathOf(w, DefaultEntry(home.value)).Some?
            && Offense(w, entries + [DefaultEntry(home.value)], |entries|).None?
            && Row(w, DefaultEntry(home.value)).state.Bound?
    ensures |all| > |mounts| ==>
            && all[|mounts|] == Row(w, DefaultEntry(home.value)).(implicit := true)
            && all[|mounts|].state.Bound? && all[|mounts|].name == DEFAULT_SESSIONS_NAME
  {
    all, bound := mounts, entries;
    for i := 0 to |mounts|
      invariant forall k | 0 <= k < i :: !Claims(mounts[k], DEFAULT_SESSIONS_NAME)
    {
      if Claims(mounts[i], DEFAULT_SESSIONS_NAME) { return; }
    }
    if home.None? { return; }
    var entry := DefaultEntry(home.value);
    var row := BindOne(w, entry, mounts, entries);
    if row.Err? || !row.value.state.Bound? { return; }
    all := mounts + [row.value.(implicit := true)];
    bound := entries + [entry];
    BindableGrows(w, entries, entry);
  }

  lemma BindableGrows(w: World, entries: seq<MountEntry>, e: MountEntry)
    requires Bindable(w, entries) && Offense(w, entries + [e], |entries|).None?
    ensures Bindable(w, entries + [e])
  {
    var all := entries + [e];
    IncrementalIsGlobal(w, entries);
    forall k | 0 <= k < |all| ensures Offense(w, all, k).None? {
      if k < |entries| {
        assert Offense(w, entries, k).None?;
        assert all[..k] == entries[..k];
      }
    }
    IncrementalIsGlobal(w, all);
  }

  lemma BoundIsSound(w: World, entries: seq<MountEntry>)
    requires Bindable(w, entries)
    ensures Sound(w, Rows(w, entries), entries)
  {
    forall i | 0 <= i < |entries| ensures Rows(w, entries)[i].declaredName.Some? ==> Rows(w, entries)[i].declaredName == Some(entries[i].name) {
      if PathOf(w, entries[i]).Some? { assert Admitted(w, entries[i]); }
    }
  }

  // ---- lookups ---------------------------------------------------------------------------

  function First(mounts: seq<Mount>, p: Mount -> bool): (r: Option<Mount>)
    ensures r.Some? ==> r.value in mounts && p(r.value)
    ensures r.None? ==> forall m :: m in mounts ==> !p(m)
  {
    if mounts == [] then None else if p(mounts[0]) then Some(mounts[0]) else First(mounts[1..], p)
  }

  function ByName(mounts: seq<Mount>, name: string): Option<Mount> { First(mounts, (m: Mount) => m.name == name) }

  function ByNameOrAlias(mounts: seq<Mount>, spelling: string): Option<Mount> {
    if ByName(mounts, spelling).Some? then ByName(mounts, spelling) else First(mounts, (m: Mount) => m.alias == Some(spelling))
  }

  function ByPath(mounts: seq<Mount>, path: Path): Option<Mount> { First(mounts, (m: Mount) => m.canonical == Some(path)) }

  function ByVault(mounts: seq<Mount>, vault: string): Option<Mount> { First(mounts, (m: Mount) => m.vault == Some(vault)) }

  /** The three-way map is one: a path finds its own mount and no other, and so does a vault name
      among the mounts that resolve. */
  lemma PathIsAKey(w: World, mounts: seq<Mount>, entries: seq<MountEntry>, i: nat)
    requires Sound(w, mounts, entries) && i < |mounts| && mounts[i].canonical.Some?
    ensures ByPath(mounts, mounts[i].canonical.value) == Some(mounts[i])
    ensures mounts[i].vault.Some? && (forall m :: m in mounts ==> m.canonical.Some?) ==>
              ByVault(mounts, mounts[i].vault.value) == Some(mounts[i])
  {
    assert mounts[i] in mounts;
    var found := ByPath(mounts, mounts[i].canonical.value).value;
    var j :| 0 <= j < |mounts| && mounts[j] == found;
    assert j != i ==> Apart(w, entries[j], entries[i]);
    if mounts[i].vault.Some? && forall m :: m in mounts ==> m.canonical.Some? {
      var named := ByVault(mounts, mounts[i].vault.value).value;
      var k :| 0 <= k < |mounts| && mounts[k] == named;
      assert mounts[k] in mounts;
      assert k != i ==> Apart(w, entries[k], entries[i]);
    }
  }

  // ---- what the config checked of names and aliases --------------------------------------

  /** Every alias must be a name nothing else claims. The first that is not, by its place. */
  method CheckAliasUniqueness(aliases: seq<string>, names: seq<string>) returns (bad: Option<nat>)
    ensures bad.None? <==> (forall a :: a in aliases ==> a !in names)
                           && (forall i, j | 0 <= i < j < |aliases| :: aliases[i] != aliases[j])
    ensures bad.Some? ==> bad.value < |aliases| && (aliases[bad.value] in names || aliases[bad.value] in aliases[..bad.value])
    ensures bad.Some? ==> forall k | 0 <= k < bad.value :: aliases[k] !in names && aliases[k] !in aliases[..k]
  {
    for i := 0 to |aliases|
      invariant forall k | 0 <= k < i :: aliases[k] !in names
      invariant forall j, k | 0 <= j < k < i :: aliases[j] != aliases[k]
    {
      if aliases[i] in names || aliases[i] in aliases[..i] { return Some(i); }
    }
    bad := None;
  }

  /** A table whose config passed the name and alias checks. */
  ghost predicate NamesChecked(mounts: seq<Mount>) {
    && (forall m :: m in mounts ==> CheckName(m.name) && (m.alias.Some? ==> CheckName(m.alias.value)))
    && (forall i, j | 0 <= i < |mounts| && 0 <= j < |mounts| && i != j :: mounts[i].name != mounts[j].name)
    && (forall i, j | 0 <= i < |mounts| && 0 <= j < |mounts| && mounts[i].alias.Some? :: mounts[i].alias.value != mounts[j].name)
    && (forall i, j | 0 <= i < |mounts| && 0 <= j < |mounts| && i != j && mounts[i].alias.Some? :: mounts[i].alias != mounts[j].alias)
  }

  lemma SessionsIsAName()
    ensures CheckName(DEFAULT_SESSIONS_NAME)
  {
    var s := DEFAULT_SESSIONS_NAME;
    assert s[0] == 's' && s[1] == 'e' && s[2] == 's' && s[3] == 's' && s[4] == 'i' && s[5] == 'o' && s[6] == 'n' && s[7] == 's';
  }

  /** The default's name cannot disturb what was checked of the declared ones. */
  lemma DefaultKeepsNames(mounts: seq<Mount>, m: Mount)
    requires NamesChecked(mounts) && m.name == DEFAULT_SESSIONS_NAME && m.alias.None?
    requires forall d :: d in mounts ==> !Claims(d, DEFAULT_SESSIONS_NAME)
    ensures NamesChecked(mounts + [m])
  {
    SessionsIsAName();
    var all := mounts + [m];
    assert forall i | 0 <= i < |mounts| :: all[i] == mounts[i] && mounts[i] in mounts && !Claims(mounts[i], DEFAULT_SESSIONS_NAME);
    assert all[|mounts|] == m;
  }

  // ---- the projection --------------------------------------------------------------------

  datatype UnreachableRoot = UnreachableRoot(name: string, path: string)

  datatype Pair = Pair(key: string, value: string)

  datatype MountSet = MountSet(bound: seq<string>, unreachable: seq<UnreachableRoot>, aliases: seq<Pair>, vaults: seq<Pair>)

  function Retain<T(!new)>(s: seq<T>, keep: T -> bool): (r: seq<T>)
    ensures forall x :: x in r <==> x in s && keep(x)
  {
    if s == [] then [] else if keep(s[0]) then [s[0]] + Retain(s[1..], keep) else Retain(s[1..], keep)
  }

  function WithVault(set_: MountSet, name: string, vault: string): MountSet {
    set_.(vaults := Retain(set_.vaults, (p: Pair) => p.key != name) + [Pair(name, vault)])
  }

  function WithAlias(set_: MountSet, alias: string, name: string): MountSet {
    set_.(aliases := Retain(set_.aliases, (p: Pair) => p.key != alias) + [Pair(alias, name)])
  }

  function WithUnreachable(set_: MountSet, name: string, path: string): MountSet {
    MountSet(Retain(set_.bound, n => n != name),
             Retain(set_.unreachable, (u: UnreachableRoot) => u.name != name) + [UnreachableRoot(name, path)],
             set_.aliases,
             Retain(set_.vaults, (p: Pair) => p.key != name))
  }

  /** The set says of the table: which names bind, which are declared but refuse and where, which
      second spelling reaches which name, and the vault of each bound root. */
  ghost predicate Projects(set_: MountSet, mounts: seq<Mount>) {
    && (forall n :: n in set_.bound <==> exists m :: m in mounts && m.name == n && m.state.Bound?)
    && (forall u :: u in set_.unreachable <==> exists m :: m in mounts && m.name == u.name && m.declaredPath == u.path && Refuses(m.state))
    && (forall p :: p in set_.aliases <==> exists m :: m in mounts && m.alias == Some(p.key) && m.name == p.value)
    && (forall p :: p in set_.vaults <==> exists m :: m in mounts && m.state.Bound? && m.name == p.key && m.vault == Some(p.value))
  }

  predicate Functional(pairs: seq<Pair>) { forall p, q :: p in pairs && q in pairs && p.key == q.key ==> p == q }

  /** The four lists the table is read into. */
  method Gather(mounts: seq<Mount>) returns (set_: MountSet)
    requires forall m :: m in mounts ==> Addressable(m.name) && (m.alias.Some? ==> Addressable(m.alias.value))
    ensures Projects(set_, mounts)
  {
    set_ := MountSet([], [], [], []);
    for i := 0 to |mounts|
      invariant Projects(set_, mounts[..i])
    {
      var m := mounts[i];
      assert mounts[..i + 1] == mounts[..i] + [m];
      GatherOne(set_, mounts[..i], m);
      set_ := Gathered(set_, m);
    }
    assert mounts[..|mounts|] == mounts;
  }

  function Gathered(s: MountSet, m: Mount): MountSet {
    MountSet(if Refuses(m.state) then s.bound else s.bound + [m.name],
             if Refuses(m.state) then s.unreachable + [UnreachableRoot(m.name, m.declaredPath)] else s.unreachable,
             if m.alias.Some? then s.aliases + [Pair(m.alias.value, m.name)] else s.aliases,
             if m.vault.Some? && !Refuses(m.state) then s.vaults + [Pair(m.name, m.vault.value)] else s.vaults)
  }

  lemma GatherOne(s: MountSet, mounts: seq<Mount>, m: Mount)
    requires Projects(s, mounts)
    ensures Projects(Gathered(s, m), mounts + [m])
  {
    var all, s' := mounts + [m], Gathered(s, m);
    assert m in all && forall d :: d in mounts ==> d in all;
    forall n ensures n in s'.bound <==> exists d :: d in all && d.name == n && d.state.Bound? {}
    forall u ensures u in s'.unreachable <==> exists d :: d in all && d.name == u.name && d.declaredPath == u.path && Refuses(d.state) {}
    forall p ensures p in s'.aliases <==> exists d :: d in all && d.alias == Some(p.key) && d.name == p.value {}
    forall p ensures p in s'.vaults <==> exists d :: d in all && d.state.Bound? && d.name == p.key && d.vault == Some(p.value) {}
  }

  /** The names of a bound set: doubles collapse. */
  method NewSet(bound: seq<string>) returns (set_: MountSet)
    ensures forall n :: n in set_.bound <==> n in bound
    ensures set_.unreachable == [] && set_.aliases == [] && set_.vaults == []
  {
    var names: seq<string> := [];
    for i := 0 to |bound|
      invariant forall n :: n in names <==> n in bound[..i]
    {
      if bound[i] !in names { names := names + [bound[i]]; }
    }
    assert bound[..|bound|] == bound;
    set_ := MountSet(names, [], [], []);
  }

  method AddAliases(set_: MountSet, pairs: seq<Pair>) returns (all: MountSet)
    requires Functional(pairs) && set_.aliases == []
    ensures forall p :: p in all.aliases <==> p in pairs
    ensures all == set_.(aliases := all.aliases)
  {
    all := set_;
    for i := 0 to |pairs|
      invariant forall p :: p in all.aliases <==> p in pairs[..i]
      invariant all == set_.(aliases := all.aliases)
    {
      assert forall p :: p in pairs[..i] ==> p in pairs;
      all := WithAlias(all, pairs[i].key, pairs[i].value);
    }
    assert pairs[..|pairs|] == pairs;
  }

  method AddVaults(set_: MountSet, pairs: seq<Pair>) returns (all: MountSet)
    requires Functional(pairs) && set_.vaults == []
    ensures forall p :: p in all.vaults <==> p in pairs
    ensures all == set_.(vaults := all.vaults)
  {
    all := set_;
    for i := 0 to |pairs|
      invariant forall p :: p in all.vaults <==> p in pairs[..i]
      invariant all == set_.(vaults := all.vaults)
    {
      assert forall p :: p in pairs[..i] ==> p in pairs;
      all := WithVault(all, pairs[i].key, pairs[i].value);
    }
    assert pairs[..|pairs|] == pairs;
  }

  method AddUnreachable(set_: MountSet, roots: seq<UnreachableRoot>) returns (all: MountSet)
    requires forall u, v :: u in roots && v in roots && u.name == v.name ==> u == v
    requires forall u :: u in roots ==> u.name !in set_.bound && forall p :: p in set_.vaults ==> p.key != u.name
    requires set_.unreachable == []
    ensures forall u :: u in all.unreachable <==> u in roots
    ensures (forall n :: n in all.bound <==> n in set_.bound) && (forall p :: p in all.vaults <==> p in set_.vaults)
    ensures all.aliases == set_.aliases
  {
    all := set_;
    for i := 0 to |roots|
      invariant forall u :: u in all.unreachable <==> u in roots[..i]
      invariant (forall n :: n in all.bound <==> n in set_.bound) && (forall p :: p in all.vaults <==> p in set_.vaults)
      invariant all.aliases == set_.aliases
    {
      assert forall u :: u in roots[..i] ==> u in roots;
      assert roots[i] in roots;
      all := WithUnreachable(all, roots[i].name, roots[i].path);
    }
    assert roots[..|roots|] == roots;
  }

  /** The keys are keys: no two mounts share a name or an alias. */
  lemma OneMountPerKey(mounts: seq<Mount>, a: Mount, b: Mount)
    requires NamesChecked(mounts) && a in mounts && b in mounts
    ensures a.name == b.name ==> a == b
    ensures a.alias.Some? && a.alias == b.alias ==> a == b
    ensures a.alias.Some? ==> a.alias.value != b.name
  {
    var i :| 0 <= i < |mounts| && mounts[i] == a;
    var j :| 0 <= j < |mounts| && mounts[j] == b;
  }

  lemma GatheredIsKeyed(s: MountSet, mounts: seq<Mount>)
    requires NamesChecked(mounts) && Projects(s, mounts)
    ensures Functional(s.aliases) && Functional(s.vaults)
    ensures forall u, v :: u in s.unreachable && v in s.unreachable && u.name == v.name ==> u == v
    ensures forall u :: u in s.unreachable ==> u.name !in s.bound && forall p :: p in s.vaults ==> p.key != u.name
  {
    forall a, b | a in mounts && b in mounts
      ensures (a.name == b.name ==> a == b) && (a.alias.Some? && a.alias == b.alias ==> a == b)
    {
      OneMountPerKey(mounts, a, b);
    }
  }

  /** The table, projected for the planes that resolve and translate. */
  method Projection(mounts: seq<Mount>) returns (set_: MountSet)
    requires NamesChecked(mounts)
    ensures Projects(set_, mounts)
  {
    var lists := Gather(mounts);
    GatheredIsKeyed(lists, mounts);
    set_ := NewSet(lists.bound);
    set_ := AddAliases(set_, lists.aliases);
    set_ := AddVaults(set_, lists.vaults);
    set_ := AddUnreachable(set_, lists.unreachable);
  }

  // ---- what a resolver asks of the projection ----------------------------------------------

  function AliasTarget(aliases: seq<Pair>, spelling: string): (r: Option<string>)
    ensures r.Some? ==> Pair(spelling, r.value) in aliases
    ensures r.None? ==> forall p :: p in aliases ==> p.key != spelling
  {
    if aliases == [] then None
    else if aliases[0].key == spelling then (assert aliases[0] == Pair(spelling, aliases[0].value); Some(aliases[0].value))
    else AliasTarget(aliases[1..], spelling)
  }

  function UnreachableAt(roots: seq<UnreachableRoot>, name: string): (r: Option<UnreachableRoot>)
    ensures r.Some? ==> r.value in roots && r.value.name == name
    ensures r.None? ==> forall u :: u in roots ==> u.name != name
  {
    if roots == [] then None else if roots[0].name == name then Some(roots[0]) else UnreachableAt(roots[1..], name)
  }

  function Canonical(s: MountSet, spelling: string): Option<string> {
    if spelling in s.bound || UnreachableAt(s.unreachable, spelling).Some? then Some(spelling) else AliasTarget(s.aliases, spelling)
  }

  predicate IsBound(s: MountSet, spelling: string) {
    spelling in s.bound || exists p :: p in s.aliases && p.key == spelling && p.value in s.bound
  }

  function UnreachableFor(s: MountSet, spelling: string): Option<UnreachableRoot> {
    if UnreachableAt(s.unreachable, spelling).Some? then UnreachableAt(s.unreachable, spelling)
    else if AliasTarget(s.aliases, spelling).Some? then UnreachableAt(s.unreachable, AliasTarget(s.aliases, spelling).value)
    else None
  }

  /** Every spelling gets one answer from the table and from its projection: the same canonical name,
      bound exactly when that mount is, unreachable exactly when it refuses, at its declared path. */
  lemma ProjectionAgrees(s: MountSet, mounts: seq<Mount>, spelling: string)
    requires NamesChecked(mounts) && Projects(s, mounts)
    ensures var m := ByNameOrAlias(mounts, spelling);
            && Canonical(s, spelling) == (if m.Some? then Some(m.value.name) else None)
            && (IsBound(s, spelling) <==> m.Some? && m.value.state.Bound?)
            && UnreachableFor(s, spelling)
               == if m.Some? && Refuses(m.value.state) then Some(UnreachableRoot(m.value.name, m.value.declaredPath)) else None
  {
    forall a, b | a in mounts && b in mounts
      ensures (a.name == b.name ==> a == b) && (a.alias.Some? && a.alias == b.alias ==> a == b)
              && (a.alias.Some? ==> a.alias.value != b.name)
    {
      OneMountPerKey(mounts, a, b);
    }
    var m := ByNameOrAlias(mounts, spelling);
    if m.Some? {
      MountIsProjected(s, mounts, m.value);
    }
  }

  lemma MountIsProjected(s: MountSet, mounts: seq<Mount>, m: Mount)
    requires Projects(s, mounts) && m in mounts
    ensures m.state.Bound? ==> m.name in s.bound
    ensures Refuses(m.state) ==> UnreachableRoot(m.name, m.declaredPath) in s.unreachable
    ensures m.alias.Some? ==> Pair(m.alias.value, m.name) in s.aliases
  {
  }

  /** No name of the projection is both bound and unreachable. */
  lemma BoundOrUnreachable(s: MountSet, mounts: seq<Mount>, name: string)
    requires NamesChecked(mounts) && Projects(s, mounts)
    ensures !(name in s.bound && UnreachableAt(s.unreachable, name).Some?)
    ensures !(IsBound(s, name) && UnreachableFor(s, name).Some?)
  {
    ProjectionAgrees(s, mounts, name);
    GatheredIsKeyed(s, mounts);
  }
}
