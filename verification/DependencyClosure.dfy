/** The locked dependency closure of the semantic source crates: a worklist over the package table of a
    lock file, and the sorted identities of the external packages it reaches.

    A dependency is its name and the version and source it may be qualified with. How one package's
    identity is spelled is a parameter. */
module DependencyClosure {
  import opened Bytes
  import opened ByteOrder
  import opened Positions

  const ROOTS: seq<Bytes> := ["addr", "syntax", "model", "parse-cache"]

  datatype Dependency = Dependency(name: Bytes, version: Option<Bytes>, source: Option<Bytes>)

  datatype Identity = Identity(name: Bytes, version: Bytes, source: Option<Bytes>, checksum: Option<Bytes>)

  datatype Package = Package(id: Identity, dependencies: seq<Dependency>)

  datatype Error = RootsMissing | Ambiguous | LocalDependency

  // ---- resolution ------------------------------------------------------------------------

  predicate Matches(p: Package, d: Dependency) {
    && p.id.name == d.name
    && (d.version.Some? ==> p.id.version == d.version.value)
    && (d.source.Some? ==> p.id.source == d.source)
  }

  predicate Resolves(table: seq<Package>, d: Dependency, i: nat) {
    i < |table| && Matches(table[i], d) && forall j | 0 <= j < |table| && Matches(table[j], d) :: j == i
  }

  predicate IsRoot(p: Package) { p.id.name in ROOTS && p.id.source.None? }

  function Roots(table: seq<Package>): set<nat> { set i: nat | i < |table| && IsRoot(table[i]) }

  /** Every dependency of every member resolves, to a member. */
  ghost predicate Closed(table: seq<Package>, s: set<nat>) {
    && (forall i :: i in s ==> i < |table|)
    && forall i, d :: i in s && d in table[i].dependencies ==> exists j :: Resolves(table, d, j) && j in s
  }

  ghost predicate Over(table: seq<Package>, s: set<nat>) { Closed(table, s) && Roots(table) <= s }

  /** The least closed set that holds the roots. */
  ghost predicate IsClosure(table: seq<Package>, s: set<nat>) {
    && Over(table, s)
    && forall t :: Over(table, t) ==> s <= t
  }

  lemma ClosureIsUnique(table: seq<Package>, a: set<nat>, b: set<nat>)
    requires IsClosure(table, a) && IsClosure(table, b)
    ensures a == b
  {
  }

  /** The one package a dependency names, if it names one. */
  method Resolve(table: seq<Package>, d: Dependency) returns (r: Option<nat>)
    ensures r.Some? ==> Resolves(table, d, r.value)
    ensures r.None? ==> forall j :: !Resolves(table, d, j)
  {
    var matches: seq<nat> := [];
    for i := 0 to |table|
      invariant forall k | 0 <= k < |matches| :: matches[k] < i && Matches(table[matches[k]], d)
      invariant forall j | 0 <= j < i && Matches(table[j], d) :: j in matches
      invariant forall k, l | 0 <= k < l < |matches| :: matches[k] < matches[l]
    {
      if Matches(table[i], d) { matches := matches + [i]; }
    }
    if |matches| == 1 {
      assert forall j | 0 <= j < |table| && Matches(table[j], d) :: j in matches && j == matches[0];
      return Some(matches[0]);
    }
    assert |matches| > 1 ==> Matches(table[matches[0]], d) && Matches(table[matches[1]], d) && matches[0] != matches[1];
    r := None;
  }

  method FindRoots(table: seq<Package>) returns (todo: seq<nat>)
    ensures forall i :: i in todo <==> i in Roots(table)
    ensures |todo| == |Roots(table)|
  {
    todo := [];
    ghost var found: set<nat> := {};
    for i := 0 to |table|
      invariant found == set j: nat | j < i && IsRoot(table[j])
      invariant |todo| == |found| && forall j :: j in todo <==> j in found
    {
      if IsRoot(table[i]) {
        todo := todo + [i];
        found := found + {i};
      }
    }
  }

  /** What the worklist keeps: nothing beyond any closed set over the roots, and every member's
      dependencies resolved into what is seen or still to do. */
  ghost predicate Within(table: seq<Package>, seen: set<nat>, todo: seq<nat>) {
    forall t :: Over(table, t) ==> seen <= t && forall i :: i in todo ==> i in t
  }

  ghost predicate Led(table: seq<Package>, i: nat, n: nat, seen: set<nat>, todo: seq<nat>)
    requires i < |table| && n <= |table[i].dependencies|
  {
    forall k | 0 <= k < n :: Leads(table, table[i].dependencies[k], seen, todo)
  }

  ghost predicate Leads(table: seq<Package>, d: Dependency, seen: set<nat>, todo: seq<nat>) {
    exists j :: Resolves(table, d, j) && (j in seen || j in todo)
  }

  ghost predicate Working(table: seq<Package>, seen: set<nat>, todo: seq<nat>) {
    && (forall i :: i in seen ==> i < |table|) && (forall i :: i in todo ==> i < |table|)
    && (forall i :: i in Roots(table) ==> i in seen || i in todo)
    && Within(table, seen, todo)
  }

  /** Push what one package depends on. */
  method PushDependencies(table: seq<Package>, i: nat, seen: set<nat>, rest: seq<nat>) returns (todo: seq<nat>, ok: bool)
    requires i < |table| && i in seen && Working(table, seen, rest)
    ensures ok ==> Working(table, seen, todo) && Led(table, i, |table[i].dependencies|, seen, todo)
    ensures forall j :: j in rest ==> j in todo
    ensures !ok ==> forall t :: !Over(table, t)
  {
    todo := rest;
    var deps := table[i].dependencies;
    for k := 0 to |deps|
      invariant Working(table, seen, todo) && Led(table, i, k, seen, todo) && forall j :: j in rest ==> j in todo
    {
      var j := Resolve(table, deps[k]);
      if j.None? {
        assert deps[k] in table[i].dependencies;
        return todo, false;
      }
      PushKeeps(table, i, k, seen, todo, j.value);
      todo := todo + [j.value];
    }
    ok := true;
  }

  lemma PushKeeps(table: seq<Package>, i: nat, k: nat, seen: set<nat>, todo: seq<nat>, j: nat)
    requires i < |table| && i in seen && k < |table[i].dependencies| && Working(table, seen, todo)
    requires Led(table, i, k, seen, todo) && Resolves(table, table[i].dependencies[k], j)
    ensures Working(table, seen, todo + [j]) && Led(table, i, k + 1, seen, todo + [j])
  {
    var more := todo + [j];
    assert j in more && forall x :: x in todo ==> x in more;
    forall t | Over(table, t) ensures seen <= t && forall x :: x in more ==> x in t {
      assert table[i].dependencies[k] in table[i].dependencies;
      var r :| Resolves(table, table[i].dependencies[k], r) && r in t;
      assert r == j;
    }
    forall l | 0 <= l < k + 1 ensures Leads(table, table[i].dependencies[l], seen, more) {
      if l < k {
        assert Leads(table, table[i].dependencies[l], seen, todo);
        var x :| Resolves(table, table[i].dependencies[l], x) && (x in seen || x in todo);
        assert x in seen || x in more;
      }
    }
  }

  /** The worklist: ends with the closure, or finds that there is none. */
  method Closure(table: seq<Package>) returns (r: Result<set<nat>, Error>)
    ensures r.Ok? ==> |Roots(table)| == |ROOTS| && IsClosure(table, r.value)
    ensures r == Err(RootsMissing) <==> |Roots(table)| != |ROOTS|
    ensures r == Err(Ambiguous) ==> forall t :: !IsClosure(table, t)
    ensures r != Err(LocalDependency)
  {
    var todo := FindRoots(table);
    if |todo| != |ROOTS| { return Err(RootsMissing); }
    var seen: set<nat> := {};
    ghost var all := Below(|table|);
    while todo != []
      invariant Working(table, seen, todo)
      invariant forall m :: m in seen ==> Led(table, m, |table[m].dependencies|, seen, todo)
      decreases all - seen, |todo|
    {
      ghost var was, before := todo, seen;
      var i := todo[|todo| - 1];
      todo := todo[..|todo| - 1];
      assert was == todo + [i] && i in was;
      var inserted := i !in seen;
      seen := seen + {i};
      Popped(table, before, seen, was, todo, i);
      if !inserted {
        assert seen == before;
        forall m | m in seen ensures Led(table, m, |table[m].dependencies|, seen, todo) { LedStays(table, m, before, was, seen, todo); }
        continue;
      }
      assert i in all && all - seen < all - before;
      var ok;
      todo, ok := PushDependencies(table, i, seen, todo);
      if !ok { return Err(Ambiguous); }
      forall m | m in seen && m != i ensures Led(table, m, |table[m].dependencies|, seen, todo) {
        LedStays(table, m, before, was, seen, todo);
      }
    }
    DoneIsOver(table, seen);
    Done(table, seen);
    r := Ok(seen);
  }

  lemma Popped(table: seq<Package>, before: set<nat>, seen: set<nat>, was: seq<nat>, todo: seq<nat>, i: nat)
    requires Working(table, before, was) && seen == before + {i} && was == todo + [i]
    ensures Working(table, seen, todo)
    ensures forall j :: j in before || j in was ==> j in seen || j in todo
  {
    assert was[|todo|] == i && i in was && i < |table|;
    forall j | j in seen ensures j < |table| {}
    forall j | j in todo ensures j in was {}
    forall j | j in was ensures j in todo || j in seen {}
    forall j | j in Roots(table) ensures j in seen || j in todo { assert j in before || j in was; }
    WithinPopped(table, before, seen, was, todo, i);
  }

  lemma WithinPopped(table: seq<Package>, before: set<nat>, seen: set<nat>, was: seq<nat>, todo: seq<nat>, i: nat)
    requires Within(table, before, was) && seen == before + {i} && was == todo + [i]
    ensures Within(table, seen, todo)
  {
    assert was[|todo|] == i && i in was && forall j :: j in todo ==> j in was;
    forall t | Over(table, t) ensures seen <= t && forall j :: j in todo ==> j in t {
      assert before <= t && forall j :: j in was ==> j in t;
    }
  }

  lemma LedStays(table: seq<Package>, m: nat, before: set<nat>, was: seq<nat>, seen: set<nat>, todo: seq<nat>)
    requires m < |table| && Led(table, m, |table[m].dependencies|, before, was)
    requires forall j :: j in before || j in was ==> j in seen || j in todo
    ensures Led(table, m, |table[m].dependencies|, seen, todo)
  {
    forall k | 0 <= k < |table[m].dependencies| ensures Leads(table, table[m].dependencies[k], seen, todo) {
      assert Leads(table, table[m].dependencies[k], before, was);
      var j :| Resolves(table, table[m].dependencies[k], j) && (j in before || j in was);
      assert j in seen || j in todo;
    }
  }

  lemma DoneIsOver(table: seq<Package>, seen: set<nat>)
    requires Working(table, seen, []) && forall i :: i in seen ==> Led(table, i, |table[i].dependencies|, seen, [])
    ensures Over(table, seen)
  {
    forall i | i in Roots(table) ensures i in seen {}
    forall i, d | i in seen && d in table[i].dependencies ensures exists j :: Resolves(table, d, j) && j in seen {
      var k :| 0 <= k < |table[i].dependencies| && table[i].dependencies[k] == d;
      assert Led(table, i, |table[i].dependencies|, seen, []) && Leads(table, table[i].dependencies[k], seen, []);
      var j :| Resolves(table, table[i].dependencies[k], j) && (j in seen || j in []);
      assert j in seen;
    }
  }

  lemma Done(table: seq<Package>, seen: set<nat>)
    requires Over(table, seen) && Within(table, seen, [])
    ensures IsClosure(table, seen)
  {
  }

  // ---- the output ------------------------------------------------------------------------

  predicate InOrder(a: Bytes, b: Bytes) { a == b || Less(a, b) }

  predicate Ordered(s: seq<Bytes>) { forall i, j | 0 <= i < j < |s| :: InOrder(s[i], s[j]) }

  lemma HeadsAgree(a: seq<Bytes>, b: seq<Bytes>)
    requires Ordered(a) && Ordered(b) && multiset(a) == multiset(b) && a != [] && b != []
    ensures a[0] == b[0]
  {
    assert a[0] in multiset(a) && b[0] in multiset(b);
    var i :| 0 <= i < |b| && b[i] == a[0];
    var j :| 0 <= j < |a| && a[j] == b[0];
    LessIsTotal(a[0], b[0]);
    assert InOrder(a[0], b[0]) && InOrder(b[0], a[0]);
  }

  lemma TailOf(a: seq<Bytes>)
    requires a != []
    ensures multiset(a[1..]) == multiset(a) - multiset{a[0]}
  {
    assert a == [a[0]] + a[1..];
  }

  /** Sorting by bytes leaves no choice. */
  lemma {:induction false} OrderedIsUnique(a: seq<Bytes>, b: seq<Bytes>)
    requires Ordered(a) && Ordered(b) && multiset(a) == multiset(b)
    ensures a == b
    decreases |a|
  {
    assert |a| == |multiset(a)| == |multiset(b)| == |b|;
    if a != [] {
      HeadsAgree(a, b);
      TailOf(a);
      TailOf(b);
      OrderedIsUnique(a[1..], b[1..]);
      assert a == [a[0]] + a[1..] && b == [b[0]] + b[1..];
    }
  }

  method SortedInsert(s: seq<Bytes>, x: Bytes) returns (r: seq<Bytes>)
    requires Ordered(s)
    ensures Ordered(r) && multiset(r) == multiset(s) + multiset{x}
  {
    var i := 0;
    while i < |s| && Less(s[i], x)
      invariant 0 <= i <= |s| && forall k | 0 <= k < i :: Less(s[k], x)
    {
      i := i + 1;
    }
    InsertKeepsOrder(s, i, x);
    assert s == s[..i] + s[i..];
    r := s[..i] + [x] + s[i..];
  }

  lemma InsertKeepsOrder(s: seq<Bytes>, i: nat, x: Bytes)
    requires Ordered(s) && i <= |s| && (forall k | 0 <= k < i :: Less(s[k], x)) && (i < |s| ==> !Less(s[i], x))
    ensures Ordered(s[..i] + [x] + s[i..])
  {
    if i < |s| {
      LessIsTotal(s[i], x);
      forall k | i <= k < |s| ensures InOrder(x, s[k]) {
        if k > i && x != s[i] && s[i] != s[k] { LessIsTransitive(x, s[i], s[k]); }
      }
    }
  }

  function JoinNewline(lines: seq<Bytes>): Bytes {
    if lines == [] then [] else if |lines| == 1 then lines[0] else lines[0] + (['\n'] + JoinNewline(lines[1..]))
  }

  predicate External(p: Package) { p.id.source.Some? }

  /** The identities of the external members, spelled, with their multiplicity. */
  function Spelled(table: seq<Package>, spell: Identity -> Bytes, s: set<nat>, n: nat): multiset<Bytes>
    requires n <= |table|
  {
    if n == 0 then multiset{}
    else
      var before := Spelled(table, spell, s, n - 1);
      if n - 1 in s && External(table[n - 1]) then before + multiset{spell(table[n - 1].id)} else before
  }

  lemma SpelledMore(table: seq<Package>, spell: Identity -> Bytes, s: set<nat>, i: nat)
    requires i < |table|
    ensures Spelled(table, spell, s, i + 1)
            == Spelled(table, spell, s, i) + if i in s && External(table[i]) then multiset{spell(table[i].id)} else multiset{}
  {
  }

  /** A local member is one of the roots. */
  predicate CoveredAt(p: Package) { !External(p) ==> p.id.name in ROOTS }

  predicate Covered(table: seq<Package>, s: set<nat>) { forall i :: i in s && i < |table| ==> CoveredAt(table[i]) }

  /** What the sorted, joined output of a closure must be. */
  ghost predicate IsOutput(table: seq<Package>, spell: Identity -> Bytes, s: set<nat>, out: Bytes) {
    exists lines :: Ordered(lines) && multiset(lines) == Spelled(table, spell, s, |table|) && out == JoinNewline(lines)
  }

  method Select(table: seq<Package>, spell: Identity -> Bytes, seen: set<nat>) returns (r: Result<seq<Bytes>, Error>)
    ensures r.Ok? <==> Covered(table, seen)
    ensures r.Ok? ==> Ordered(r.value) && multiset(r.value) == Spelled(table, spell, seen, |table|)
    ensures r.Err? ==> r.error == LocalDependency
  {
    var selected: seq<Bytes> := [];
    for i := 0 to |table|
      invariant Ordered(selected) && multiset(selected) == Spelled(table, spell, seen, i)
      invariant forall j :: j in seen && j < i ==> CoveredAt(table[j])
    {
      SpelledMore(table, spell, seen, i);
      if i in seen {
        if External(table[i]) {
          selected := SortedInsert(selected, spell(table[i].id));
        } else if table[i].id.name !in ROOTS {
          return Err(LocalDependency);
        }
      }
    }
    r := Ok(selected);
  }

  /** One output for one closure. */
  lemma OutputIsUnique(table: seq<Package>, spell: Identity -> Bytes, s: set<nat>, a: Bytes, b: Bytes)
    requires IsOutput(table, spell, s, a) && IsOutput(table, spell, s, b)
    ensures a == b
  {
    var la :| Ordered(la) && multiset(la) == Spelled(table, spell, s, |table|) && a == JoinNewline(la);
    var lb :| Ordered(lb) && multiset(lb) == Spelled(table, spell, s, |table|) && b == JoinNewline(lb);
    OrderedIsUnique(la, lb);
  }

  /** What a run over the table ends with, when it ends well: every root there, a closure, no local
      member outside the roots, and these bytes. */
  ghost predicate Yields(table: seq<Package>, spell: Identity -> Bytes, out: Bytes) {
    |Roots(table)| == |ROOTS| && exists s :: IsClosure(table, s) && Covered(table, s) && IsOutput(table, spell, s, out)
  }

  lemma YieldsOnce(table: seq<Package>, spell: Identity -> Bytes, a: Bytes, b: Bytes)
    requires Yields(table, spell, a) && Yields(table, spell, b)
    ensures a == b
  {
    var s :| IsClosure(table, s) && Covered(table, s) && IsOutput(table, spell, s, a);
    var t :| IsClosure(table, t) && Covered(table, t) && IsOutput(table, spell, t, b);
    ClosureIsUnique(table, s, t);
    OutputIsUnique(table, spell, s, a, b);
  }

  /** The bytes that identify the locked closure: the only ones it yields, or none at all. */
  method DependencyBytes(table: seq<Package>, spell: Identity -> Bytes) returns (r: Result<Bytes, Error>)
    ensures forall out :: Yields(table, spell, out) <==> r == Ok(out)
    ensures r == Err(RootsMissing) <==> |Roots(table)| != |ROOTS|
    ensures r == Err(Ambiguous) ==> forall s :: !IsClosure(table, s)
    ensures r == Err(LocalDependency) ==> exists s :: IsClosure(table, s) && !Covered(table, s)
  {
    var closure := Closure(table);
    if closure.Err? {
      forall out ensures !Yields(table, spell, out) {
        if closure.error.Ambiguous? { assert forall t :: !IsClosure(table, t); }
      }
      return Err(closure.error);
    }
    var seen := closure.value;
    var selected := Select(table, spell, seen);
    if selected.Err? {
      forall s | IsClosure(table, s) ensures s == seen { ClosureIsUnique(table, s, seen); }
      return Err(selected.error);
    }
    var bytes := JoinNewline(selected.value);
    assert IsOutput(table, spell, seen, bytes);
    assert Yields(table, spell, bytes);
    forall out | Yields(table, spell, out) ensures out == bytes { YieldsOnce(table, spell, out, bytes); }
    r := Ok(bytes);
  }

  // ---- when two tables give the same bytes -------------------------------------------------

  /** Where the members spelled x are. */
  function Places(table: seq<Package>, spell: Identity -> Bytes, s: set<nat>, n: nat, x: Bytes): set<nat>
    requires n <= |table|
  {
    set i: nat | i in s && i < n && External(table[i]) && spell(table[i].id) == x
  }

  lemma {:induction false} SpelledCounts(table: seq<Package>, spell: Identity -> Bytes, s: set<nat>, n: nat, x: Bytes)
    requires n <= |table|
    ensures Spelled(table, spell, s, n)[x] == |Places(table, spell, s, n, x)|
  {
    if n > 0 {
      SpelledCounts(table, spell, s, n - 1, x);
      PlacesGrow(table, spell, s, n, x);
    }
  }

  lemma PlacesGrow(table: seq<Package>, spell: Identity -> Bytes, s: set<nat>, n: nat, x: Bytes)
    requires 0 < n <= |table|
    ensures Places(table, spell, s, n, x)
            == Places(table, spell, s, n - 1, x) + if n - 1 in s && External(table[n - 1]) && spell(table[n - 1].id) == x then {n - 1} else {}
    ensures n - 1 !in Places(table, spell, s, n - 1, x)
  {
  }

  predicate Injective(f: map<nat, nat>) { forall i, j :: i in f && j in f && f[i] == f[j] ==> i == j }

  function Image(f: map<nat, nat>, s: set<nat>): set<nat>
    requires s <= f.Keys
  {
    set i | i in s :: f[i]
  }

  lemma {:induction false} ImageCounts(f: map<nat, nat>, s: set<nat>)
    requires Injective(f) && s <= f.Keys
    ensures |Image(f, s)| == |s|
    decreases |s|
  {
    if s == {} {
      assert Image(f, s) == {};
    } else {
      var i :| i in s;
      ImageCounts(f, s - {i});
      assert Image(f, s) == Image(f, s - {i}) + {f[i]};
      assert f[i] !in Image(f, s - {i});
    }
  }

  /** A correspondence of one table's closure with members of another: roots with all roots, the same
      identity, and each dependency on either side matched by one on the other. */
  ghost predicate Corresponds(a: seq<Package>, sa: set<nat>, b: seq<Package>, f: map<nat, nat>) {
    && f.Keys == sa && Injective(f)
    && (forall i :: i in sa ==> i < |a| && f[i] < |b| && b[f[i]].id == a[i].id)
    && (forall j :: j in Roots(b) ==> exists i :: i in sa && i in Roots(a) && f[i] == j)
    && (forall i, d :: i in sa && d in b[f[i]].dependencies ==> exists k :: k in sa && Resolves(b, d, f[k]))
    && (forall i, d, k :: i in sa && k in sa && d in a[i].dependencies && Resolves(a, d, k) ==> exists e :: e in b[f[i]].dependencies && Resolves(b, e, f[k]))
  }

  lemma ImageIsOver(a: seq<Package>, sa: set<nat>, b: seq<Package>, f: map<nat, nat>)
    requires IsClosure(a, sa) && Corresponds(a, sa, b, f)
    ensures Over(b, Image(f, sa))
  {
    var sb := Image(f, sa);
    forall j, d | j in sb && d in b[j].dependencies ensures exists r :: Resolves(b, d, r) && r in sb {
      var i :| i in sa && f[i] == j;
      var k :| k in sa && Resolves(b, d, f[k]);
      assert f[k] in sb;
    }
    forall j | j in Roots(b) ensures j in sb {
      var i :| i in sa && i in Roots(a) && f[i] == j;
    }
  }

  /** Whatever another table's closure holds, its preimage is closed here. */
  lemma PreimageIsOver(a: seq<Package>, sa: set<nat>, b: seq<Package>, f: map<nat, nat>, t: set<nat>)
    requires IsClosure(a, sa) && Corresponds(a, sa, b, f) && Over(b, t)
    ensures Image(f, sa) <= t
  {
    var back := set i | i in sa && f[i] in t;
    forall i, d | i in back && d in a[i].dependencies ensures exists k :: Resolves(a, d, k) && k in back {
      var k :| Resolves(a, d, k) && k in sa;
      var e :| e in b[f[i]].dependencies && Resolves(b, e, f[k]);
      var r :| Resolves(b, e, r) && r in t;
      assert r == f[k];
    }
    forall i | i in Roots(a) ensures i in back {
      assert IsRoot(b[f[i]]);
      assert f[i] in Roots(b);
    }
    assert Over(a, back);
  }

  lemma ClosuresCorrespond(a: seq<Package>, sa: set<nat>, b: seq<Package>, f: map<nat, nat>)
    requires IsClosure(a, sa) && Corresponds(a, sa, b, f)
    ensures IsClosure(b, Image(f, sa))
  {
    ImageIsOver(a, sa, b, f);
    forall t | Over(b, t) ensures Image(f, sa) <= t {
      PreimageIsOver(a, sa, b, f, t);
    }
  }

  lemma SpelledAlike(a: seq<Package>, sa: set<nat>, b: seq<Package>, f: map<nat, nat>, spell: Identity -> Bytes, x: Bytes)
    requires IsClosure(a, sa) && Corresponds(a, sa, b, f)
    ensures Spelled(a, spell, sa, |a|)[x] == Spelled(b, spell, Image(f, sa), |b|)[x]
  {
    SpelledCounts(a, spell, sa, |a|, x);
    SpelledCounts(b, spell, Image(f, sa), |b|, x);
    var here, there := Places(a, spell, sa, |a|, x), Places(b, spell, Image(f, sa), |b|, x);
    ImageCounts(f, here);
    assert Image(f, here) == there;
  }

  lemma SpelledTheSame(a: seq<Package>, sa: set<nat>, b: seq<Package>, f: map<nat, nat>, spell: Identity -> Bytes)
    requires IsClosure(a, sa) && Corresponds(a, sa, b, f)
    ensures Spelled(a, spell, sa, |a|) == Spelled(b, spell, Image(f, sa), |b|)
  {
    forall s ensures Spelled(a, spell, sa, |a|)[s] == Spelled(b, spell, Image(f, sa), |b|)[s] { SpelledAlike(a, sa, b, f, spell, s); }
  }

  lemma RootsCorrespond(a: seq<Package>, sa: set<nat>, b: seq<Package>, f: map<nat, nat>)
    requires IsClosure(a, sa) && Corresponds(a, sa, b, f)
    ensures |Roots(a)| == |Roots(b)|
  {
    forall i | i in Roots(a) ensures f[i] in Roots(b) { assert IsRoot(b[f[i]]); }
    assert Image(f, Roots(a)) == Roots(b);
    ImageCounts(f, Roots(a));
  }

  lemma CoveredAlike(a: seq<Package>, sa: set<nat>, b: seq<Package>, f: map<nat, nat>)
    requires IsClosure(a, sa) && Corresponds(a, sa, b, f)
    ensures Covered(a, sa) <==> Covered(b, Image(f, sa))
  {
    if Covered(b, Image(f, sa)) {
      forall i | i in sa && !External(a[i]) ensures a[i].id.name in ROOTS { assert f[i] in Image(f, sa); }
    }
  }

  /** Two tables whose closures correspond yield the same: one run succeeds exactly when the other does,
      and with the same bytes. */
  lemma SameBytes(a: seq<Package>, sa: set<nat>, b: seq<Package>, f: map<nat, nat>, spell: Identity -> Bytes, out: Bytes)
    requires IsClosure(a, sa) && Corresponds(a, sa, b, f)
    ensures Yields(a, spell, out) <==> Yields(b, spell, out)
  {
    var sb := Image(f, sa);
    ClosuresCorrespond(a, sa, b, f);
    RootsCorrespond(a, sa, b, f);
    CoveredAlike(a, sa, b, f);
    SpelledTheSame(a, sa, b, f, spell);
    assert IsOutput(a, spell, sa, out) <==> IsOutput(b, spell, sb, out);
    forall s | IsClosure(a, s) ensures s == sa { ClosureIsUnique(a, s, sa); }
    forall s | IsClosure(b, s) ensures s == sb { ClosureIsUnique(b, s, sb); }
  }

  /** Packages appended, and members' dependencies respelled, so long as no new root appears and each
      member still names the same packages, uniquely. */
  lemma UnrelatedChangesKeepBytes(a: seq<Package>, sa: set<nat>, b: seq<Package>, spell: Identity -> Bytes, out: Bytes)
    requires IsClosure(a, sa)
    requires |a| <= |b| && Roots(b) == Roots(a)
    requires forall i :: i in sa ==> i < |a| && b[i].id == a[i].id
    requires forall i, d :: i in sa && d in b[i].dependencies ==> exists k :: k in sa && Resolves(b, d, k)
    requires forall i, d, k :: i in sa && k in sa && d in a[i].dependencies && Resolves(a, d, k) ==> exists e :: e in b[i].dependencies && Resolves(b, e, k)
    ensures Yields(a, spell, out) <==> Yields(b, spell, out)
  {
    var f: map<nat, nat> := map i | i in sa :: i;
    assert Corresponds(a, sa, b, f);
    SameBytes(a, sa, b, f, spell, out);
  }

  /** A reordering: place i of one table is place to[i] of the other. */
  ghost predicate Reorders(a: seq<Package>, b: seq<Package>, to: seq<nat>) {
    && |to| == |a| == |b|
    && (forall i | 0 <= i < |a| :: to[i] < |b| && b[to[i]] == a[i])
    && (forall i, j | 0 <= i < |a| && 0 <= j < |a| && to[i] == to[j] :: i == j)
    && (forall j | 0 <= j < |b| :: j in to)
  }

  lemma ReorderedResolves(a: seq<Package>, b: seq<Package>, to: seq<nat>, d: Dependency, k: nat)
    requires Reorders(a, b, to) && Resolves(a, d, k)
    ensures Resolves(b, d, to[k])
  {
    forall j | 0 <= j < |b| && Matches(b[j], d) ensures j == to[k] {
      assert j in to;
      var i :| 0 <= i < |to| && to[i] == j;
    }
  }

  lemma ReorderedCorresponds(a: seq<Package>, sa: set<nat>, b: seq<Package>, to: seq<nat>) returns (f: map<nat, nat>)
    requires IsClosure(a, sa) && Reorders(a, b, to)
    ensures Corresponds(a, sa, b, f)
  {
    f := map i | i in sa :: to[i];
    forall j | j in Roots(b) ensures exists i :: i in sa && i in Roots(a) && f[i] == j {
      assert j in to;
      var i :| 0 <= i < |to| && to[i] == j;
      assert i in Roots(a) && i in sa;
    }
    forall i, d | i in sa && d in b[f[i]].dependencies ensures exists k :: k in sa && Resolves(b, d, f[k]) {
      var k :| Resolves(a, d, k) && k in sa;
      ReorderedResolves(a, b, to, d, k);
    }
    forall i, d, k | i in sa && k in sa && d in a[i].dependencies && Resolves(a, d, k)
      ensures exists e :: e in b[f[i]].dependencies && Resolves(b, e, f[k])
    {
      ReorderedResolves(a, b, to, d, k);
    }
  }

  function PlaceIn(to: seq<nat>, j: nat): (i: nat)
    requires j in to
    ensures i < |to| && to[i] == j
  {
    if to[0] == j then 0 else PlaceIn(to[1..], j) + 1
  }

  /** A reordering undone is one. */
  lemma ReordersBack(a: seq<Package>, b: seq<Package>, to: seq<nat>) returns (back: seq<nat>)
    requires Reorders(a, b, to)
    ensures Reorders(b, a, back)
  {
    back := seq(|b|, j requires 0 <= j < |b| => PlaceIn(to, j));
    forall i | 0 <= i < |a| ensures i in back { assert to[i] < |b| && back[to[i]] == i; }
  }

  lemma ReorderingKeepsWhatIsYielded(a: seq<Package>, b: seq<Package>, to: seq<nat>, spell: Identity -> Bytes, out: Bytes)
    requires Reorders(a, b, to) && Yields(a, spell, out)
    ensures Yields(b, spell, out)
  {
    var sa :| IsClosure(a, sa) && Covered(a, sa) && IsOutput(a, spell, sa, out);
    var f := ReorderedCorresponds(a, sa, b, to);
    SameBytes(a, sa, b, f, spell, out);
  }

  /** The order of the package table reaches neither the bytes nor whether there are any. */
  lemma ReorderingKeepsBytes(a: seq<Package>, b: seq<Package>, to: seq<nat>, spell: Identity -> Bytes, out: Bytes)
    requires Reorders(a, b, to)
    ensures Yields(a, spell, out) <==> Yields(b, spell, out)
  {
    if Yields(a, spell, out) { ReorderingKeepsWhatIsYielded(a, b, to, spell, out); }
    if Yields(b, spell, out) {
      var back := ReordersBack(a, b, to);
      ReorderingKeepsWhatIsYielded(b, a, back, spell, out);
    }
  }
}
