/** The pin plane of `check`: sort the coloured pins, then ask each object store the corpus pins into
    about every blob pinned there.

    Stores and the locks of the pages are values: a store may refuse to be asked, and says which
    objects it reaches, holds, and what a file hashes to now. */
module PinPlane {
  import opened Bytes
  import opened Address

  datatype Color = Red | Grey | OutsideHashDomain | Green

  datatype PinRow = PinRow(page: Bytes, declaredRef: Bytes, color: Color, rendered: Bytes)

  datatype Pin = Pin(object_: Bytes, hash: Bytes)

  /** A page, and its lock's pins if it has a lock that reads. */
  datatype Page = Page(path: Bytes, lock: Option<seq<Pin>>)

  datatype Store = Store(answers: bool, reachable: set<Bytes>, held: set<Bytes>, live: Bytes -> Option<Bytes>)

  /** This root's store, and those of the roots mounted here. */
  datatype Stores = Stores(ambient: Store, mounted: map<Bytes, Store>)

  datatype Anchor = Anchored | Pending | Never

  /** One pinned blob: what names it, whose store answers for it, where its file is there, and its object
      id in lower case. */
  datatype ObjectRef = ObjectRef(page: Bytes, key: Bytes, root: Option<Bytes>, rel: Bytes, oid: Bytes)

  datatype Orphan = Orphan(page: Bytes, key: Bytes, oid: Bytes, state: Anchor, live: Option<Bytes>)

  datatype Stated = Stated(page: Bytes, key: Bytes, root: Bytes)

  datatype Unasked = NotAnAddress(page: Bytes, key: Bytes) | NotAnOid(page: Bytes, key: Bytes) | StoreRefused(root: Option<Bytes>)

  // ---- one pin ---------------------------------------------------------------------------

  function LowerByte(c: Byte): Byte { if 'A' <= c <= 'Z' then (c as int + 32) as char else c }

  function Lower(s: Bytes): (r: Bytes)
    ensures |r| == |s| && forall i | 0 <= i < |s| :: r[i] == LowerByte(s[i])
  {
    if s == [] then [] else [LowerByte(s[0])] + Lower(s[1..])
  }

  predicate HexByte(c: Byte) { '0' <= c <= '9' || 'a' <= c <= 'f' || 'A' <= c <= 'F' }

  predicate IsOid(s: Bytes) { (|s| == 40 || |s| == 64) && forall i | 0 <= i < |s| :: HexByte(s[i]) }

  /** Whose store answers for a pin: nobody's when its object is no address, or names a root not
      mounted here. */
  datatype Owner = Nobody | Unmounted(root: Bytes) | Ambient | Foreign(root: Bytes, path: Bytes)

  function OwnerOf(stores: Stores, pin: Pin): Owner {
    match Parse(pin.object_)
    case Err(_) => Nobody
    case Ok(addr) =>
      if addr.root.None? then Ambient
      else if addr.root.value in stores.mounted then Foreign(addr.root.value, addr.path)
      else Unmounted(addr.root.value)
  }

  predicate Owned(o: Owner) { o.Ambient? || o.Foreign? }

  function RefOf(page: Bytes, pin: Pin, owner: Owner): ObjectRef
    requires Owned(owner)
  {
    if owner.Foreign? then ObjectRef(page, pin.object_, Some(owner.root), owner.path, Lower(pin.hash))
    else ObjectRef(page, pin.object_, None, pin.object_, Lower(pin.hash))
  }

  /** A pin some page's lock declares. */
  ghost predicate Declared(pages: seq<Page>, page: Bytes, pin: Pin) {
    exists p :: p in pages && p.path == page && p.lock.Some? && pin in p.lock.value
  }

  /** Every declared pin that a store answers for. */
  ghost function AskableOf(stores: Stores, page: Bytes, pins: seq<Pin>): set<ObjectRef> {
    set pin | pin in pins && Owned(OwnerOf(stores, pin)) :: RefOf(page, pin, OwnerOf(stores, pin))
  }

  ghost function Askable(stores: Stores, pages: seq<Page>): set<ObjectRef> {
    if pages == [] then {} else Askable(stores, pages[..|pages| - 1]) + AskableIn(stores, pages[|pages| - 1])
  }

  ghost function AskableIn(stores: Stores, p: Page): set<ObjectRef> {
    if p.lock.Some? then AskableOf(stores, p.path, p.lock.value) else {}
  }

  /** A pin that leaves the question open: no address, or an askable one without an object id. */
  predicate Broken(stores: Stores, pin: Pin) {
    OwnerOf(stores, pin).Nobody? || (Owned(OwnerOf(stores, pin)) && !IsOid(Lower(pin.hash)))
  }

  /** The store that owns a reference. */
  function StoreOf(stores: Stores, r: ObjectRef): Store {
    if r.root.Some? && r.root.value in stores.mounted then stores.mounted[r.root.value] else stores.ambient
  }

  function Classify(store: Store, oid: Bytes): Anchor {
    if oid in store.reachable then Anchored else if oid in store.held then Pending else Never
  }

  /** The file still hashes to the blob: committing it anchors it. */
  predicate Lives(store: Store, r: ObjectRef) {
    store.live(r.rel).Some? && Lower(store.live(r.rel).value) == r.oid
  }

  predicate Orphaned(store: Store, r: ObjectRef) { Classify(store, r.oid) != Anchored && !Lives(store, r) }

  // ---- grouping --------------------------------------------------------------------------

  datatype Grouped = Grouped(ambient: seq<ObjectRef>, foreign: map<Bytes, seq<ObjectRef>>, unmounted: seq<Stated>)

  predicate NoDoubles(s: seq<ObjectRef>) { forall i, j | 0 <= i < |s| && 0 <= j < |s| && s[i] == s[j] :: i == j }

  /** Each reference once, in the list of the store that owns it. */
  ghost predicate Routed(g: Grouped, all: set<ObjectRef>) {
    && NoDoubles(g.ambient)
    && (forall n :: n in g.foreign ==> g.foreign[n] != [] && NoDoubles(g.foreign[n]))
    && (forall r :: r in g.ambient <==> r in all && r.root.None?)
    && (forall n, r :: n in g.foreign && r in g.foreign[n] ==> r in all && r.root == Some(n))
    && (forall r :: r in all && r.root.Some? ==> r.root.value in g.foreign && r in g.foreign[r.root.value])
  }

  /** Where one more reference goes. */
  function Filed(g: Grouped, r: ObjectRef): Grouped {
    match r.root
    case Some(root) => g.(foreign := g.foreign[root := (if root in g.foreign then g.foreign[root] else []) + [r]])
    case None => g.(ambient := g.ambient + [r])
  }

  lemma FiledRoutes(g: Grouped, all: set<ObjectRef>, r: ObjectRef)
    requires Routed(g, all) && r !in all
    ensures Routed(Filed(g, r), all + {r})
  {
    var g' := Filed(g, r);
    if r.root.Some? {
      var root := r.root.value;
      var had := if root in g.foreign then g.foreign[root] else [];
      assert g'.foreign[root] == had + [r];
    }
  }

  /** Every pin that no store here answers for is stated. */
  ghost predicate StatesUnmounted(stores: Stores, page: Bytes, pins: seq<Pin>, unmounted: seq<Stated>) {
    forall pin :: pin in pins ==> StatedIn(stores, page, pin, unmounted)
  }

  /** A reference already taken; page, object and id decide it. */
  predicate Seen(g: Grouped, r: ObjectRef) {
    match r.root
    case Some(root) => root in g.foreign && r in g.foreign[root]
    case None => r in g.ambient
  }

  lemma SeenIs(g: Grouped, all: set<ObjectRef>, r: ObjectRef)
    requires Routed(g, all)
    ensures Seen(g, r) <==> r in all
  {
  }

  /** What one pin adds: its reference if a store answers for it, else nothing. */
  ghost function RefsOf(stores: Stores, page: Bytes, pin: Pin): set<ObjectRef> {
    if Owned(OwnerOf(stores, pin)) then {RefOf(page, pin, OwnerOf(stores, pin))} else {}
  }

  predicate StatedIn(stores: Stores, page: Bytes, pin: Pin, unmounted: seq<Stated>) {
    OwnerOf(stores, pin).Unmounted? ==> Stated(page, pin.object_, OwnerOf(stores, pin).root) in unmounted
  }

  lemma OwnedRoutes(stores: Stores, page: Bytes, pin: Pin, g: Grouped, all: set<ObjectRef>)
    requires Routed(g, all) && Owned(OwnerOf(stores, pin))
    ensures var ref := RefOf(page, pin, OwnerOf(stores, pin));
            Routed(if Seen(g, ref) then g else Filed(g, ref), all + RefsOf(stores, page, pin))
  {
    var ref := RefOf(page, pin, OwnerOf(stores, pin));
    SeenIs(g, all, ref);
    if Seen(g, ref) {
      assert all + {ref} == all;
    } else {
      FiledRoutes(g, all, ref);
    }
  }

  lemma UnownedRoutes(stores: Stores, page: Bytes, pin: Pin, g: Grouped, more: seq<Stated>, all: set<ObjectRef>)
    requires Routed(g, all) && !Owned(OwnerOf(stores, pin))
    ensures Routed(g.(unmounted := more), all + RefsOf(stores, page, pin))
  {
    assert all + {} == all;
  }

  method GroupPin(stores: Stores, page: Bytes, pin: Pin, g: Grouped, ghost all: set<ObjectRef>) returns (r: Result<Grouped, Unasked>)
    requires Routed(g, all)
    ensures r.Ok? <==> !Broken(stores, pin)
    ensures r.Ok? ==> Routed(r.value, all + RefsOf(stores, page, pin)) && StatedIn(stores, page, pin, r.value.unmounted)
    ensures r.Ok? ==> g.unmounted <= r.value.unmounted
  {
    var owner := OwnerOf(stores, pin);
    match owner
    case Nobody => return Err(NotAnAddress(page, pin.object_));
    case Unmounted(root) =>
      var unmounted := g.unmounted + [Stated(page, pin.object_, root)];
      UnownedRoutes(stores, page, pin, g, unmounted, all);
      return Ok(g.(unmounted := unmounted));
    case _ =>
      if !IsOid(Lower(pin.hash)) { return Err(NotAnOid(page, pin.object_)); }
      var ref := RefOf(page, pin, owner);
      OwnedRoutes(stores, page, pin, g, all);
      return Ok(if Seen(g, ref) then g else Filed(g, ref));
  }

  lemma AskableGrows(stores: Stores, page: Bytes, pins: seq<Pin>, pin: Pin)
    ensures AskableOf(stores, page, pins + [pin])
            == AskableOf(stores, page, pins) + RefsOf(stores, page, pin)
  {
    var all := pins + [pin];
    forall r | r in AskableOf(stores, page, pins) ensures r in AskableOf(stores, page, all) {
      var p :| p in pins && Owned(OwnerOf(stores, p)) && r == RefOf(page, p, OwnerOf(stores, p));
      assert p in all;
    }
    assert pin in all;
  }

  lemma StatesOneMore(stores: Stores, page: Bytes, pins: seq<Pin>, pin: Pin, u: seq<Stated>, u': seq<Stated>)
    requires StatesUnmounted(stores, page, pins, u) && u <= u' && StatedIn(stores, page, pin, u')
    ensures StatesUnmounted(stores, page, pins + [pin], u')
  {
    forall p | p in pins + [pin] ensures StatedIn(stores, page, p, u') {
      if p != pin { assert StatedIn(stores, page, p, u); }
    }
  }

  /** One page's pins, in order, until one that leaves the question open. */
  method GroupPage(stores: Stores, page: Bytes, pins: seq<Pin>, g0: Grouped, ghost all: set<ObjectRef>) returns (r: Result<Grouped, Unasked>)
    requires Routed(g0, all)
    ensures r.Ok? <==> forall pin :: pin in pins ==> !Broken(stores, pin)
    ensures r.Ok? ==> Routed(r.value, all + AskableOf(stores, page, pins))
    ensures r.Ok? ==> StatesUnmounted(stores, page, pins, r.value.unmounted) && g0.unmounted <= r.value.unmounted
  {
    var g := g0;
    ghost var more := all;
    for i := 0 to |pins|
      invariant more == all + AskableOf(stores, page, pins[..i]) && Routed(g, more)
      invariant StatesUnmounted(stores, page, pins[..i], g.unmounted) && g0.unmounted <= g.unmounted
      invariant forall pin :: pin in pins[..i] ==> !Broken(stores, pin)
    {
      assert pins[..i + 1] == pins[..i] + [pins[i]];
      AskableGrows(stores, page, pins[..i], pins[i]);
      ghost var unmounted := g.unmounted;
      g :- GroupPin(stores, page, pins[i], g, more);
      StatesOneMore(stores, page, pins[..i], pins[i], unmounted, g.unmounted);
      more := more + RefsOf(stores, page, pins[i]);
    }
    assert pins[..|pins|] == pins;
    r := Ok(g);
  }

  predicate WholePage(stores: Stores, p: Page) {
    p.lock.Some? ==> forall pin :: pin in p.lock.value ==> !Broken(stores, pin)
  }

  ghost predicate PageStated(stores: Stores, p: Page, unmounted: seq<Stated>) {
    p.lock.Some? ==> StatesUnmounted(stores, p.path, p.lock.value, unmounted)
  }

  /** Every pinned blob the corpus declares, grouped by store, or the first pin that leaves the plane
      unread. A page whose lock refused contributes nothing. */
  method ObjectsIn(stores: Stores, pages: seq<Page>) returns (r: Result<Grouped, Unasked>)
    ensures r.Ok? <==> forall p :: p in pages ==> WholePage(stores, p)
    ensures r.Ok? ==> Routed(r.value, Askable(stores, pages))
    ensures r.Ok? ==> forall p :: p in pages ==> PageStated(stores, p, r.value.unmounted)
  {
    var g := Grouped([], map[], []);
    for i := 0 to |pages|
      invariant Routed(g, Askable(stores, pages[..i]))
      invariant forall p :: p in pages[..i] ==> WholePage(stores, p) && PageStated(stores, p, g.unmounted)
    {
      var p := pages[i];
      assert p in pages;
      assert pages[..i + 1][..i] == pages[..i];
      ghost var unmounted := g.unmounted;
      if p.lock.Some? {
        g :- GroupPage(stores, p.path, p.lock.value, g, Askable(stores, pages[..i]));
      } else {
        assert Askable(stores, pages[..i]) + {} == Askable(stores, pages[..i]);
      }
      forall q | q in pages[..i] ensures PageStated(stores, q, g.unmounted) {
        StillStated(stores, q, unmounted, g.unmounted);
      }
      assert pages[..i + 1] == pages[..i] + [p];
    }
    assert pages[..|pages|] == pages;
    r := Ok(g);
  }

  lemma StillStated(stores: Stores, p: Page, u: seq<Stated>, u': seq<Stated>)
    requires PageStated(stores, p, u) && u <= u'
    ensures PageStated(stores, p, u')
  {
    if p.lock.Some? {
      forall pin | pin in p.lock.value ensures StatedIn(stores, p.path, pin, u') {
        assert StatedIn(stores, p.path, pin, u);
      }
    }
  }

  // ---- the plane -------------------------------------------------------------------------

  function Coloured(pins: seq<PinRow>, color: Color): seq<PinRow> {
    if pins == [] then []
    else
      var n := |pins| - 1;
      if pins[n].color == color then Coloured(pins[..n], color) + [pins[n]] else Coloured(pins[..n], color)
  }

  /** The four colours split the rows among them. */
  lemma {:induction false} ColoursPartition(pins: seq<PinRow>)
    ensures multiset(Coloured(pins, Red)) + multiset(Coloured(pins, Grey)) + multiset(Coloured(pins, OutsideHashDomain))
            + multiset(Coloured(pins, Green)) == multiset(pins)
    decreases |pins|
  {
    if pins != [] {
      ColoursPartition(pins[..|pins| - 1]);
      assert pins == pins[..|pins| - 1] + [pins[|pins| - 1]];
    }
  }

  class PinPlane {
    var red: seq<PinRow>
    var grey: seq<PinRow>
    var unattested: seq<PinRow>
    var orphaned: seq<Orphan>
    var anchored: nat
    var pending: nat
    var never: nat
    var cannotAsk: Option<Unasked>
    var declared: nat
    var outOfJurisdiction: seq<Stated>

    constructor ()
      ensures red == [] && grey == [] && unattested == [] && orphaned == [] && outOfJurisdiction == []
      ensures anchored == 0 && pending == 0 && never == 0 && cannotAsk == None && declared == 0
    {
      red, grey, unattested, orphaned, outOfJurisdiction := [], [], [], [], [];
      anchored, pending, never, cannotAsk, declared := 0, 0, 0, None, 0;
    }

    predicate IsRed()
      reads this
    {
      red != [] || orphaned != []
    }

    function Asked(): nat
      reads this
    {
      anchored + pending + never
    }

    predicate CannotAssess()
      reads this
    {
      grey != [] || cannotAsk.Some?
    }

    predicate IsGreen()
      reads this
    {
      !IsRed() && !CannotAssess()
    }

    /** The rows by colour. */
    method SortPins(pins: seq<PinRow>)
      requires red == [] && grey == [] && unattested == []
      modifies this
      ensures red == Coloured(pins, Red) && grey == Coloured(pins, Grey) && unattested == Coloured(pins, OutsideHashDomain)
      ensures unchanged(this`orphaned, this`anchored, this`pending, this`never, this`cannotAsk, this`outOfJurisdiction)
      ensures declared == |pins|
    {
      declared := |pins|;
      for i := 0 to |pins|
        invariant red == Coloured(pins[..i], Red) && grey == Coloured(pins[..i], Grey)
        invariant unattested == Coloured(pins[..i], OutsideHashDomain)
        invariant unchanged(this`orphaned, this`anchored, this`pending, this`never, this`cannotAsk, this`outOfJurisdiction)
        invariant declared == |pins|
      {
        assert pins[..i + 1][..i] == pins[..i];
        match pins[i].color
        case Red => red := red + [pins[i]];
        case OutsideHashDomain => unattested := unattested + [pins[i]];
        case Grey => grey := grey + [pins[i]];
        case Green =>
      }
      assert pins[..|pins|] == pins;
    }

    /** Ask one store about every entry and classify. A store that refuses changes nothing. */
    method AskStore(store: Store, root: Option<Bytes>, objects: seq<ObjectRef>) returns (r: Option<Unasked>)
      modifies this`anchored, this`pending, this`never, this`orphaned
      ensures r == if store.answers then None else Some(StoreRefused(root))
      ensures Asked() == old(Asked()) + if store.answers then |objects| else 0
      ensures orphaned == old(orphaned) + if store.answers then OrphansOf(store, objects) else []
    {
      if !store.answers { return Some(StoreRefused(root)); }
      for i := 0 to |objects|
        invariant Asked() == old(Asked()) + i
        invariant orphaned == old(orphaned) + OrphansOf(store, objects[..i])
      {
        var object_ := objects[i];
        assert objects[..i + 1][..i] == objects[..i];
        var state := Classify(store, object_.oid);
        match state {
          case Anchored =>
            anchored := anchored + 1;
            continue;
          case Pending => pending := pending + 1;
          case Never => never := never + 1;
        }
        var live := store.live(object_.rel);
        if live.Some? && Lower(live.value) == object_.oid { continue; }
        Appended(old(orphaned), OrphansOf(store, objects[..i]), Orphan(object_.page, object_.key, object_.oid, state, live));
        orphaned := orphaned + [Orphan(object_.page, object_.key, object_.oid, state, live)];
      }
      assert objects[..|objects|] == objects;
      r := None;
    }
  }

  lemma Appended(a: seq<Orphan>, b: seq<Orphan>, o: Orphan)
    ensures (a + b) + [o] == a + (b + [o])
  {
  }

  function OrphansOf(store: Store, objects: seq<ObjectRef>): seq<Orphan> {
    if objects == [] then []
    else
      var n := |objects| - 1;
      var o := objects[n];
      if Orphaned(store, o) then OrphansOf(store, objects[..n]) + [Orphan(o.page, o.key, o.oid, Classify(store, o.oid), store.live(o.rel))]
      else OrphansOf(store, objects[..n])
  }

  lemma {:induction false} NoOrphansMeans(store: Store, objects: seq<ObjectRef>)
    ensures OrphansOf(store, objects) == [] <==> forall o :: o in objects ==> !Orphaned(store, o)
    decreases |objects|
  {
    if objects != [] {
      var n := |objects| - 1;
      NoOrphansMeans(store, objects[..n]);
      assert objects == objects[..n] + [objects[n]];
    }
  }

  // ---- the whole reading -----------------------------------------------------------------

  lemma {:induction false} AskableIsMounted(stores: Stores, pages: seq<Page>)
    ensures forall r :: r in Askable(stores, pages) && r.root.Some? ==> r.root.value in stores.mounted
    decreases |pages|
  {
    if pages != [] { AskableIsMounted(stores, pages[..|pages| - 1]); }
  }

  function SetOf(s: seq<ObjectRef>): set<ObjectRef> { set r | r in s }

  lemma {:induction false} NoDoublesCounts(s: seq<ObjectRef>)
    requires NoDoubles(s)
    ensures |SetOf(s)| == |s|
    decreases |s|
  {
    if s == [] {
      assert SetOf(s) == {};
    } else {
      var n := |s| - 1;
      NoDoublesCounts(s[..n]);
      assert s == s[..n] + [s[n]];
      assert SetOf(s) == SetOf(s[..n]) + {s[n]};
      assert s[n] !in s[..n];
    }
  }

  /** The references asked once these roots are, and of them those whose store answered. */
  ghost function AskedOf(all: set<ObjectRef>, ambient: bool, done: set<Bytes>): set<ObjectRef> {
    set r | r in all && if r.root.Some? then r.root.value in done else ambient
  }

  ghost function AnsweredOf(stores: Stores, asked: set<ObjectRef>): set<ObjectRef> {
    set r | r in asked && StoreOf(stores, r).answers
  }

  ghost predicate Tally(plane: PinPlane, stores: Stores, asked: set<ObjectRef>)
    reads plane
  {
    && plane.Asked() == |AnsweredOf(stores, asked)|
    && (plane.orphaned == [] <==> forall r :: r in asked && StoreOf(stores, r).answers ==> !Orphaned(StoreOf(stores, r), r))
    && (plane.cannotAsk.None? <==> forall r :: r in asked ==> StoreOf(stores, r).answers)
  }

  lemma AnsweredGrows(stores: Stores, store: Store, objects: seq<ObjectRef>, asked: set<ObjectRef>)
    requires NoDoubles(objects) && forall r :: r in objects ==> r !in asked && StoreOf(stores, r) == store
    ensures AnsweredOf(stores, asked + SetOf(objects)) == AnsweredOf(stores, asked) + if store.answers then SetOf(objects) else {}
    ensures |AnsweredOf(stores, asked + SetOf(objects))| == |AnsweredOf(stores, asked)| + if store.answers then |objects| else 0
  {
    NoDoublesCounts(objects);
    assert AnsweredOf(stores, asked + SetOf(objects)) == AnsweredOf(stores, asked) + if store.answers then SetOf(objects) else {};
    assert AnsweredOf(stores, asked) !! SetOf(objects);
  }

  /** Ask the store that owns all of these, once. */
  method AskOne(plane: PinPlane, stores: Stores, store: Store, root: Option<Bytes>, objects: seq<ObjectRef>, ghost asked: set<ObjectRef>)
    requires Tally(plane, stores, asked) && NoDoubles(objects) && objects != []
    requires forall r :: r in objects ==> r !in asked && StoreOf(stores, r) == store
    modifies plane`anchored, plane`pending, plane`never, plane`orphaned, plane`cannotAsk
    ensures Tally(plane, stores, asked + SetOf(objects))
  {
    AnsweredGrows(stores, store, objects, asked);
    NoOrphansMeans(store, objects);
    assert objects[0] in SetOf(objects);
    var refused := plane.AskStore(store, root, objects);
    if refused.Some? { plane.cannotAsk := refused; }
  }

  /** A declared pin nothing need be said about, or stated: its root is not mounted here and it is
      listed; or its own store answered, and holds it for good or will once the file is committed. */
  predicate Settled(stores: Stores, page: Bytes, pin: Pin, unmounted: seq<Stated>) {
    match OwnerOf(stores, pin)
    case Nobody => false
    case Unmounted(root) => Stated(page, pin.object_, root) in unmounted
    case owner =>
      var r := RefOf(page, pin, owner);
      var store := StoreOf(stores, r);
      store.answers && (r.oid in store.reachable || Lives(store, r))
  }

  /** What the plane says once the corpus was read. */
  ghost predicate Reads(plane: PinPlane, stores: Stores, pages: seq<Page>, pins: seq<PinRow>)
    reads plane
  {
    && plane.declared == |pins|
    && plane.red == Coloured(pins, Red) && plane.grey == Coloured(pins, Grey) && plane.unattested == Coloured(pins, OutsideHashDomain)
    && (plane.cannotAsk.None? <==>
         && (forall p :: p in pages ==> WholePage(stores, p))
         && (forall r :: r in Askable(stores, pages) ==> StoreOf(stores, r).answers))
    && (plane.cannotAsk.None? ==> plane.Asked() == |Askable(stores, pages)|)
    && (if forall p :: p in pages ==> WholePage(stores, p) then
          && Tally(plane, stores, Askable(stores, pages))
          && forall p :: p in pages ==> PageStated(stores, p, plane.outOfJurisdiction)
        else plane.orphaned == [] && plane.Asked() == 0)
  }

  lemma AskedMore(g: Grouped, all: set<ObjectRef>, done: set<Bytes>, n: Bytes)
    requires Routed(g, all) && n in g.foreign && n !in done
    ensures AskedOf(all, true, done + {n}) == AskedOf(all, true, done) + SetOf(g.foreign[n])
    ensures forall r :: r in g.foreign[n] ==> r in all && r !in AskedOf(all, true, done) && r.root == Some(n)
  {
  }

  /** The tally once the ambient store and these roots' stores were asked. */
  ghost predicate TallyAfter(plane: PinPlane, stores: Stores, all: set<ObjectRef>, done: set<Bytes>)
    reads plane
  {
    Tally(plane, stores, AskedOf(all, true, done))
  }

  method AskRoot(plane: PinPlane, stores: Stores, g: Grouped, n: Bytes, ghost all: set<ObjectRef>, ghost done: set<Bytes>)
    requires Routed(g, all) && n in g.foreign && n !in done && n in stores.mounted
    requires TallyAfter(plane, stores, all, done)
    modifies plane`anchored, plane`pending, plane`never, plane`orphaned, plane`cannotAsk
    ensures TallyAfter(plane, stores, all, done + {n})
  {
    AskedMore(g, all, done, n);
    AskOne(plane, stores, stores.mounted[n], Some(n), g.foreign[n], AskedOf(all, true, done));
  }

  lemma ForeignIsMounted(stores: Stores, g: Grouped, all: set<ObjectRef>)
    requires Routed(g, all) && forall r :: r in all && r.root.Some? ==> r.root.value in stores.mounted
    ensures forall n :: n in g.foreign ==> n in stores.mounted
  {
    forall n | n in g.foreign ensures n in stores.mounted {
      assert g.foreign[n][0] in g.foreign[n];
    }
  }

  lemma NoRootYet(g: Grouped, all: set<ObjectRef>)
    requires Routed(g, all)
    ensures AskedOf(all, true, {}) == SetOf(g.ambient)
  {
  }

  /** The mounted roots' stores, one after another. */
  method AskStores(plane: PinPlane, stores: Stores, g: Grouped, ghost all: set<ObjectRef>)
    requires Routed(g, all) && TallyAfter(plane, stores, all, {})
    requires forall n :: n in g.foreign ==> n in stores.mounted
    modifies plane`anchored, plane`pending, plane`never, plane`orphaned, plane`cannotAsk
    ensures TallyAfter(plane, stores, all, g.foreign.Keys)
  {
    var names := g.foreign.Keys;
    ghost var done: set<Bytes> := {};
    while names != {}
      invariant names !! done && names + done == g.foreign.Keys
      invariant TallyAfter(plane, stores, all, done)
      decreases |names|
    {
      var n :| n in names;
      AskRoot(plane, stores, g, n, all, done);
      names := names - {n};
      done := done + {n};
    }
    assert done == g.foreign.Keys;
  }

  lemma AllAsked(g: Grouped, all: set<ObjectRef>)
    requires Routed(g, all)
    ensures AskedOf(all, true, g.foreign.Keys) == all
  {
  }

  lemma AllAnswered(stores: Stores, all: set<ObjectRef>)
    requires forall r :: r in all ==> StoreOf(stores, r).answers
    ensures AnsweredOf(stores, all) == all
  {
  }

  /** This root's store, then the mounted ones'. */
  method AskAll(plane: PinPlane, stores: Stores, pages: seq<Page>, g: Grouped)
    requires Routed(g, Askable(stores, pages)) && Tally(plane, stores, {})
    modifies plane`anchored, plane`pending, plane`never, plane`orphaned, plane`cannotAsk
    ensures Tally(plane, stores, Askable(stores, pages))
  {
    ghost var all := Askable(stores, pages);
    if g.ambient != [] { AskOne(plane, stores, stores.ambient, None, g.ambient, {}); }
    assert {} + SetOf(g.ambient) == SetOf(g.ambient);
    NoRootYet(g, all);
    AskableIsMounted(stores, pages);
    ForeignIsMounted(stores, g, all);
    AskStores(plane, stores, g, all);
    AllAsked(g, all);
  }

  lemma NothingAsked(plane: PinPlane, stores: Stores)
    requires plane.orphaned == [] && plane.Asked() == 0 && plane.cannotAsk == None
    ensures Tally(plane, stores, {})
  {
    assert AnsweredOf(stores, {}) == {};
  }

  /** The pin plane over a corpus: the rows by colour, then every store the corpus pins into. */
  method ReadPinPlane(stores: Stores, pages: seq<Page>, pins: seq<PinRow>) returns (plane: PinPlane)
    ensures fresh(plane) && Reads(plane, stores, pages, pins)
  {
    plane := new PinPlane();
    plane.SortPins(pins);
    var grouped := ObjectsIn(stores, pages);
    if grouped.Err? {
      plane.cannotAsk := Some(grouped.error);
      return;
    }
    plane.outOfJurisdiction := grouped.value.unmounted;
    NothingAsked(plane, stores);
    AskAll(plane, stores, pages, grouped.value);
    if plane.cannotAsk.None? { AllAnswered(stores, Askable(stores, pages)); }
  }

  lemma {:induction false} AskableHolds(stores: Stores, pages: seq<Page>, p: Page, pin: Pin)
    requires p in pages && p.lock.Some? && pin in p.lock.value && Owned(OwnerOf(stores, pin))
    ensures RefOf(p.path, pin, OwnerOf(stores, pin)) in Askable(stores, pages)
    decreases |pages|
  {
    var n := |pages| - 1;
    if pages[n] != p {
      assert pages == pages[..n] + [pages[n]];
      AskableHolds(stores, pages[..n], p, pin);
    }
  }

  lemma {:induction false} ColouredHolds(pins: seq<PinRow>, row: PinRow)
    requires row in pins
    ensures row in Coloured(pins, row.color)
    decreases |pins|
  {
    var n := |pins| - 1;
    if pins[n] != row {
      assert pins == pins[..n] + [pins[n]];
      ColouredHolds(pins[..n], row);
    }
  }

  lemma PinIsSettled(plane: PinPlane, stores: Stores, pages: seq<Page>, pins: seq<PinRow>, p: Page, pin: Pin)
    requires Reads(plane, stores, pages, pins) && plane.IsGreen()
    requires p in pages && p.lock.Some? && pin in p.lock.value
    ensures Settled(stores, p.path, pin, plane.outOfJurisdiction)
  {
    assert WholePage(stores, p) && PageStated(stores, p, plane.outOfJurisdiction);
    assert StatedIn(stores, p.path, pin, plane.outOfJurisdiction);
    if Owned(OwnerOf(stores, pin)) { AskableHolds(stores, pages, p, pin); }
  }

  /** No false green. A green plane means: every declared pin was an address, and either its root is not
      mounted and it is listed, or its own store answered and the blob is anchored or its file still
      hashes to it; and every row is green, or outside the hash domain and listed as such. */
  lemma NoFalseGreen(plane: PinPlane, stores: Stores, pages: seq<Page>, pins: seq<PinRow>)
    requires Reads(plane, stores, pages, pins) && plane.IsGreen()
    ensures forall page, pin :: Declared(pages, page, pin) ==> Settled(stores, page, pin, plane.outOfJurisdiction)
    ensures forall row :: row in pins ==> row.color.Green? || (row.color.OutsideHashDomain? && row in plane.unattested)
  {
    forall page, pin | Declared(pages, page, pin) ensures Settled(stores, page, pin, plane.outOfJurisdiction) {
      var p :| p in pages && p.path == page && p.lock.Some? && pin in p.lock.value;
      PinIsSettled(plane, stores, pages, pins, p, pin);
    }
    forall row | row in pins ensures row.color.Green? || (row.color.OutsideHashDomain? && row in plane.unattested) {
      ColouredHolds(pins, row);
    }
  }

  /** And no green withheld: the plane is green exactly when every page is whole (its pins are
      addresses, and the ones a store answers for carry object ids), every such pin's store answered and
      holds it for good or will, and no row is red or gating grey. */
  lemma GreenExactlyWhen(plane: PinPlane, stores: Stores, pages: seq<Page>, pins: seq<PinRow>)
    requires Reads(plane, stores, pages, pins)
    ensures plane.IsGreen() <==>
      && (forall p :: p in pages ==> WholePage(stores, p))
      && (forall r :: r in Askable(stores, pages) ==> StoreOf(stores, r).answers && !Orphaned(StoreOf(stores, r), r))
      && (forall row :: row in pins ==> row.color.Green? || row.color.OutsideHashDomain?)
  {
    if forall row :: row in pins ==> row.color.Green? || row.color.OutsideHashDomain? {
      NoneColoured(pins, Red);
      NoneColoured(pins, Grey);
    }
    forall row | row in pins ensures row in Coloured(pins, row.color) { ColouredHolds(pins, row); }
  }

  lemma {:induction false} NoneColoured(pins: seq<PinRow>, color: Color)
    requires forall row :: row in pins ==> row.color != color
    ensures Coloured(pins, color) == []
    decreases |pins|
  {
    if pins != [] {
      assert pins[|pins| - 1] in pins;
      NoneColoured(pins[..|pins| - 1], color);
    }
  }
}
