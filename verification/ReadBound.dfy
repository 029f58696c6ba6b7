/** The read-bound analysis of a script: a syntactic walk that says which names the captured bindings
    may leave out, because a top-level bare `read(...)` or `run(...)` already carries their value.

    A name resolves as the module does: a name the module binds anywhere is the module's. Values are
    objects that hold one another and may be written in place; an expression reaches what the names it
    uses lead to, and nothing else. Only the module's names and its two inputs, a dict and a list, lead
    to anything that can be written. */
module ReadBound {
  import opened Bytes
  import opened Scripts

  const READ: Name := "read"
  const RUN: Name := "run"
  const ARGS: Name := "args"
  const FILES: Name := "files"

  predicate IsReadCall(e: Expr) { e.CallOf? && (e.callee == READ || e.callee == RUN) }

  /** Every plain name a target binds, at any nesting inside tuples. */
  function TargetNames(t: Target): set<Name>
    decreases t, 1, 0
  {
    match t
    case Identifier(name) => {name}
    case Tuple(_) => ItemNames(t, |t.items|)
    case _ => {}
  }

  function ItemNames(t: Target, n: nat): set<Name>
    requires t.Tuple? && n <= |t.items|
    decreases t, 0, n
  {
    if n == 0 then {} else ItemNames(t, n - 1) + TargetNames(t.items[n - 1])
  }

  // ---- the walk --------------------------------------------------------------------------

  function Walked(s: Stmt, top: bool, bound: set<Name>): set<Name>
    decreases s, 1, 0
  {
    match s
    case Statements(_) => WalkedUpTo(s, |s.stmts|, top, bound)
    case Assign(lhs, rhs) =>
      if top && lhs.Identifier? && IsReadCall(rhs) then bound + {lhs.name} else bound - TargetNames(lhs)
    case AssignModify(target, _, _) => bound - TargetNames(target)
    case For(v, _, body) => Walked(body, false, bound - TargetNames(v))
    case If(_, body) => Walked(body, false, bound)
    case IfElse(_, arm0, arm1) => Walked(arm1, false, Walked(arm0, false, bound))
    case _ => bound
  }

  function WalkedUpTo(s: Stmt, n: nat, top: bool, bound: set<Name>): set<Name>
    requires s.Statements? && n <= |s.stmts|
    decreases s, 0, n
  {
    if n == 0 then bound else Walked(s.stmts[n - 1], top, WalkedUpTo(s, n - 1, top, bound))
  }

  class Notes {
    var readBound: set<Name>

    constructor ()
      ensures readBound == {}
    {
      readBound := {};
    }

    method CollectNames(t: Target) returns (names: set<Name>)
      ensures names == TargetNames(t)
      decreases t
    {
      match t
      case Identifier(name) => names := {name};
      case Tuple(items) =>
        names := {};
        for k := 0 to |items|
          invariant names == ItemNames(t, k)
        {
          var more := CollectNames(items[k]);
          names := names + more;
        }
      case _ => names := {};
    }

    method Unbind(t: Target)
      modifies this
      ensures readBound == old(readBound) - TargetNames(t)
    {
      var names := CollectNames(t);
      readBound := readBound - names;
    }

    method Walk(s: Stmt, top: bool)
      modifies this
      ensures readBound == Walked(s, top, old(readBound))
      decreases s
    {
      match s {
        case Statements(stmts) =>
          for k := 0 to |stmts|
            invariant readBound == WalkedUpTo(s, k, top, old(readBound))
          {
            Walk(stmts[k], top);
          }
        case Assign(lhs, rhs) =>
          if top && lhs.Identifier? && IsReadCall(rhs) {
            readBound := readBound + {lhs.name};
            return;
          }
          Unbind(lhs);
        case AssignModify(target, _, _) => Unbind(target);
        case For(v, _, body) =>
          Unbind(v);
          Walk(body, false);
        case If(_, body) => Walk(body, false);
        case IfElse(_, arm0, arm1) =>
          Walk(arm0, false);
          Walk(arm1, false);
        case _ =>
      }
    }
  }

  // ---- executions ------------------------------------------------------------------------

  type Loc = nat

  /** What holds and is held: a module name, by its current value or in the body of a function that
      looks it up when called; and an object. A read face is one object, its parts with it. */
  datatype Node = Named(name: Name) | Object(loc: Loc)

  /** Where a module name's value comes from: the very face a call of the builtin returned, a `def` or
      another function value, an input as it was bound, or anything else the script computed. */
  datatype Value = Carried(loc: Loc) | Function | Input | Computed

  type Store = map<Name, Value>

  /** The names' values, what each node holds, the objects made so far, and those written in place. */
  datatype State = State(vals: Store, holds: map<Node, set<Node>>, made: set<Loc>, written: set<Loc>)

  /** The inputs as they are bound before the script runs: a fresh dict and a fresh list, of strings. */
  const INPUTS: State := State(map[ARGS := Input, FILES := Input], map[Named(ARGS) := {Object(0)}, Named(FILES) := {Object(1)}], {0, 1}, {})

  function Holds(s: State, u: Node): set<Node> { if u in s.holds then s.holds[u] else {} }

  /** What there is to know of the start. */
  ghost predicate AtStart(s: State) {
    && s.vals.Keys == {ARGS, FILES} && s.vals[ARGS] == Input && s.vals[FILES] == Input && s.made == {0, 1} && s.written == {}
    && Holds(s, Named(ARGS)) == {Object(0)} && Holds(s, Named(FILES)) == {Object(1)}
    && forall u :: u != Named(ARGS) && u != Named(FILES) ==> Holds(s, u) == {}
  }

  lemma InputsAtStart()
    ensures AtStart(INPUTS) && ARGS != FILES
  {
    assert |ARGS| != |FILES|;
  }

  /** Every name the module binds, at any nesting outside a `def` body. */
  function Bound(s: Stmt): set<Name> {
    match s
    case Assign(lhs, _) => TargetNames(lhs)
    case AssignModify(target, _, _) => TargetNames(target)
    case For(v, _, body) => TargetNames(v) + Bound(body)
    case If(_, body) => Bound(body)
    case IfElse(_, arm0, arm1) => Bound(arm0) + Bound(arm1)
    case Statements(stmts) => set i: nat, n | i < |stmts| && n in Bound(stmts[i]) :: n
    case Def(f, _, _) => {f}
    case _ => {}
  }

  predicate Place(t: Target) { t.Index? || t.Dot? }

  /** The targets inside a target's tuples. */
  function Leaves(t: Target): set<Target> {
    if t.Tuple? then set i: nat, l | i < |t.items| && l in Leaves(t.items[i]) :: l else {t}
  }

  predicate InPlace(t: Target) { exists l :: l in Leaves(t) && Place(l) }

  function PlaceUses(t: Target): set<Name> { set l, n | l in Leaves(t) && Place(l) && n in l.uses :: n }

  /** The plain names a target writes into, and does not itself rebind. */
  function Bases(t: Target): set<Name> {
    (set l | l in Leaves(t) && Place(l) && l.base.Some? :: l.base.value) - TargetNames(t)
  }

  function Mentions(e: Expr): set<Name> { if e.CallOf? then e.uses + {e.callee} else e.uses }

  /** What one step of a statement does: the names it rebinds, those it uses that lead anywhere, whether
      it may write in place, and the names whose own value it does write. */
  datatype Act = Act(names: set<Name>, uses: set<Name>, writes: bool, bases: set<Name>)

  /** The names that lead to objects. Any other is a builtin's, and leads to nothing that can be written. */
  function Live(module_: set<Name>): set<Name> { module_ + {ARGS, FILES} }

  function Evaluate(e: Expr, module_: set<Name>): Act { Act({}, Mentions(e) * Live(module_), e.writes, {}) }

  function Assigns(t: Target, uses: set<Name>, writes: bool, module_: set<Name>): Act {
    Act(TargetNames(t), (PlaceUses(t) + Bases(t) + uses) * Live(module_), InPlace(t) || writes, Bases(t))
  }

  /** The first step of a statement; all of it, when it has no body. */
  function ActOf(p: Stmt, module_: set<Name>): Act {
    match p
    case Assign(lhs, rhs) => Assigns(lhs, Mentions(rhs), rhs.writes, module_)
    case AssignModify(t, rhs, inPlace) => Assigns(t, TargetNames(t) + Mentions(rhs), inPlace || rhs.writes, module_)
    case Expression(e) => Evaluate(e, module_)
    case For(_, over, _) => Evaluate(over, module_)
    case If(cond, _) => Evaluate(cond, module_)
    case IfElse(cond, _, _) => Evaluate(cond, module_)
    case Def(f, uses, writes) => Act({f}, uses * Live(module_), writes, {})
    case _ => Act({}, {}, false, {})
  }

  /** Taking the next element of what a loop runs over. */
  function RoundAct(p: Stmt, module_: set<Name>): Act
    requires p.For?
  {
    Assigns(p.var_, {}, false, module_)
  }

  /** These names get values of their own, none a carried face or an input; all others stay. */
  predicate Rebinds(names: set<Name>, s: Store, s': Store) {
    && s'.Keys == s.Keys + names
    && (forall n :: n in names ==> !s'[n].Carried? && !s'[n].Input?)
    && (forall n :: n in s && n !in names ==> s'[n] == s[n])
  }

  ghost predicate Closed(s: State, a: set<Node>) { forall u :: u in a ==> Holds(s, u) <= a }

  /** What can be reached from these nodes. */
  ghost predicate IsReach(s: State, roots: set<Node>, a: set<Node>) {
    && roots <= a && Closed(s, a)
    && forall t: set<Node> :: roots <= t && Closed(s, t) ==> a <= t
  }

  function Roots(names: set<Name>): set<Node> { set n | n in names :: Named(n) }

  function Fresh(s: State, m: State): set<Node> { set l | l in m.made && l !in s.made :: Object(l) }

  /** An evaluation from these roots: it may make objects, and, if it may write, write any object it
      reaches; what it made or wrote holds only what it reaches or made. `a` is all of that. */
  ghost predicate Evaluates(roots: set<Node>, writes: bool, s: State, m: State, a: set<Node>) {
    exists reach :: EvaluatesOver(roots, reach, writes, s, m, a)
  }

  ghost predicate EvaluatesOver(roots: set<Node>, reach: set<Node>, writes: bool, s: State, m: State, a: set<Node>) {
    && IsReach(s, roots, reach) && a == reach + Fresh(s, m)
    && m.vals == s.vals && s.made <= m.made && s.written <= m.written
    && (forall l :: l in m.written && l !in s.written ==> writes && Object(l) in reach)
    && (forall u: Node :: u !in Fresh(s, m) && !(writes && u in reach && u.Object?) ==> Holds(m, u) == Holds(s, u))
    && (forall u :: u in a ==> Holds(m, u) <= a)
  }

  /** Writing into the value of a name that is a face writes that face. */
  predicate Strikes(bases: set<Name>, m: State) {
    forall n :: n in bases && n in m.vals && m.vals[n].Carried? ==> m.vals[n].loc in m.written
  }

  ghost predicate Binds(names: set<Name>, a: set<Node>, m: State, s': State) {
    && Rebinds(names, m.vals, s'.vals) && s'.made == m.made && s'.written == m.written
    && (forall u: Node :: if u.Named? && u.name in names then Holds(s', u) <= a else Holds(s', u) == Holds(m, u))
  }

  /** One step, reaching besides its names what a loop runs over. */
  ghost predicate Does(act: Act, also: set<Node>, s: State, s': State) {
    exists m, a :: Evaluates(Roots(act.uses) + also, act.writes, s, m, a) && Strikes(act.bases, m) && Binds(act.names, a, m, s')
  }

  /** A new object, held by this name alone. */
  function Read(name: Name, l: Loc, m: State): State {
    State(m.vals[name := Carried(l)], m.holds[Named(name) := {Object(l)}][Object(l) := {}], m.made + {l}, m.written)
  }

  /** A read in call position: the builtin's face, or, once the module binds the name, whatever the
      module's own value returns, if it has one by then; and that may be a builtin, with its face. */
  ghost predicate DoesRead(name: Name, callee: Name, act: Act, module_: set<Name>, s: State, s': State) {
    && (callee in module_ ==> callee in s.vals)
    && exists m, a :: Evaluates(Roots(act.uses), act.writes, s, m, a) && (ReadsFace(name, m, s') || (callee in module_ && Binds({name}, a, m, s')))
  }

  ghost predicate ReadsFace(name: Name, m: State, s': State) { exists l :: l !in m.made && l !in m.written && s' == Read(name, l, m) }

  /** What a loop runs over, evaluated once. */
  ghost predicate RunsOver(act: Act, s: State, m: State, it: set<Node>) {
    exists a :: Evaluates(Roots(act.uses), act.writes, s, m, a) && it <= a
  }

  /** `name = read(...)`, or `run`. */
  predicate IsMark(p: Stmt) { p.Assign? && p.lhs.Identifier? && IsReadCall(p.rhs) }

  ghost predicate OwnStep(p: Stmt, module_: set<Name>, s: State, s': State) {
    Does(ActOf(p, module_), {}, s, s') && (p.Def? ==> p.function_ in s'.vals && s'.vals[p.function_] == Function)
  }

  /** How a module runs. */
  ghost function Runner(module_: set<Name>): Machine<State, set<Node>> {
    Machine((p: Stmt, s, s') => OwnStep(p, module_, s, s'),
            (p: Stmt, s, s') => if IsMark(p) then DoesRead(p.lhs.name, p.rhs.callee, ActOf(p, module_), module_, s, s') else OwnStep(p, module_, s, s'),
            (p: Stmt, s, m, it) => RunsOver(ActOf(p, module_), s, m, it),
            (p: Stmt, it, s, s') => p.For? && Does(RoundAct(p, module_), it, s, s'))
  }

  ghost predicate Completes(p: Stmt, s: State) { Exec(Runner(Bound(p)), p, true, INPUTS, s, Normal) }

  // ---- whose face a kept name holds ----------------------------------------------------------

  /** The names a statement below the top level rebinds, a `def` aside. */
  function Unbinds(s: Stmt): set<Name>
    decreases s, 1, 0
  {
    match s
    case Statements(_) => UnbindsUpTo(s, |s.stmts|)
    case Assign(lhs, _) => TargetNames(lhs)
    case AssignModify(target, _, _) => TargetNames(target)
    case For(v, _, body) => TargetNames(v) + Unbinds(body)
    case If(_, body) => Unbinds(body)
    case IfElse(_, arm0, arm1) => Unbinds(arm0) + Unbinds(arm1)
    case _ => {}
  }

  function UnbindsUpTo(s: Stmt, n: nat): set<Name>
    requires s.Statements? && n <= |s.stmts|
    decreases s, 0, n
  {
    if n == 0 then {} else UnbindsUpTo(s, n - 1) + Unbinds(s.stmts[n - 1])
  }

  lemma {:induction false} UnbindsInside(s: Stmt, n: nat, i: nat)
    requires s.Statements? && i < n <= |s.stmts|
    ensures Unbinds(s.stmts[i]) <= UnbindsUpTo(s, n)
    decreases n
  {
    if i + 1 < n { UnbindsInside(s, n - 1, i); }
  }

  /** Below the top level the walk only takes marks away, the names the statement can rebind. */
  lemma {:induction false} NestedWalk(s: Stmt, bound: set<Name>)
    ensures Walked(s, false, bound) == bound - Unbinds(s)
    decreases s, 1, 0
  {
    match s
    case Statements(_) => NestedWalkUpTo(s, |s.stmts|, bound);
    case For(v, _, body) => NestedWalk(body, bound - TargetNames(v));
    case If(_, body) => NestedWalk(body, bound);
    case IfElse(_, arm0, arm1) =>
      NestedWalk(arm0, bound);
      NestedWalk(arm1, Walked(arm0, false, bound));
    case _ =>
  }

  lemma {:induction false} NestedWalkUpTo(s: Stmt, n: nat, bound: set<Name>)
    requires s.Statements? && n <= |s.stmts|
    ensures WalkedUpTo(s, n, false, bound) == bound - UnbindsUpTo(s, n)
    decreases s, 0, n
  {
    if n > 0 {
      NestedWalkUpTo(s, n - 1, bound);
      NestedWalk(s.stmts[n - 1], WalkedUpTo(s, n - 1, false, bound));
    }
  }

  /** The walk again, remembering which call each name was marked by. */
  type Marks = map<Name, Name>

  const NO_MARKS: Marks := map[]

  function MarkLeaf(p: Stmt, marks: Marks): Marks {
    if IsMark(p) then marks[p.lhs.name := p.rhs.callee] else marks - Unbinds(p)
  }

  function Marked(p: Stmt, marks: Marks): Marks { Fold(p, MarkLeaf, marks) }

  lemma {:induction false} MarkedIsWalked(p: Stmt, marks: Marks)
    ensures Marked(p, marks).Keys == Walked(p, true, marks.Keys)
    decreases p, 1, 0
  {
    if p.Statements? {
      MarkedUpToIsWalked(p, |p.stmts|, marks);
    } else if !IsMark(p) {
      NestedWalk(p, marks.Keys);
      assert Walked(p, true, marks.Keys) == Walked(p, false, marks.Keys);
    }
  }

  lemma {:induction false} MarkedUpToIsWalked(p: Stmt, n: nat, marks: Marks)
    requires p.Statements? && n <= |p.stmts|
    ensures FoldUpTo(p, n, MarkLeaf, marks).Keys == WalkedUpTo(p, n, true, marks.Keys)
    decreases p, 0, n
  {
    if n > 0 {
      MarkedUpToIsWalked(p, n - 1, marks);
      MarkedIsWalked(p.stmts[n - 1], FoldUpTo(p, n - 1, MarkLeaf, marks));
    }
  }

  /** What the marks promise of a store: the name is there, and its value is the face when the builtin
      marked it, or a `def` took the name. */
  predicate Good(marks: Marks, module_: set<Name>, defs: set<Name>, s: Store) {
    forall n :: n in marks ==>
      && n in s
      && (n !in defs && marks[n] !in module_ ==> s[n].Carried?)
      && (n in defs && marks[n] !in module_ ==> s[n].Carried? || s[n] == Function)
  }

  /** The names a `def` binds. */
  function Defs(s: Stmt): set<Name> {
    match s
    case For(_, _, body) => Defs(body)
    case If(_, body) => Defs(body)
    case IfElse(_, arm0, arm1) => Defs(arm0) + Defs(arm1)
    case Statements(stmts) => set i: nat, n | i < |stmts| && n in Defs(stmts[i]) :: n
    case Def(f, _, _) => {f}
    case _ => {}
  }

  /** A step rebinds its names, and what was written stays so. */
  lemma DoesRebind(act: Act, also: set<Node>, s: State, s': State)
    requires Does(act, also, s, s')
    ensures Rebinds(act.names, s.vals, s'.vals) && s.written <= s'.written
  {
  }

  /** A statement below the top level keeps the marks it unbinds none of. */
  ghost function MarksStay(marks: Marks, module_: set<Name>, defs: set<Name>): Invariant<State, set<Node>, bool> {
    Invariant((p: Stmt) => Defs(p) <= defs && marks.Keys !! Unbinds(p),
              (s: State, w: bool) => Good(marks, module_, defs, s.vals), (a: bool, b: bool) => true, (p: Stmt, it: set<Node>, w: bool) => true)
  }

  lemma OwnStepKeepsMarks(p: Stmt, marks: Marks, module_: set<Name>, defs: set<Name>, s: State, s': State)
    requires OwnStep(p, module_, s, s') && Good(marks, module_, defs, s.vals)
    requires Defs(p) <= defs && marks.Keys !! Unbinds(p) && !p.For?
    ensures Good(marks, module_, defs, s'.vals)
  {
    DoesRebind(ActOf(p, module_), {}, s, s');
  }

  lemma RoundKeepsMarks(p: Stmt, marks: Marks, module_: set<Name>, defs: set<Name>, it: set<Node>, s: State, s': State)
    requires p.For? && Does(RoundAct(p, module_), it, s, s') && Good(marks, module_, defs, s.vals) && marks.Keys !! Unbinds(p)
    ensures Good(marks, module_, defs, s'.vals)
  {
    DoesRebind(RoundAct(p, module_), it, s, s');
  }

  lemma MarksAllow(marks: Marks, module_: set<Name>, defs: set<Name>)
    ensures Hereditary(MarksStay(marks, module_, defs).allows)
  {
    var allows := MarksStay(marks, module_, defs).allows;
    forall p: Stmt, i | allows(p) && p.Statements? && 0 <= i < |p.stmts| ensures allows(p.stmts[i]) { UnbindsInside(p, |p.stmts|, i); }
  }

  lemma MarksAreInductive(marks: Marks, module_: set<Name>, defs: set<Name>)
    ensures Inductive(Runner(module_), MarksStay(marks, module_, defs))
  {
    var k, v := Runner(module_), MarksStay(marks, module_, defs);
    MarksAllow(marks, module_, defs);
    forall p, s, s', w | v.allows(p) && !p.For? && v.holds(s, w) && k.does(p, s, s') ensures Leads(v.holds, v.grows, w, s') {
      OwnStepKeepsMarks(p, marks, module_, defs, s, s');
      assert v.grows(w, w) && v.holds(s', w);
    }
    forall p, s, m, it, w | v.allows(p) && p.For? && v.holds(s, w) && k.runsOver(p, s, m, it) ensures LeadsOver(v, p, it, w, m) {
      assert v.grows(w, w) && v.holds(m, w) && v.runs(p, it, w);
    }
    forall p, it, s, s', w | v.allows(p) && p.For? && v.holds(s, w) && v.runs(p, it, w) && k.begins(p, it, s, s')
      ensures Leads(v.holds, v.grows, w, s')
    {
      RoundKeepsMarks(p, marks, module_, defs, it, s, s');
      assert v.grows(w, w) && v.holds(s', w);
    }
  }

  lemma SameBelow(module_: set<Name>, p: Stmt, s: State, s': State)
    requires !p.Statements? && !IsMark(p) && Exec(Runner(module_), p, true, s, s', Normal)
    ensures Exec(Runner(module_), p, false, s, s', Normal)
  {
  }

  /** A top-level statement takes marks that are true of the store to marks that are. */
  lemma TopKeeps(p: Stmt, marks: Marks, module_: set<Name>, defs: set<Name>, s: State, s': State)
    requires !p.Statements? && Exec(Runner(module_), p, true, s, s', Normal) && Good(marks, module_, defs, s.vals) && Defs(p) <= defs
    ensures Good(MarkLeaf(p, marks), module_, defs, s'.vals)
  {
    if IsMark(p) {
      assert DoesRead(p.lhs.name, p.rhs.callee, ActOf(p, module_), module_, s, s');
    } else {
      SameBelow(module_, p, s, s');
      var fewer := marks - Unbinds(p);
      MarksAreInductive(fewer, module_, defs);
      var _ := NestedKeeps(Runner(module_), MarksStay(fewer, module_, defs), p, s, s', Normal, true);
    }
  }

  /** So at the end of a run the marks are true of the store. */
  lemma MarksAreTrue(p: Stmt, s: State)
    requires Completes(p, s)
    ensures Good(Marked(p, NO_MARKS), Bound(p), Defs(p), s.vals)
  {
    var k, defs := Runner(Bound(p)), Defs(p);
    var allows, says := (q: Stmt) => Defs(q) <= defs, (t: State, marks: Marks) => Good(marks, Bound(p), defs, t.vals);
    forall q, a, b, marks | allows(q) && !q.Statements? && Exec(k, q, true, a, b, Normal) && says(a, marks) ensures says(b, MarkLeaf(q, marks)) {
      TopKeeps(q, marks, Bound(p), defs, a, b);
    }
    assert Hereditary(allows);
    TopTracks(k, allows, MarkLeaf, says, p, INPUTS, s, NO_MARKS);
  }

  // ---- what the capture law may leave out ------------------------------------------------

  function ReadBoundNames(p: Stmt): set<Name> { Walked(p, true, {}) }

  /** A name the analysis keeps holds the very face its echo entry carries when no `def` took the name
      and the module does not itself bind the `read` or `run` that marked it. */
  lemma CarriedWhen(p: Stmt, s: State, name: Name)
    requires Completes(p, s) && name in ReadBoundNames(p) && name !in Defs(p)
    ensures name in Marked(p, NO_MARKS) && name in s.vals
    ensures Marked(p, NO_MARKS)[name] !in Bound(p) ==> s.vals[name].Carried?
  {
    MarkedIsWalked(p, NO_MARKS);
    assert NO_MARKS.Keys == {};
    MarksAreTrue(p, s);
  }

  /** What `capture_bindings` keeps of a finished module. */
  function Captured(p: Stmt, s: State): set<Name> {
    set n | n in s.vals && n != ARGS && n != FILES && n !in ReadBoundNames(p) && s.vals[n] != Function :: n
  }

  predicate AreReads(marks: Marks) { forall n :: n in marks ==> marks[n] == READ || marks[n] == RUN }

  lemma {:induction false} MarksAreReads(p: Stmt, marks: Marks)
    requires AreReads(marks)
    ensures AreReads(Marked(p, marks))
    decreases p, 1, 0
  {
    if p.Statements? { MarksUpToAreReads(p, |p.stmts|, marks); }
  }

  lemma {:induction false} MarksUpToAreReads(p: Stmt, n: nat, marks: Marks)
    requires p.Statements? && n <= |p.stmts| && AreReads(marks)
    ensures AreReads(FoldUpTo(p, n, MarkLeaf, marks))
    decreases p, 0, n
  {
    if n > 0 {
      MarksUpToAreReads(p, n - 1, marks);
      MarksAreReads(p.stmts[n - 1], FoldUpTo(p, n - 1, MarkLeaf, marks));
    }
  }

  /** Where the module binds neither `read` nor `run`, a binding of a computed value is captured, whatever
      branches and loop counts the run took, unless its name is an input's. */
  lemma CaptureHidesNothingComputed(p: Stmt, s: State, name: Name)
    requires Completes(p, s) && READ !in Bound(p) && RUN !in Bound(p)
    requires name in s.vals && s.vals[name] == Computed
    ensures name in Captured(p, s) <==> name != ARGS && name != FILES
  {
    if name in ReadBoundNames(p) {
      MarkedIsWalked(p, NO_MARKS);
      assert NO_MARKS.Keys == {};
      MarksAreReads(p, NO_MARKS);
      MarksAreTrue(p, s);
    }
  }

  /** Where it does bind one, anything can be left out: what the module's own `read` computed, or, when
      that is a builtin after all, the very face. */
  lemma ShadowingHides(callee: Name, name: Name) returns (p: Stmt, computed: State, carried: State)
    requires (callee == READ || callee == RUN) && name != callee && name != ARGS && name != FILES
    ensures Completes(p, computed) && name in computed.vals && computed.vals[name] == Computed && name !in Captured(p, computed)
    ensures Completes(p, carried) && name in carried.vals && carried.vals[name].Carried? && name !in Captured(p, carried)
  {
    var own, assign := Assign(Identifier(callee), Computation({}, false)), Assign(Identifier(name), CallOf(callee, {}, false));
    p := Statements([own, assign]);
    var module_ := Bound(p);
    assert callee in module_ by { assert callee in Bound(p.stmts[0]); }
    var mid := INPUTS.(vals := INPUTS.vals[callee := Function]);
    computed := mid.(vals := mid.vals[name := Computed]);
    carried := Read(name, 2, mid);
    InputsAtStart();
    BindRuns(own, callee, Function, module_, INPUTS, mid);
    ShadowRuns(assign, module_, mid, computed, carried);
    TwoRun(Runner(module_), p, INPUTS, mid, computed);
    TwoRun(Runner(module_), p, INPUTS, mid, carried);
    TwoWalked(p);
  }

  /** And an input's name never comes out, whatever the module binds it to. */
  lemma InputNameHides(name: Name) returns (p: Stmt, s: State)
    requires name == ARGS || name == FILES
    ensures p == Assign(Identifier(name), Computation({}, false))
    ensures Completes(p, s) && name in s.vals && s.vals[name] == Computed && name !in Captured(p, s)
  {
    p := Assign(Identifier(name), Computation({}, false));
    s := INPUTS.(vals := INPUTS.vals[name := Computed], holds := INPUTS.holds[Named(name) := {}]);
    BindRuns(p, name, Computed, Bound(p), INPUTS, s);
  }

  lemma NothingReached(s: State, roots: set<Node>)
    requires forall u :: u in roots ==> Holds(s, u) == {}
    ensures IsReach(s, roots, roots)
  {
  }

  /** An evaluation that reaches nothing and does nothing. */
  lemma IdleEvaluates(s: State, writes: bool)
    ensures Evaluates({}, writes, s, s, {})
  {
    NothingReached(s, {});
    assert Fresh(s, s) == {};
    assert EvaluatesOver({}, {}, writes, s, s, {});
  }

  lemma BindRuns(p: Stmt, name: Name, value: Value, module_: set<Name>, s: State, s': State)
    requires p == Assign(Identifier(name), Computation({}, false)) && (value == Function || value == Computed)
    requires s'.vals == s.vals[name := value] && s'.made == s.made && s'.written == s.written
    requires Holds(s', Named(name)) == {} && forall u :: u != Named(name) ==> Holds(s', u) == Holds(s, u)
    ensures Exec(Runner(module_), p, true, s, s', Normal)
  {
    PlainActs(p, name, module_);
    IdleEvaluates(s, false);
    assert Roots({}) + {} == {};
    assert Binds({name}, {}, s, s');
    assert Does(Act({name}, {}, false, {}), {}, s, s');
  }

  lemma PlainActs(p: Stmt, name: Name, module_: set<Name>)
    requires p == Assign(Identifier(name), Computation({}, false))
    ensures ActOf(p, module_) == Act({name}, {}, false, {})
  {
    assert Leaves(p.lhs) == {p.lhs} && PlaceUses(p.lhs) == {} && Bases(p.lhs) == {};
  }

  lemma ShadowRuns(p: Stmt, module_: set<Name>, s: State, computed: State, carried: State)
    requires IsMark(p) && p.rhs == CallOf(p.rhs.callee, {}, false) && p.rhs.callee in module_ && p.rhs.callee in s.vals
    requires Holds(s, Named(p.rhs.callee)) == {} && Holds(s, Named(p.lhs.name)) == {} && 2 !in s.made && 2 !in s.written
    requires computed == s.(vals := s.vals[p.lhs.name := Computed]) && carried == Read(p.lhs.name, 2, s)
    ensures Exec(Runner(module_), p, true, s, computed, Normal) && Exec(Runner(module_), p, true, s, carried, Normal)
  {
    var act := ActOf(p, module_);
    assert act.uses == {p.rhs.callee};
    var roots := Roots(act.uses);
    NothingReached(s, roots);
    assert Fresh(s, s) == {};
    assert EvaluatesOver(roots, roots, act.writes, s, s, roots);
    assert Evaluates(roots, act.writes, s, s, roots);
    assert Binds({p.lhs.name}, roots, s, computed);
  }

  lemma TwoWalked(p: Stmt)
    requires p.Statements? && |p.stmts| == 2
    ensures ReadBoundNames(p) == Walked(p.stmts[1], true, Walked(p.stmts[0], true, {}))
  {
    assert Walked(p, true, {}) == WalkedUpTo(p, 2, true, {});
    assert WalkedUpTo(p, 2, true, {}) == Walked(p.stmts[1], true, WalkedUpTo(p, 1, true, {}));
  }

  // ---- faces written in place ----------------------------------------------------------------

  /** A name still holds what its echo entry carries: the face itself, nothing written into it since it
      was read. */
  predicate Intact(s: State, name: Name) {
    name in s.vals && s.vals[name].Carried? && s.vals[name].loc !in s.written
  }

  // Written for certain.

  /** Whether, since the last top-level read into `x`, a top-level statement wrote into `x` itself. */
  function StruckLeaf(p: Stmt, x: Name, before: bool): bool {
    if IsMark(p) && p.lhs.name == x then false
    else before || (p.Assign? && x in Bases(p.lhs)) || (p.AssignModify? && x in Bases(p.target))
  }

  function Struck(p: Stmt, x: Name): bool { Fold(p, (q: Stmt, before: bool) => StruckLeaf(q, x, before), false) }

  /** What was written stays so, and no name but by a top-level read comes to hold a face. */
  predicate Follows(s: State, s': State) {
    s.written <= s'.written && forall n :: n in s'.vals && s'.vals[n].Carried? ==> n in s.vals && s.vals[n] == s'.vals[n]
  }

  lemma DoesFollows(act: Act, also: set<Node>, s: State, s': State)
    requires Does(act, also, s, s')
    ensures Follows(s, s')
  {
    DoesRebind(act, also, s, s');
  }

  ghost function FollowsFrom(from: State): Invariant<State, set<Node>, bool> {
    Invariant((p: Stmt) => true, (s: State, w: bool) => Follows(from, s), (a: bool, b: bool) => true, (p: Stmt, it: set<Node>, w: bool) => true)
  }

  lemma FollowingIsInductive(module_: set<Name>, from: State)
    ensures Inductive(Runner(module_), FollowsFrom(from))
  {
    var k, v := Runner(module_), FollowsFrom(from);
    forall p, s, s', w | v.allows(p) && !p.For? && v.holds(s, w) && k.does(p, s, s') ensures Leads(v.holds, v.grows, w, s') {
      DoesFollows(ActOf(p, module_), {}, s, s');
      assert v.grows(w, w) && v.holds(s', w);
    }
    forall p, s, m, it, w | v.allows(p) && p.For? && v.holds(s, w) && k.runsOver(p, s, m, it) ensures LeadsOver(v, p, it, w, m) {
      assert v.grows(w, w) && v.holds(m, w) && v.runs(p, it, w);
    }
    forall p, it, s, s', w | v.allows(p) && p.For? && v.holds(s, w) && v.runs(p, it, w) && k.begins(p, it, s, s')
      ensures Leads(v.holds, v.grows, w, s')
    {
      DoesFollows(RoundAct(p, module_), it, s, s');
      assert v.grows(w, w) && v.holds(s', w);
    }
  }

  predicate StruckHolds(s: State, x: Name, struck: bool) {
    struck && x in s.vals && s.vals[x].Carried? ==> s.vals[x].loc in s.written
  }

  lemma MarkStrikes(p: Stmt, x: Name, before: bool, module_: set<Name>, s: State, s': State)
    requires IsMark(p) && DoesRead(p.lhs.name, p.rhs.callee, ActOf(p, module_), module_, s, s') && StruckHolds(s, x, before)
    ensures StruckHolds(s', x, StruckLeaf(p, x, before))
  {
    assert Bases(p.lhs) == {};
  }

  lemma StepStrikes(act: Act, x: Name, s: State, s': State)
    requires Does(act, {}, s, s') && x in act.bases
    ensures StruckHolds(s', x, true)
  {
    DoesFollows(act, {}, s, s');
  }

  lemma TopStrikes(p: Stmt, x: Name, before: bool, module_: set<Name>, s: State, s': State)
    requires !p.Statements? && Exec(Runner(module_), p, true, s, s', Normal) && StruckHolds(s, x, before)
    ensures StruckHolds(s', x, StruckLeaf(p, x, before))
  {
    if IsMark(p) {
      MarkStrikes(p, x, before, module_, s, s');
    } else {
      SameBelow(module_, p, s, s');
      FollowingIsInductive(module_, s);
      var _ := NestedKeeps(Runner(module_), FollowsFrom(s), p, s, s', Normal, true);
      if (p.Assign? || p.AssignModify?) && x in ActOf(p, module_).bases { StepStrikes(ActOf(p, module_), x, s, s'); }
    }
  }

  /** A top-level `x[...] = ...` since `x` was last read into: in every completed execution its face, if it
      holds one, was written in place. */
  lemma StruckIsWritten(p: Stmt, s: State, x: Name)
    requires Completes(p, s) && Struck(p, x)
    ensures !Intact(s, x)
  {
    var k, leaf := Runner(Bound(p)), (q: Stmt, before: bool) => StruckLeaf(q, x, before);
    var allows, says := (q: Stmt) => true, (t: State, before: bool) => StruckHolds(t, x, before);
    forall q, a, b, before | allows(q) && !q.Statements? && Exec(k, q, true, a, b, Normal) && says(a, before) ensures says(b, leaf(q, before)) {
      TopStrikes(q, x, before, Bound(p), a, b);
    }
    TopTracks(k, allows, leaf, says, p, INPUTS, s, false);
  }

  // Never written.

  predicate OneSided(names: set<Name>, company: set<Name>) { names <= company || names !! company }

  /** A loop's own names: what it runs over, and what it binds each round. */
  function LoopNames(p: Stmt, module_: set<Name>): set<Name>
    requires p.For?
  {
    ActOf(p, module_).uses + RoundAct(p, module_).names + RoundAct(p, module_).uses
  }

  function OwnNames(p: Stmt, module_: set<Name>): set<Name> {
    if p.For? then LoopNames(p, module_) else ActOf(p, module_).names + ActOf(p, module_).uses
  }

  predicate OwnWrites(p: Stmt, module_: set<Name>) { ActOf(p, module_).writes || (p.For? && RoundAct(p, module_).writes) }

  /** Every statement keeps to a company of names or keeps out of it, in all it binds or uses. */
  predicate Together(p: Stmt, company: set<Name>, module_: set<Name>) {
    && OneSided(OwnNames(p, module_), company)
    && match p
       case For(_, _, body) => Together(body, company, module_)
       case If(_, body) => Together(body, company, module_)
       case IfElse(_, arm0, arm1) => Together(arm0, company, module_) && Together(arm1, company, module_)
       case Statements(stmts) => forall i | 0 <= i < |stmts| :: Together(stmts[i], company, module_)
       case _ => true
  }

  /** Something in the statement may write in place what the company leads to. */
  predicate Stirring(p: Stmt, company: set<Name>, module_: set<Name>) {
    || (OwnWrites(p, module_) && OwnNames(p, module_) * company != {})
    || match p
       case For(_, _, body) => Stirring(body, company, module_)
       case If(_, body) => Stirring(body, company, module_)
       case IfElse(_, arm0, arm1) => Stirring(arm0, company, module_) || Stirring(arm1, company, module_)
       case Statements(stmts) => exists i :: 0 <= i < |stmts| && Stirring(stmts[i], company, module_)
       case _ => false
  }

  /** Whether anything has since the last top-level read into `x`. */
  function StirredLeaf(p: Stmt, x: Name, company: set<Name>, module_: set<Name>, before: bool): bool {
    if IsMark(p) && p.lhs.name == x then false else before || Stirring(p, company, module_)
  }

  function Stirred(p: Stmt, x: Name, company: set<Name>): bool {
    Fold(p, (q: Stmt, before: bool) => StirredLeaf(q, x, company, Bound(p), before), false)
  }

  /** The nodes on the company's side: its names, and objects; nothing holds across. */
  ghost predicate Split(s: State, company: set<Name>, side: set<Node>) {
    && (forall n :: Named(n) in side <==> n in company)
    && (forall l :: Object(l) in side ==> l in s.made)
    && (forall u, v :: v in Holds(s, u) ==> (u in side <==> v in side) && Made(s, v))
  }

  predicate Made(s: State, v: Node) { v.Object? ==> v.loc in s.made }

  /** All on one side. */
  predicate Sided(nodes: set<Node>, side: set<Node>, within: bool) { if within then nodes <= side else nodes !! side }

  lemma ReachStays(s: State, company: set<Name>, side: set<Node>, roots: set<Node>, reach: set<Node>, within: bool)
    requires Split(s, company, side) && IsReach(s, roots, reach) && Sided(roots, side, within)
    requires forall v :: v in roots ==> Made(s, v)
    ensures Sided(reach, side, within) && forall v :: v in reach ==> Made(s, v)
  {
    var kept := set v | v in reach && (v in side <==> within) && Made(s, v);
    assert roots <= kept;
    forall u | u in kept ensures Holds(s, u) <= kept {
      forall v | v in Holds(s, u) ensures v in kept {}
    }
    assert Closed(s, kept);
  }

  /** What an evaluation on one side leaves of the other, and of itself when it writes nothing. */
  lemma EvaluationStays(roots: set<Node>, writes: bool, s: State, m: State, a: set<Node>, company: set<Name>, side: set<Node>, within: bool)
    returns (side': set<Node>)
    requires Evaluates(roots, writes, s, m, a) && Split(s, company, side) && Sided(roots, side, within)
    requires forall v :: v in roots ==> Made(s, v)
    ensures Split(m, company, side') && side <= side' && Sided(a, side', within) && (forall v :: v in a ==> Made(m, v))
    ensures forall v :: v in side' && v !in side ==> !Made(s, v)
    ensures !within || !writes ==> forall l :: Object(l) in side ==> (l in m.written <==> l in s.written)
  {
    var reach :| EvaluatesOver(roots, reach, writes, s, m, a);
    ReachStays(s, company, side, roots, reach, within);
    side' := if within then side + Fresh(s, m) else side;
    forall u, v | v in Holds(m, u) ensures (u in side' <==> v in side') && Made(m, v) {
      if u in a { assert v in a; } else { assert v in Holds(s, u); }
    }
  }

  /** While `x` holds a face and nothing stirred, the face is on the company's side and unwritten. */
  ghost predicate Kept(s: State, company: set<Name>, side: set<Node>, x: Name, stirred: bool) {
    && Split(s, company, side)
    && (!stirred && x in s.vals && s.vals[x].Carried? ==> s.vals[x].loc !in s.written && Object(s.vals[x].loc) in side)
  }

  /** Which objects there were, and which nodes were on the side. */
  datatype World = World(made: set<Loc>, side: set<Node>)

  predicate MadeIn(w: World, v: Node) { v.Object? ==> v.loc in w.made }

  /** What joins a side was not made before. */
  ghost predicate Grows(a: World, b: World) {
    a.made <= b.made && a.side <= b.side && forall v :: v in b.side && v !in a.side ==> !MadeIn(a, v)
  }

  ghost predicate KeptIn(s: State, company: set<Name>, w: World, x: Name, stirred: bool) {
    w.made == s.made && Kept(s, company, w.side, x, stirred)
  }

  lemma GrowsOn(a: World, b: World, c: World)
    requires Grows(a, b) && Grows(b, c)
    ensures Grows(a, c)
  {
  }

  lemma RootsAreSided(names: set<Name>, also: set<Node>, s: State, company: set<Name>, side: set<Node>, within: bool)
    requires Split(s, company, side) && (if within then names <= company else names !! company)
    requires Sided(also, side, within) && forall v :: v in also ==> Made(s, v)
    ensures Sided(Roots(names) + also, side, within) && forall v :: v in Roots(names) + also ==> Made(s, v)
  {
  }

  lemma BindsKeeps(names: set<Name>, a: set<Node>, m: State, s': State, company: set<Name>, side: set<Node>, x: Name, stirred: bool, within: bool)
    requires Binds(names, a, m, s') && Kept(m, company, side, x, stirred) && Sided(a, side, within)
    requires (forall v :: v in a ==> Made(m, v)) && (if within then names <= company else names !! company)
    ensures Kept(s', company, side, x, stirred)
  {
    forall u, v | v in Holds(s', u) ensures (u in side <==> v in side) && Made(s', v) {
      if u.Named? && u.name in names { assert v in a; } else { assert v in Holds(m, u); }
    }
  }

  lemma EvaluationKeeps(roots: set<Node>, writes: bool, s: State, m: State, a: set<Node>, company: set<Name>, side: set<Node>, x: Name,
                        stirred: bool, within: bool)
    returns (side': set<Node>)
    requires Evaluates(roots, writes, s, m, a) && Kept(s, company, side, x, stirred) && Sided(roots, side, within)
    requires (forall v :: v in roots ==> Made(s, v)) && (stirred || !within || !writes)
    ensures Kept(m, company, side', x, stirred) && Grows(World(s.made, side), World(m.made, side'))
    ensures Sided(a, side', within) && forall v :: v in a ==> Made(m, v)
  {
    side' := EvaluationStays(roots, writes, s, m, a, company, side, within);
  }

  lemma DoesKept(act: Act, also: set<Node>, s: State, s': State, company: set<Name>, side: set<Node>, x: Name, stirred: bool, within: bool)
    returns (side': set<Node>)
    requires Does(act, also, s, s') && Kept(s, company, side, x, stirred)
    requires if within then act.names + act.uses <= company else act.names + act.uses !! company
    requires Sided(also, side, within) && (forall v :: v in also ==> Made(s, v)) && (stirred || !within || !act.writes)
    ensures Kept(s', company, side', x, stirred) && Grows(World(s.made, side), World(s'.made, side'))
  {
    var m, a :| Evaluates(Roots(act.uses) + also, act.writes, s, m, a) && Strikes(act.bases, m) && Binds(act.names, a, m, s');
    RootsAreSided(act.uses, also, s, company, side, within);
    side' := EvaluationKeeps(Roots(act.uses) + also, act.writes, s, m, a, company, side, x, stirred, within);
    BindsKeeps(act.names, a, m, s', company, side', x, stirred, within);
  }

  lemma OwnKept(p: Stmt, module_: set<Name>, s: State, s': State, company: set<Name>, side: set<Node>, x: Name, stirred: bool)
    returns (side': set<Node>)
    requires !p.For? && Does(ActOf(p, module_), {}, s, s') && Kept(s, company, side, x, stirred)
    requires OneSided(OwnNames(p, module_), company) && (stirred || !OwnWrites(p, module_) || OwnNames(p, module_) !! company)
    ensures Kept(s', company, side', x, stirred) && Grows(World(s.made, side), World(s'.made, side'))
  {
    var within := !(OwnNames(p, module_) !! company);
    side' := DoesKept(ActOf(p, module_), {}, s, s', company, side, x, stirred, within);
  }

  lemma RunsOverKept(p: Stmt, module_: set<Name>, s: State, m: State, it: set<Node>, company: set<Name>, side: set<Node>, x: Name,
                     stirred: bool, within: bool)
    returns (side': set<Node>)
    requires p.For? && RunsOver(ActOf(p, module_), s, m, it) && Kept(s, company, side, x, stirred)
    requires if within then LoopNames(p, module_) <= company else LoopNames(p, module_) !! company
    requires stirred || !within || !OwnWrites(p, module_)
    ensures Kept(m, company, side', x, stirred) && Grows(World(s.made, side), World(m.made, side'))
    ensures Sided(it, side', within) && forall v :: v in it ==> Made(m, v)
  {
    var act := ActOf(p, module_);
    var a :| Evaluates(Roots(act.uses), act.writes, s, m, a) && it <= a;
    RootsAreSided(act.uses, {}, s, company, side, within);
    assert Roots(act.uses) + {} == Roots(act.uses);
    side' := EvaluationKeeps(Roots(act.uses), act.writes, s, m, a, company, side, x, stirred, within);
  }

  /** A statement below the top level, keeping to its side and stirring nothing. */
  ghost function SideStays(company: set<Name>, x: Name, stirred: bool, module_: set<Name>): Invariant<State, set<Node>, World> {
    Invariant((p: Stmt) => Together(p, company, module_) && (stirred || !Stirring(p, company, module_)),
              (s: State, w: World) => KeptIn(s, company, w, x, stirred), (a: World, b: World) => Grows(a, b),
              (p: Stmt, it: set<Node>, w: World) => p.For? && RunsAside(it, w, !(LoopNames(p, module_) !! company)))
  }

  ghost predicate RunsAside(it: set<Node>, w: World, within: bool) { Sided(it, w.side, within) && forall v :: v in it ==> MadeIn(w, v) }

  lemma RunsOnAside(it: set<Node>, a: World, b: World, within: bool)
    requires RunsAside(it, a, within) && Grows(a, b)
    ensures RunsAside(it, b, within)
  {
  }

  lemma SidesAreOrdered(company: set<Name>, x: Name, stirred: bool, module_: set<Name>)
    ensures Hereditary(SideStays(company, x, stirred, module_).allows) && Ordered(SideStays(company, x, stirred, module_).grows)
  {
    var v := SideStays(company, x, stirred, module_);
    forall a, b, c | v.grows(a, b) && v.grows(b, c) ensures v.grows(a, c) { GrowsOn(a, b, c); }
  }

  lemma OwnLeads(company: set<Name>, x: Name, stirred: bool, module_: set<Name>, p: Stmt, s: State, s': State, w: World)
    requires !p.For? && Does(ActOf(p, module_), {}, s, s') && KeptIn(s, company, w, x, stirred)
    requires Together(p, company, module_) && (stirred || !Stirring(p, company, module_))
    ensures Leads(SideStays(company, x, stirred, module_).holds, SideStays(company, x, stirred, module_).grows, w, s')
  {
    var side := OwnKept(p, module_, s, s', company, w.side, x, stirred);
    var w' := World(s'.made, side);
    assert Grows(w, w') && KeptIn(s', company, w', x, stirred);
    var v := SideStays(company, x, stirred, module_);
    assert v.grows(w, w') && v.holds(s', w');
  }

  lemma OverLeads(company: set<Name>, x: Name, stirred: bool, module_: set<Name>, p: Stmt, it: set<Node>, s: State, m: State, w: World)
    requires p.For? && RunsOver(ActOf(p, module_), s, m, it) && KeptIn(s, company, w, x, stirred)
    requires Together(p, company, module_) && (stirred || !Stirring(p, company, module_))
    ensures LeadsOver(SideStays(company, x, stirred, module_), p, it, w, m)
  {
    var within := !(LoopNames(p, module_) !! company);
    var side := RunsOverKept(p, module_, s, m, it, company, w.side, x, stirred, within);
    var w' := World(m.made, side);
    assert Grows(w, w') && KeptIn(m, company, w', x, stirred) && RunsAside(it, w', within);
    var v := SideStays(company, x, stirred, module_);
    assert v.grows(w, w') && v.holds(m, w') && v.runs(p, it, w');
  }

  lemma RoundLeads(company: set<Name>, x: Name, stirred: bool, module_: set<Name>, p: Stmt, it: set<Node>, s: State, s': State, w: World)
    requires p.For? && Does(RoundAct(p, module_), it, s, s') && KeptIn(s, company, w, x, stirred)
    requires RunsAside(it, w, !(LoopNames(p, module_) !! company))
    requires Together(p, company, module_) && (stirred || !Stirring(p, company, module_))
    ensures Leads(SideStays(company, x, stirred, module_).holds, SideStays(company, x, stirred, module_).grows, w, s')
  {
    var side := DoesKept(RoundAct(p, module_), it, s, s', company, w.side, x, stirred, !(LoopNames(p, module_) !! company));
    var w' := World(s'.made, side);
    assert Grows(w, w') && KeptIn(s', company, w', x, stirred);
    var v := SideStays(company, x, stirred, module_);
    assert v.grows(w, w') && v.holds(s', w');
  }

  lemma SideIsInductive(company: set<Name>, x: Name, stirred: bool, module_: set<Name>)
    ensures Inductive(Runner(module_), SideStays(company, x, stirred, module_))
  {
    var k, v := Runner(module_), SideStays(company, x, stirred, module_);
    SidesAreOrdered(company, x, stirred, module_);
    forall p, s, s', w | v.allows(p) && !p.For? && v.holds(s, w) && k.does(p, s, s') ensures Leads(v.holds, v.grows, w, s') {
      OwnLeads(company, x, stirred, module_, p, s, s', w);
    }
    forall p, s, m, it, w | v.allows(p) && p.For? && v.holds(s, w) && k.runsOver(p, s, m, it) ensures LeadsOver(v, p, it, w, m) {
      OverLeads(company, x, stirred, module_, p, it, s, m, w);
    }
    forall p, it, s, s', w | v.allows(p) && p.For? && v.holds(s, w) && v.runs(p, it, w) && k.begins(p, it, s, s')
      ensures Leads(v.holds, v.grows, w, s')
    {
      RoundLeads(company, x, stirred, module_, p, it, s, s', w);
    }
    forall p, it, w, w' | v.runs(p, it, w) && v.grows(w, w') ensures v.runs(p, it, w') {
      RunsOnAside(it, w, w', !(LoopNames(p, module_) !! company));
    }
  }

  /** A fresh face joins the side of the name it is read into; read into `x`, nothing has stirred. */
  lemma ReadKeeps(name: Name, l: Loc, m: State, company: set<Name>, side: set<Node>, x: Name, stirred: bool)
    returns (side': set<Node>)
    requires l !in m.made && l !in m.written && x in company && Kept(m, company, side, x, stirred || name == x)
    ensures Kept(Read(name, l, m), company, side', x, stirred)
  {
    side' := if name in company then side + {Object(l)} else side;
    var s' := Read(name, l, m);
    forall u, v | v in Holds(s', u) ensures (u in side' <==> v in side') && Made(s', v) {
      if u != Named(name) && u != Object(l) { assert v in Holds(m, u); }
    }
  }

  /** What a top-level read came through: its arguments, then a face or a value of the module's own. */
  lemma ReadEvaluates(name: Name, callee: Name, act: Act, module_: set<Name>, s: State, s': State) returns (m: State, a: set<Node>)
    requires DoesRead(name, callee, act, module_, s, s')
    ensures Evaluates(Roots(act.uses), act.writes, s, m, a) && (ReadsFace(name, m, s') || Binds({name}, a, m, s'))
  {
    m, a :| Evaluates(Roots(act.uses), act.writes, s, m, a) && (ReadsFace(name, m, s') || (callee in module_ && Binds({name}, a, m, s')));
  }

  lemma ArgumentsKept(p: Stmt, module_: set<Name>, s: State, m: State, a: set<Node>, company: set<Name>, side: set<Node>, x: Name, stirred: bool)
    returns (side': set<Node>)
    requires IsMark(p) && Evaluates(Roots(ActOf(p, module_).uses), ActOf(p, module_).writes, s, m, a) && Kept(s, company, side, x, stirred)
    requires OneSided(OwnNames(p, module_), company) && (stirred || !OwnWrites(p, module_) || OwnNames(p, module_) !! company)
    ensures Kept(m, company, side', x, stirred) && Sided(a, side', !(OwnNames(p, module_) !! company)) && forall v :: v in a ==> Made(m, v)
  {
    var act, within := ActOf(p, module_), !(OwnNames(p, module_) !! company);
    RootsAreSided(act.uses, {}, s, company, side, within);
    assert Roots(act.uses) + {} == Roots(act.uses);
    side' := EvaluationKeeps(Roots(act.uses), act.writes, s, m, a, company, side, x, stirred, within);
  }

  /** A mark's name is on the side of what it uses, and a read into another name stirs as any step does. */
  lemma MarkSides(p: Stmt, module_: set<Name>, company: set<Name>, x: Name, before: bool)
    requires IsMark(p) && Together(p, company, module_)
    ensures OneSided(OwnNames(p, module_), company)
    ensures p.lhs.name in company <==> !(OwnNames(p, module_) !! company)
    ensures p.lhs.name != x ==> (before ==> StirredLeaf(p, x, company, module_, before))
    ensures p.lhs.name != x && !StirredLeaf(p, x, company, module_, before) ==> !OwnWrites(p, module_) || OwnNames(p, module_) !! company
  {
    forall n | n in OwnNames(p, module_) && n in company ensures n in OwnNames(p, module_) * company {}
  }

  /** A name just bound to no face is kept whatever was stirred. */
  lemma BoundIsKept(name: Name, a: set<Node>, m: State, s': State, company: set<Name>, side: set<Node>, x: Name, stirred: bool, within: bool)
    requires Binds({name}, a, m, s') && Kept(m, company, side, x, stirred || name == x) && Sided(a, side, within)
    requires (forall v :: v in a ==> Made(m, v)) && (if within then name in company else name !in company)
    ensures Kept(s', company, side, x, stirred)
  {
    BindsKeeps({name}, a, m, s', company, side, x, stirred || name == x, within);
  }

  lemma MarkKept(p: Stmt, module_: set<Name>, s: State, s': State, company: set<Name>, side: set<Node>, x: Name, before: bool)
    returns (side': set<Node>)
    requires IsMark(p) && DoesRead(p.lhs.name, p.rhs.callee, ActOf(p, module_), module_, s, s') && x in company && Together(p, company, module_)
    requires Kept(s, company, side, x, before)
    ensures Kept(s', company, side', x, StirredLeaf(p, x, company, module_, before))
  {
    var name, stirred := p.lhs.name, StirredLeaf(p, x, company, module_, before);
    MarkSides(p, module_, company, x, before);
    var m, a := ReadEvaluates(name, p.rhs.callee, ActOf(p, module_), module_, s, s');
    KeptLess(s, company, side, x, before, stirred || name == x);
    side' := ArgumentsKept(p, module_, s, m, a, company, side, x, stirred || name == x);
    side' := ResultKept(name, a, m, s', company, side', x, stirred, !(OwnNames(p, module_) !! company));
  }

  lemma ResultKept(name: Name, a: set<Node>, m: State, s': State, company: set<Name>, side: set<Node>, x: Name, stirred: bool, within: bool)
    returns (side': set<Node>)
    requires (ReadsFace(name, m, s') || Binds({name}, a, m, s')) && x in company && Kept(m, company, side, x, stirred || name == x)
    requires Sided(a, side, within) && (forall v :: v in a ==> Made(m, v)) && (if within then name in company else name !in company)
    ensures Kept(s', company, side', x, stirred)
  {
    side' := side;
    if ReadsFace(name, m, s') {
      var l :| l !in m.made && l !in m.written && s' == Read(name, l, m);
      side' := ReadKeeps(name, l, m, company, side, x, stirred);
    } else {
      BoundIsKept(name, a, m, s', company, side, x, stirred, within);
    }
  }

  lemma KeptLess(s: State, company: set<Name>, side: set<Node>, x: Name, before: bool, stirred: bool)
    requires Kept(s, company, side, x, before) && (before ==> stirred)
    ensures Kept(s, company, side, x, stirred)
  {
  }

  lemma BelowKept(p: Stmt, module_: set<Name>, s: State, s': State, company: set<Name>, side: set<Node>, x: Name, before: bool)
    returns (side': set<Node>)
    requires !p.Statements? && !IsMark(p) && Exec(Runner(module_), p, true, s, s', Normal) && x in company && Together(p, company, module_)
    requires Kept(s, company, side, x, before)
    ensures Kept(s', company, side', x, StirredLeaf(p, x, company, module_, before))
  {
    var stirred := StirredLeaf(p, x, company, module_, before);
    SameBelow(module_, p, s, s');
    KeptLess(s, company, side, x, before, stirred);
    SideIsInductive(company, x, stirred, module_);
    var w := NestedKeeps(Runner(module_), SideStays(company, x, stirred, module_), p, s, s', Normal, World(s.made, side));
    side' := w.side;
  }

  lemma TopKept(p: Stmt, module_: set<Name>, s: State, s': State, company: set<Name>, side: set<Node>, x: Name, before: bool)
    returns (side': set<Node>)
    requires !p.Statements? && Exec(Runner(module_), p, true, s, s', Normal) && x in company && Together(p, company, module_)
    requires Kept(s, company, side, x, before)
    ensures Kept(s', company, side', x, StirredLeaf(p, x, company, module_, before))
  {
    if IsMark(p) {
      side' := MarkKept(p, module_, s, s', company, side, x, before);
    } else {
      side' := BelowKept(p, module_, s, s', company, side, x, before);
    }
  }

  ghost predicate KeptSomehow(s: State, company: set<Name>, x: Name, stirred: bool) { exists side :: Kept(s, company, side, x, stirred) }

  lemma RunsKeep(p: Stmt, s: State, x: Name, company: set<Name>)
    requires Completes(p, s) && x in company && Together(p, company, Bound(p)) && KeptSomehow(INPUTS, company, x, false)
    ensures KeptSomehow(s, company, x, Stirred(p, x, company))
  {
    var k, module_ := Runner(Bound(p)), Bound(p);
    var leaf := (q: Stmt, before: bool) => StirredLeaf(q, x, company, Bound(p), before);
    var allows, says := (q: Stmt) => Together(q, company, module_), (t: State, before: bool) => KeptSomehow(t, company, x, before);
    forall q, a, b, before | allows(q) && !q.Statements? && Exec(k, q, true, a, b, Normal) && says(a, before) ensures says(b, leaf(q, before)) {
      var side :| Kept(a, company, side, x, before);
      var side' := TopKept(q, module_, a, b, company, side, x, before);
    }
    assert Hereditary(allows);
    TopTracks(k, allows, leaf, says, p, INPUTS, s, false);
  }

  /** At the start each input's object is on its name's side. */
  lemma InputsAreKept(company: set<Name>, x: Name)
    ensures KeptSomehow(INPUTS, company, x, false)
  {
    InputsAtStart();
    StartIsKept(INPUTS, company, x);
  }

  lemma StartIsKept(s: State, company: set<Name>, x: Name)
    requires AtStart(s) && ARGS != FILES
    ensures KeptSomehow(s, company, x, false)
  {
    var side := Roots(company) + (if ARGS in company then {Object(0)} else {}) + (if FILES in company then {Object(1)} else {});
    assert Split(s, company, side);
    assert Kept(s, company, side, x, false);
  }

  /** A company of `x` in which nothing may have been written since `x` was last read into. */
  predicate Undisturbed(p: Stmt, x: Name, company: set<Name>) {
    x in company && Together(p, company, Bound(p)) && !Stirred(p, x, company)
  }

  /** A name the capture leaves out still is what its echo entry carries, in every completed execution,
      when the builtin marked it, no `def` took it, and it has an undisturbed company. */
  lemma UndisturbedIsIntact(p: Stmt, s: State, x: Name, company: set<Name>)
    requires Completes(p, s) && x in ReadBoundNames(p) && Undisturbed(p, x, company)
    ensures x in Marked(p, NO_MARKS) && x in s.vals
    ensures Marked(p, NO_MARKS)[x] !in Bound(p) ==> Intact(s, x) || (x in Defs(p) && s.vals[x] == Function)
  {
    MarkedIsWalked(p, NO_MARKS);
    assert NO_MARKS.Keys == {};
    MarksAreTrue(p, s);
    InputsAreKept(company, x);
    RunsKeep(p, s, x, company);
  }

  lemma {:induction false} WalkedIsBound(p: Stmt, top: bool, bound: set<Name>)
    ensures Walked(p, top, bound) <= bound + Bound(p)
    decreases p, 1, 0
  {
    match p
    case Statements(_) => WalkedUpToIsBound(p, |p.stmts|, top, bound);
    case For(v, _, body) => WalkedIsBound(body, false, bound - TargetNames(v));
    case If(_, body) => WalkedIsBound(body, false, bound);
    case IfElse(_, arm0, arm1) =>
      WalkedIsBound(arm0, false, bound);
      WalkedIsBound(arm1, false, Walked(arm0, false, bound));
    case _ =>
  }

  lemma {:induction false} WalkedUpToIsBound(p: Stmt, n: nat, top: bool, bound: set<Name>)
    requires p.Statements? && n <= |p.stmts|
    ensures WalkedUpTo(p, n, top, bound) <= bound + Bound(p)
    decreases p, 0, n
  {
    if n > 0 {
      WalkedUpToIsBound(p, n - 1, top, bound);
      WalkedIsBound(p.stmts[n - 1], top, WalkedUpTo(p, n - 1, top, bound));
      BoundInside(p, n - 1);
    }
  }

  lemma BoundInside(p: Stmt, i: nat)
    requires p.Statements? && i < |p.stmts|
    ensures Bound(p.stmts[i]) <= Bound(p)
  {
  }

  lemma {:induction false} ModuleIsTogether(p: Stmt, module_: set<Name>)
    requires Bound(p) <= module_
    ensures Together(p, Live(module_), module_)
  {
    match p
    case Statements(stmts) =>
      forall i | 0 <= i < |stmts| ensures Together(stmts[i], Live(module_), module_) {
        BoundInside(p, i);
        ModuleIsTogether(stmts[i], module_);
      }
    case For(_, _, body) => ModuleIsTogether(body, module_);
    case If(_, body) => ModuleIsTogether(body, module_);
    case IfElse(_, arm0, arm1) =>
      ModuleIsTogether(arm0, module_);
      ModuleIsTogether(arm1, module_);
    case _ =>
  }

  /** The module's names and its inputs are a company: a name is undisturbed wherever nothing at all that
      uses any of them may have written in place since it was last read into. */
  lemma QuietIsUndisturbed(p: Stmt, x: Name)
    requires x in ReadBoundNames(p) && !Stirred(p, x, Live(Bound(p)))
    ensures Undisturbed(p, x, Live(Bound(p)))
  {
    WalkedIsBound(p, true, {});
    ModuleIsTogether(p, Bound(p));
  }

  // A name the module does not bind keeps its value.

  ghost function ValueStays(n: Name, v: Value, module_: set<Name>): Invariant<State, set<Node>, bool> {
    Invariant((p: Stmt) => Bound(p) <= module_, (s: State, w: bool) => HasValue(s, n, v), (a: bool, b: bool) => true,
              (p: Stmt, it: set<Node>, w: bool) => true)
  }

  predicate HasValue(s: State, n: Name, v: Value) { n in s.vals && s.vals[n] == v }

  lemma StepBinds(act: Act, also: set<Node>, s: State, s': State, n: Name, v: Value)
    requires Does(act, also, s, s') && n !in act.names && HasValue(s, n, v)
    ensures HasValue(s', n, v)
  {
    DoesRebind(act, also, s, s');
  }

  lemma BoundAllows(n: Name, v: Value, module_: set<Name>)
    ensures Hereditary(ValueStays(n, v, module_).allows)
  {
    var allows := ValueStays(n, v, module_).allows;
    forall p: Stmt, i | allows(p) && p.Statements? && 0 <= i < |p.stmts| ensures allows(p.stmts[i]) { BoundInside(p, i); }
  }

  lemma ValueIsInductive(n: Name, v: Value, module_: set<Name>)
    requires n !in module_
    ensures Inductive(Runner(module_), ValueStays(n, v, module_))
  {
    var k, inv := Runner(module_), ValueStays(n, v, module_);
    BoundAllows(n, v, module_);
    forall p, s, s', w | inv.allows(p) && !p.For? && inv.holds(s, w) && k.does(p, s, s') ensures Leads(inv.holds, inv.grows, w, s') {
      StepBinds(ActOf(p, module_), {}, s, s', n, v);
      assert inv.grows(w, w) && inv.holds(s', w);
    }
    forall p, s, m, it, w | inv.allows(p) && p.For? && inv.holds(s, w) && k.runsOver(p, s, m, it) ensures LeadsOver(inv, p, it, w, m) {
      assert inv.grows(w, w) && inv.holds(m, w) && inv.runs(p, it, w);
    }
    forall p, it, s, s', w | inv.allows(p) && p.For? && inv.holds(s, w) && inv.runs(p, it, w) && k.begins(p, it, s, s')
      ensures Leads(inv.holds, inv.grows, w, s')
    {
      StepBinds(RoundAct(p, module_), it, s, s', n, v);
      assert inv.grows(w, w) && inv.holds(s', w);
    }
  }

  lemma TopValue(p: Stmt, module_: set<Name>, s: State, s': State, n: Name, v: Value)
    requires !p.Statements? && Exec(Runner(module_), p, true, s, s', Normal) && HasValue(s, n, v) && n !in module_ && Bound(p) <= module_
    ensures HasValue(s', n, v)
  {
    if IsMark(p) {
      assert DoesRead(p.lhs.name, p.rhs.callee, ActOf(p, module_), module_, s, s');
    } else {
      SameBelow(module_, p, s, s');
      ValueIsInductive(n, v, module_);
      var _ := NestedKeeps(Runner(module_), ValueStays(n, v, module_), p, s, s', Normal, true);
    }
  }

  /** An input whose name the module does not bind is still the input. */
  lemma UnboundStays(p: Stmt, s: State, n: Name)
    requires Completes(p, s) && n in {ARGS, FILES} && n !in Bound(p)
    ensures HasValue(s, n, Input)
  {
    var k, module_ := Runner(Bound(p)), Bound(p);
    var leaf, allows, says := (q: Stmt, t: bool) => t, (q: Stmt) => Bound(q) <= module_, (t: State, ok: bool) => HasValue(t, n, Input);
    forall q, a, b, ok | allows(q) && !q.Statements? && Exec(k, q, true, a, b, Normal) && says(a, ok) ensures says(b, leaf(q, ok)) {
      TopValue(q, module_, a, b, n, Input);
    }
    BoundAllows(n, Input, module_);
    assert Hereditary(allows);
    TopTracks(k, allows, leaf, says, p, INPUTS, s, true);
  }

  /** So the capture hides nothing: where the module binds neither builtin and every name left out has an
      undisturbed company, whatever is left out is an input, a function, or the face itself; or it took an
      input's name. */
  lemma CaptureHidesNothing(p: Stmt, s: State, name: Name)
    requires Completes(p, s) && READ !in Bound(p) && RUN !in Bound(p)
    requires forall x :: x in ReadBoundNames(p) ==> exists company :: Undisturbed(p, x, company)
    requires name in s.vals
    ensures || name in Captured(p, s) || s.vals[name] == Function || Intact(s, name)
            || (name in {ARGS, FILES} && (s.vals[name] == Input || name in Bound(p)))
  {
    if name in ReadBoundNames(p) {
      var company :| Undisturbed(p, name, company);
      MarksAreReads(p, NO_MARKS);
      UndisturbedIsIntact(p, s, name, company);
    } else if name in {ARGS, FILES} && name !in Bound(p) {
      UnboundStays(p, s, name);
    }
  }

  // ---- two scripts whose face is written -----------------------------------------------------

  /** A statement that is one step, by what it reaches. */
  lemma StepRuns(p: Stmt, module_: set<Name>, reach: set<Node>, s: State, m: State, s': State)
    requires (p.Assign? || p.Expression? || p.Def?) && !IsMark(p) && EvaluatesOver(Roots(ActOf(p, module_).uses), reach, ActOf(p, module_).writes, s, m, reach)
    requires Strikes(ActOf(p, module_).bases, m) && Binds(ActOf(p, module_).names, reach, m, s')
    requires p.Def? ==> HasValue(s', p.function_, Function)
    ensures Exec(Runner(module_), p, true, s, s', Normal)
  {
    var act := ActOf(p, module_);
    assert Roots(act.uses) + {} == Roots(act.uses);
    assert Evaluates(Roots(act.uses) + {}, act.writes, s, m, reach);
    assert Does(act, {}, s, s');
  }

  lemma FaceRuns(p: Stmt, module_: set<Name>, s: State, l: Loc)
    requires IsMark(p) && p.rhs == CallOf(READ, {}, false) && READ !in Live(module_) && l !in s.made && l !in s.written
    ensures Exec(Runner(module_), p, true, s, Read(p.lhs.name, l, s), Normal)
  {
    var act := ActOf(p, module_);
    assert act.uses == {} && Roots(act.uses) == {};
    IdleEvaluates(s, act.writes);
    assert ReadsFace(p.lhs.name, s, Read(p.lhs.name, l, s));
  }

  /** What a name with one face reaches: itself and the face. */
  lemma FaceReached(name: Name, l: Loc, m: State)
    ensures IsReach(Read(name, l, m), {Named(name)}, {Named(name), Object(l)})
  {
    var s := Read(name, l, m);
    assert Holds(s, Named(name)) == {Object(l)} && Holds(s, Object(l)) == {};
  }

  function Strike(name: Name): Stmt { Assign(Index(Some(name), {name}), Computation({}, false)) }

  lemma StrikeActs(name: Name, module_: set<Name>)
    requires name in Live(module_)
    ensures ActOf(Strike(name), module_) == Act({}, {name}, true, {name})
  {
    var t := Index(Some(name), {name});
    assert Leaves(t) == {t} && InPlace(t) && Bases(t) == {name} && PlaceUses(t) == {name};
  }

  /** These objects written, and nothing else changed. */
  function Written(s: State, l: Loc): State { s.(written := s.written + {l}) }

  lemma WritingEvaluates(roots: set<Node>, reach: set<Node>, s: State, l: Loc)
    requires IsReach(s, roots, reach) && Object(l) in reach
    ensures EvaluatesOver(roots, reach, true, s, Written(s, l), reach)
  {
    assert Fresh(s, Written(s, l)) == {};
  }

  lemma StrikeRuns(name: Name, module_: set<Name>, m: State, l: Loc)
    requires name in module_
    ensures Exec(Runner(module_), Strike(name), true, Read(name, l, m), Written(Read(name, l, m), l), Normal)
  {
    var s, reach := Read(name, l, m), {Named(name), Object(l)};
    StrikeActs(name, module_);
    FaceReached(name, l, m);
    WritingEvaluates({Named(name)}, reach, s, l);
    assert Roots({name}) == {Named(name)};
    assert Binds({}, reach, Written(s, l), Written(s, l));
    StepRuns(Strike(name), module_, reach, s, Written(s, l), Written(s, l));
  }

  /** A script's own names: apart from each other, the inputs and the builtins. */
  predicate Own(name: Name) { name !in {READ, RUN, ARGS, FILES} }

  lemma NamesDiffer()
    ensures |READ| == 4 && READ[0] == 'r' && |RUN| == 3 && |ARGS| == 4 && ARGS[0] == 'a' && |FILES| == 5
  {
  }

  function ReadInto(name: Name): Stmt { Assign(Identifier(name), CallOf(READ, {}, false)) }

  /** Where a name is disturbed its face can be written: `x = read(...)`, then `x["sum"] = 40 + 2`, with
      neither builtin bound. The name is left out, and its face was written since. */
  lemma SubscriptHides(name: Name) returns (p: Stmt, s: State)
    requires Own(name)
    ensures p == Statements([ReadInto(name), Strike(name)])
    ensures READ !in Bound(p) && RUN !in Bound(p) && Completes(p, s)
    ensures name in s.vals && s.vals[name].Carried? && name !in Captured(p, s) && !Intact(s, name)
  {
    p := Statements([ReadInto(name), Strike(name)]);
    var mid := Read(name, 2, INPUTS);
    s := Written(mid, 2);
    TwoBound(p, name);
    NamesDiffer();
    FaceRuns(ReadInto(name), Bound(p), INPUTS, 2);
    StrikeRuns(name, Bound(p), INPUTS, 2);
    TwoRun(Runner(Bound(p)), p, INPUTS, mid, s);
    TwoWalked(p);
  }

  lemma TwoBound(p: Stmt, name: Name)
    requires p == Statements([ReadInto(name), Strike(name)])
    ensures Bound(p) == {name}
  {
    assert p.stmts[0] == ReadInto(name) && p.stmts[1] == Strike(name);
    assert Bound(ReadInto(name)) == {name} && Bound(Strike(name)) == {};
    assert name in Bound(p) by { assert name in Bound(p.stmts[0]); }
  }

  function DefThrough(f: Name, x: Name): Stmt { Def(f, {x}, true) }

  function StoreThrough(f: Name): Stmt { Assign(Index(Some(ARGS), {ARGS}), Computation({f}, false)) }

  function CallThrough(): Stmt { Expression(Computation({ARGS}, true)) }

  /** `def f(): x["sum"] = 40 + 2`, `args["f"] = f`, `x = read(...)`, `args["f"]()`. */
  function Through(f: Name, x: Name): Stmt { Statements([DefThrough(f, x), StoreThrough(f), ReadInto(x), CallThrough()]) }

  /** The face can be written through an input as well, by no statement that names it: the script above
      leaves `x` out, and its face was written since. */
  lemma InputsHide(f: Name, x: Name) returns (s: State)
    requires Own(f) && Own(x) && f != x
    ensures Bound(Through(f, x)) == {f, x} && Completes(Through(f, x), s)
    ensures x in s.vals && s.vals[x].Carried? && x !in Captured(Through(f, x), s) && !Intact(s, x)
  {
    InputsAtStart();
    ThroughBinds(f, x);
    s := ThroughRuns(Through(f, x), f, x, INPUTS);
    ThroughWalked(f, x);
  }

  /** So that script has no undisturbed company. */
  lemma ThroughIsDisturbed(f: Name, x: Name, company: set<Name>)
    requires Own(f) && Own(x) && f != x
    ensures x in ReadBoundNames(Through(f, x)) && !Undisturbed(Through(f, x), x, company)
  {
    var s := InputsHide(f, x);
    ThroughWalked(f, x);
    MarksAreReads(Through(f, x), NO_MARKS);
    if Undisturbed(Through(f, x), x, company) { UndisturbedIsIntact(Through(f, x), s, x, company); }
  }

  lemma ThroughRuns(p: Stmt, f: Name, x: Name, i: State) returns (s: State)
    requires Own(f) && Own(x) && f != x && AtStart(i) && p.Statements? && |p.stmts| == 4
    requires p.stmts[0] == DefThrough(f, x) && p.stmts[1] == StoreThrough(f) && p.stmts[2] == ReadInto(x) && p.stmts[3] == CallThrough()
    ensures Exec(Runner({f, x}), p, true, i, s, Normal)
    ensures x in s.vals && s.vals[x] == Carried(2) && 2 in s.written
  {
    StartStores(i, x);
    var s1 := DefinesThrough(f, x, i);
    var s2 := StoresThrough(f, x, s1);
    var s3 := ReadsThrough(f, x, s2);
    s := CallsThrough(f, x, s2, s3);
    FourRun(Runner({f, x}), p, i, s1, s2, s3, s);
  }

  lemma ReadsThrough(f: Name, x: Name, m: State) returns (s: State)
    requires Own(f) && Own(x) && 2 !in m.made && 2 !in m.written
    ensures Exec(Runner({f, x}), ReadInto(x), true, m, s, Normal) && s == Read(x, 2, m)
  {
    NamesDiffer();
    FaceRuns(ReadInto(x), {f, x}, m, 2);
    s := Read(x, 2, m);
  }

  lemma ThroughBinds(f: Name, x: Name)
    ensures Bound(Through(f, x)) == {f, x}
  {
    var p := Through(f, x);
    assert p.stmts[0] == DefThrough(f, x) && p.stmts[2] == ReadInto(x) && Bound(p.stmts[1]) == {} && Bound(p.stmts[3]) == {};
    assert Bound(DefThrough(f, x)) == {f} && Bound(ReadInto(x)) == {x};
    assert f in Bound(p) by { assert f in Bound(p.stmts[0]); }
    assert x in Bound(p) by { assert x in Bound(p.stmts[2]); }
  }

  lemma ThroughWalked(f: Name, x: Name)
    ensures x in ReadBoundNames(Through(f, x))
  {
    var p := Through(f, x);
    assert x in WalkedUpTo(p, 3, true, {});
    assert WalkedUpTo(p, 4, true, {}) == Walked(p.stmts[3], true, WalkedUpTo(p, 3, true, {}));
  }

  /** Through `args` one comes to its object, and from there to these. */
  ghost predicate Stores(s: State, held: set<Node>) {
    ARGS in s.vals && s.vals[ARGS] == Input && Holds(s, Named(ARGS)) == {Object(0)} && Holds(s, Object(0)) == held && 2 !in s.made
  }

  lemma DefActs(f: Name, x: Name)
    ensures ActOf(DefThrough(f, x), {f, x}) == Act({f}, {x}, true, {}) && Roots({x}) == {Named(x)}
  {
  }

  lemma StartStores(s: State, x: Name)
    requires AtStart(s) && Own(x)
    ensures Stores(s, {}) && s.written == {} && Holds(s, Named(x)) == {}
  {
  }

  lemma DefinesThrough(f: Name, x: Name, s: State) returns (s': State)
    requires f != ARGS && f != x && Stores(s, {}) && s.written == {} && Holds(s, Named(x)) == {}
    ensures Exec(Runner({f, x}), DefThrough(f, x), true, s, s', Normal)
    ensures Stores(s', {}) && s'.written == {} && Holds(s', Named(f)) == {Named(x)} && Holds(s', Named(x)) == {}
  {
    s' := s.(vals := s.vals[f := Function], holds := s.holds[Named(f) := {Named(x)}]);
    DefActs(f, x);
    NothingReached(s, {Named(x)});
    assert Fresh(s, s) == {};
    assert Binds({f}, {Named(x)}, s, s');
    StepRuns(DefThrough(f, x), {f, x}, {Named(x)}, s, s, s');
  }

  lemma StoreActs(f: Name, x: Name)
    requires Own(f)
    ensures ActOf(StoreThrough(f), {f, x}) == Act({}, {ARGS, f}, true, {ARGS}) && Roots({ARGS, f}) == {Named(ARGS), Named(f)}
  {
    var t := Index(Some(ARGS), {ARGS});
    assert Leaves(t) == {t} && InPlace(t) && Bases(t) == {ARGS} && PlaceUses(t) == {ARGS};
  }

  lemma StoresThrough(f: Name, x: Name, s: State) returns (s': State)
    requires Own(f) && Own(x) && f != x && Stores(s, {}) && s.written == {}
    requires Holds(s, Named(f)) == {Named(x)} && Holds(s, Named(x)) == {}
    ensures Exec(Runner({f, x}), StoreThrough(f), true, s, s', Normal)
    ensures Stores(s', {Named(x)}) && s'.written == {0}
  {
    var reach := {Named(ARGS), Object(0), Named(f), Named(x)};
    s' := Written(s, 0).(holds := s.holds[Object(0) := {Named(x)}]);
    StoreActs(f, x);
    assert IsReach(s, {Named(ARGS), Named(f)}, reach);
    assert Fresh(s, s') == {};
    StepRuns(StoreThrough(f), {f, x}, reach, s, s', s');
  }

  lemma CallActs(f: Name, x: Name)
    ensures ActOf(CallThrough(), {f, x}) == Act({}, {ARGS}, true, {}) && Roots({ARGS}) == {Named(ARGS)}
  {
  }

  lemma CallsThrough(f: Name, x: Name, m: State, s: State) returns (s': State)
    requires Own(f) && Own(x) && f != x && s == Read(x, 2, m) && Stores(m, {Named(x)})
    ensures Exec(Runner({f, x}), CallThrough(), true, s, s', Normal)
    ensures x in s'.vals && s'.vals[x] == Carried(2) && 2 in s'.written
  {
    var reach := {Named(ARGS), Object(0), Named(x), Object(2)};
    s' := Written(s, 2);
    CallActs(f, x);
    assert Holds(s, Named(ARGS)) == {Object(0)} && Holds(s, Object(0)) == {Named(x)} && Holds(s, Named(x)) == {Object(2)} && Holds(s, Object(2)) == {};
    assert IsReach(s, {Named(ARGS)}, reach);
    WritingEvaluates({Named(ARGS)}, reach, s, 2);
    StepRuns(CallThrough(), {f, x}, reach, s, s', s');
  }
}
