/** Scripts as nested statements, and their executions over any kind of state: any branches, any loop
    counts, and whatever a machine says each statement does of its own. */
module Scripts {
  import opened Bytes

  type Name = Bytes

  /** A call of a plain identifier, or any other expression: the names it uses besides, and whether
      anything in it may write an object in place. */
  datatype Expr = CallOf(callee: Name, uses: set<Name>, writes: bool) | Computation(uses: set<Name>, writes: bool)

  /** A subscript or attribute target has a base, which may be a plain name, and names it uses. */
  datatype Target =
    | Identifier(name: Name)
    | Tuple(items: seq<Target>)
    | Index(base: Option<Name>, uses: set<Name>)
    | Dot(base: Option<Name>, uses: set<Name>)

  datatype Stmt =
    | Assign(lhs: Target, rhs: Expr)
    | AssignModify(target: Target, rhs: Expr, inPlace: bool)
    | Expression(expr: Expr)
    | For(var_: Target, over: Expr, body: Stmt)
    | If(cond: Expr, body: Stmt)
    | IfElse(cond: Expr, arm0: Stmt, arm1: Stmt)
    | Statements(stmts: seq<Stmt>)
    | Def(function_: Name, uses: set<Name>, writes: bool)
    | Break
    | Continue
    | Pass

  datatype Flow = Normal | Broke | Continued

  /** A statement's own step below the top level, and at it; what a loop runs over, evaluated once; and
      the step that begins a round. */
  datatype Machine<!S, !I> = Machine(
    does: (Stmt, S, S) -> bool, doesTop: (Stmt, S, S) -> bool, runsOver: (Stmt, S, S, I) -> bool, begins: (Stmt, I, S, S) -> bool)

  ghost predicate Exec<S(!new), I(!new)>(k: Machine<S, I>, p: Stmt, top: bool, s: S, s': S, flow: Flow)
    decreases p, 1, 0
  {
    match p
    case For(_, _, _) => flow == Normal && exists m, it, n: nat :: k.runsOver(p, s, m, it) && Loops(k, p, n, it, m, s')
    case If(_, body) => exists m :: k.does(p, s, m) && ((flow == Normal && s' == m) || Exec(k, body, false, m, s', flow))
    case IfElse(_, arm0, arm1) => exists m :: k.does(p, s, m) && (Exec(k, arm0, false, m, s', flow) || Exec(k, arm1, false, m, s', flow))
    case Statements(_) => ExecUpTo(k, p, |p.stmts|, top, s, s', flow)
    case Break => flow == Broke && s' == s
    case Continue => flow == Continued && s' == s
    case _ => flow == Normal && if top then k.doesTop(p, s, s') else k.does(p, s, s')
  }

  /** Statements in order, up to the one that breaks out. */
  ghost predicate ExecUpTo<S(!new), I(!new)>(k: Machine<S, I>, p: Stmt, n: nat, top: bool, s: S, s': S, flow: Flow)
    requires p.Statements? && n <= |p.stmts|
    decreases p, 0, n
  {
    if n == 0 then flow == Normal && s' == s
    else
      (flow != Normal && ExecUpTo(k, p, n - 1, top, s, s', flow))
      || exists i: nat, m :: i + 1 == n && ExecUpTo(k, p, i, top, s, m, Normal) && Exec(k, p.stmts[i], top, m, s', flow)
  }

  /** Up to n rounds of a loop, the last possibly broken off. */
  ghost predicate Loops<S(!new), I(!new)>(k: Machine<S, I>, p: Stmt, n: nat, it: I, s: S, s': S)
    requires p.For?
    decreases p, 0, n
  {
    if n == 0 then s' == s
    else
      Round(k, p, it, s, s', Broke)
      || exists m, flow :: flow != Broke && Round(k, p, it, s, m, flow) && Loops(k, p, n - 1, it, m, s')
  }

  ghost predicate Round<S(!new), I(!new)>(k: Machine<S, I>, p: Stmt, it: I, s: S, s': S, flow: Flow)
    requires p.For?
    decreases p, 0, 0
  {
    exists bound :: k.begins(p, it, s, bound) && Exec(k, p.body, false, bound, s', flow)
  }

  // ---- what executions keep ----------------------------------------------------------------

  /** A property of states that every step of some statements keeps: over a world that only grows, which
      says in turn what may be run over. */
  datatype Invariant<!S, !I, !W> = Invariant(
    allows: Stmt -> bool, holds: (S, W) -> bool, grows: (W, W) -> bool, runs: (Stmt, I, W) -> bool)

  /** What allows a statement allows its parts. */
  ghost predicate Hereditary(allows: Stmt -> bool) {
    forall p :: allows(p) ==>
      match p
      case For(_, _, body) => allows(body)
      case If(_, body) => allows(body)
      case IfElse(_, arm0, arm1) => allows(arm0) && allows(arm1)
      case Statements(stmts) => forall i | 0 <= i < |stmts| :: allows(stmts[i])
      case _ => true
  }

  ghost predicate Ordered<W(!new)>(grows: (W, W) -> bool) {
    (forall w :: grows(w, w)) && forall a, b, c :: grows(a, b) && grows(b, c) ==> grows(a, c)
  }

  ghost predicate Leads<S, W(!new)>(holds: (S, W) -> bool, grows: (W, W) -> bool, w: W, s': S) {
    exists w' :: grows(w, w') && holds(s', w')
  }

  ghost predicate LeadsOver<S, I, W(!new)>(v: Invariant<S, I, W>, p: Stmt, it: I, w: W, m: S) {
    exists w' :: v.grows(w, w') && v.holds(m, w') && v.runs(p, it, w')
  }

  ghost predicate Inductive<S(!new), I(!new), W(!new)>(k: Machine<S, I>, v: Invariant<S, I, W>) {
    && Hereditary(v.allows) && Ordered(v.grows)
    && (forall p, s, s', w :: v.allows(p) && !p.For? && v.holds(s, w) && k.does(p, s, s') ==> Leads(v.holds, v.grows, w, s'))
    && (forall p, s, m, it, w :: v.allows(p) && p.For? && v.holds(s, w) && k.runsOver(p, s, m, it) ==> LeadsOver(v, p, it, w, m))
    && (forall p, it, s, s', w :: v.allows(p) && p.For? && v.holds(s, w) && v.runs(p, it, w) && k.begins(p, it, s, s') ==> Leads(v.holds, v.grows, w, s'))
    && (forall p, it, w, w' :: v.runs(p, it, w) && v.grows(w, w') ==> v.runs(p, it, w'))
  }

  /** Below the top level an inductive property is kept. */
  lemma {:induction false} NestedKeeps<S(!new), I(!new), W(!new)>(
    k: Machine<S, I>, v: Invariant<S, I, W>, p: Stmt, s: S, s': S, flow: Flow, w: W)
    returns (w': W)
    requires Inductive(k, v) && v.allows(p) && Exec(k, p, false, s, s', flow) && v.holds(s, w)
    ensures v.grows(w, w') && v.holds(s', w')
    decreases p, 1, 0
  {
    w' := w;
    match p
    case For(_, _, _) =>
      var m, it, n: nat :| k.runsOver(p, s, m, it) && Loops(k, p, n, it, m, s');
      assert LeadsOver(v, p, it, w, m);
      var mid :| v.grows(w, mid) && v.holds(m, mid) && v.runs(p, it, mid);
      w' := LoopsKeep(k, v, p, n, it, m, s', mid);
    case If(_, body) =>
      var m :| k.does(p, s, m) && ((flow == Normal && s' == m) || Exec(k, body, false, m, s', flow));
      assert Leads(v.holds, v.grows, w, m);
      w' :| v.grows(w, w') && v.holds(m, w');
      if s' != m || flow != Normal { w' := NestedKeeps(k, v, body, m, s', flow, w'); }
    case IfElse(_, arm0, arm1) =>
      var m :| k.does(p, s, m) && (Exec(k, arm0, false, m, s', flow) || Exec(k, arm1, false, m, s', flow));
      assert Leads(v.holds, v.grows, w, m);
      w' :| v.grows(w, w') && v.holds(m, w');
      if Exec(k, arm0, false, m, s', flow) {
        w' := NestedKeeps(k, v, arm0, m, s', flow, w');
      } else {
        w' := NestedKeeps(k, v, arm1, m, s', flow, w');
      }
    case Statements(_) => w' := UpToKeeps(k, v, p, |p.stmts|, s, s', flow, w);
    case Break =>
    case Continue =>
    case _ =>
      assert Leads(v.holds, v.grows, w, s');
      w' :| v.grows(w, w') && v.holds(s', w');
  }

  lemma {:induction false} UpToKeeps<S(!new), I(!new), W(!new)>(
    k: Machine<S, I>, v: Invariant<S, I, W>, p: Stmt, n: nat, s: S, s': S, flow: Flow, w: W)
    returns (w': W)
    requires Inductive(k, v) && v.allows(p) && v.holds(s, w)
    requires p.Statements? && n <= |p.stmts| && ExecUpTo(k, p, n, false, s, s', flow)
    ensures v.grows(w, w') && v.holds(s', w')
    decreases p, 0, n
  {
    w' := w;
    if n > 0 {
      if flow != Normal && ExecUpTo(k, p, n - 1, false, s, s', flow) {
        w' := UpToKeeps(k, v, p, n - 1, s, s', flow, w);
      } else {
        var i: nat, m :| i + 1 == n && ExecUpTo(k, p, i, false, s, m, Normal) && Exec(k, p.stmts[i], false, m, s', flow);
        w' := UpToKeeps(k, v, p, n - 1, s, m, Normal, w);
        w' := NestedKeeps(k, v, p.stmts[n - 1], m, s', flow, w');
      }
    }
  }

  lemma {:induction false} LoopsKeep<S(!new), I(!new), W(!new)>(
    k: Machine<S, I>, v: Invariant<S, I, W>, p: Stmt, n: nat, it: I, s: S, s': S, w: W)
    returns (w': W)
    requires Inductive(k, v) && v.allows(p) && p.For? && Loops(k, p, n, it, s, s') && v.holds(s, w) && v.runs(p, it, w)
    ensures v.grows(w, w') && v.holds(s', w')
    decreases p, 0, n
  {
    w' := w;
    if n > 0 {
      var m, flow := s', Broke;
      if !Round(k, p, it, s, s', Broke) {
        m, flow :| flow != Broke && Round(k, p, it, s, m, flow) && Loops(k, p, n - 1, it, m, s');
      }
      var bound :| k.begins(p, it, s, bound) && Exec(k, p.body, false, bound, m, flow);
      assert Leads(v.holds, v.grows, w, bound);
      w' :| v.grows(w, w') && v.holds(bound, w');
      w' := NestedKeeps(k, v, p.body, bound, m, flow, w');
      if flow != Broke { w' := LoopsKeep(k, v, p, n - 1, it, m, s', w'); }
    }
  }

  // ---- what the top level keeps ------------------------------------------------------------

  /** An analysis of the top-level statements in order. */
  function Fold<T>(p: Stmt, leaf: (Stmt, T) -> T, t: T): T
    decreases p, 1, 0
  {
    if p.Statements? then FoldUpTo(p, |p.stmts|, leaf, t) else leaf(p, t)
  }

  function FoldUpTo<T>(p: Stmt, n: nat, leaf: (Stmt, T) -> T, t: T): T
    requires p.Statements? && n <= |p.stmts|
    decreases p, 0, n
  {
    if n == 0 then t else Fold(p.stmts[n - 1], leaf, FoldUpTo(p, n - 1, leaf, t))
  }

  /** Every top-level statement takes states its analysis describes to states it describes. */
  ghost predicate Tracks<S(!new), I(!new), T(!new)>(k: Machine<S, I>, allows: Stmt -> bool, leaf: (Stmt, T) -> T, says: (S, T) -> bool) {
    && Hereditary(allows)
    && forall p, s, s', t :: allows(p) && !p.Statements? && Exec(k, p, true, s, s', Normal) && says(s, t) ==> says(s', leaf(p, t))
  }

  lemma {:induction false} TopTracks<S(!new), I(!new), T(!new)>(
    k: Machine<S, I>, allows: Stmt -> bool, leaf: (Stmt, T) -> T, says: (S, T) -> bool, p: Stmt, s: S, s': S, t: T)
    requires Tracks(k, allows, leaf, says) && allows(p) && Exec(k, p, true, s, s', Normal) && says(s, t)
    ensures says(s', Fold(p, leaf, t))
    decreases p, 1, 0
  {
    if p.Statements? { TopUpToTracks(k, allows, leaf, says, p, |p.stmts|, s, s', t); }
  }

  lemma {:induction false} TopUpToTracks<S(!new), I(!new), T(!new)>(
    k: Machine<S, I>, allows: Stmt -> bool, leaf: (Stmt, T) -> T, says: (S, T) -> bool, p: Stmt, n: nat, s: S, s': S, t: T)
    requires Tracks(k, allows, leaf, says) && allows(p) && says(s, t)
    requires p.Statements? && n <= |p.stmts| && ExecUpTo(k, p, n, true, s, s', Normal)
    ensures says(s', FoldUpTo(p, n, leaf, t))
    decreases p, 0, n
  {
    if n > 0 {
      var i: nat, m :| i + 1 == n && ExecUpTo(k, p, i, true, s, m, Normal) && Exec(k, p.stmts[i], true, m, s', Normal);
      TopUpToTracks(k, allows, leaf, says, p, n - 1, s, m, t);
      TopTracks(k, allows, leaf, says, p.stmts[n - 1], m, s', FoldUpTo(p, n - 1, leaf, t));
    }
  }

  /** One more statement of the list. */
  lemma OneMoreRuns<S(!new), I(!new)>(k: Machine<S, I>, p: Stmt, n: nat, s: S, m: S, s': S)
    requires p.Statements? && n < |p.stmts| && ExecUpTo(k, p, n, true, s, m, Normal) && Exec(k, p.stmts[n], true, m, s', Normal)
    ensures ExecUpTo(k, p, n + 1, true, s, s', Normal)
  {
  }

  lemma TwoRun<S(!new), I(!new)>(k: Machine<S, I>, p: Stmt, s: S, m: S, s': S)
    requires p.Statements? && |p.stmts| == 2 && Exec(k, p.stmts[0], true, s, m, Normal) && Exec(k, p.stmts[1], true, m, s', Normal)
    ensures Exec(k, p, true, s, s', Normal)
  {
    OneMoreRuns(k, p, 0, s, s, m);
    OneMoreRuns(k, p, 1, s, m, s');
  }

  lemma FourRun<S(!new), I(!new)>(k: Machine<S, I>, p: Stmt, s: S, s1: S, s2: S, s3: S, s': S)
    requires p.Statements? && |p.stmts| == 4
    requires Exec(k, p.stmts[0], true, s, s1, Normal) && Exec(k, p.stmts[1], true, s1, s2, Normal)
    requires Exec(k, p.stmts[2], true, s2, s3, Normal) && Exec(k, p.stmts[3], true, s3, s', Normal)
    ensures Exec(k, p, true, s, s', Normal)
  {
    OneMoreRuns(k, p, 0, s, s, s1);
    OneMoreRuns(k, p, 1, s, s1, s2);
    OneMoreRuns(k, p, 2, s, s2, s3);
    OneMoreRuns(k, p, 3, s, s3, s');
  }
}
