/** The guard-flow walk of the `permissionbypass` analyzer, and an execution model of the
    statements it walks.  Which posture writes an execution without a sandbox can perform is a
    structural computation, exact in both directions; the walk is sound for a body exactly when it
    reports them all, and it misses none but those in the positions and forms it does not look at. */
module PermissionBypass {
  import opened Options

  // ----- Syntax -----

  datatype Expr =
    | Ident(name: string)
    | Selector(x: Expr, sel: string)
    | Call(fun: Expr, args: seq<Expr>)
    | Not(x: Expr)
    | And(left: Expr, right: Expr)
    | Or(left: Expr, right: Expr)
    | Paren(x: Expr)
    | Index(x: Expr)
    | Star(x: Expr)
    | AddrOf(x: Expr)
    | Opaque

  /** One left-hand side of an assignment, with its source position. */
  datatype Lhs = Lhs(pos: nat, expr: Expr)

  datatype Report = Report(pos: nat, field: string)

  /** `literals` lists the posture fields among the keys of the composite literals that the
      statement evaluates. */
  datatype Stmt =
    | If(init: seq<Stmt>, cond: Expr, body: seq<Stmt>, els: Else)
    | Assign(lhs: seq<Lhs>, literals: seq<Report>)
    | Block(body: seq<Stmt>)
    | For(init: seq<Stmt>, test: Option<Expr>, post: seq<Stmt>, body: seq<Stmt>)
    | Range(targets: seq<Lhs>, body: seq<Stmt>)
    | Switch(init: seq<Stmt>, tagged: bool, clauses: seq<Clause>)
    | Return(literals: seq<Report>)
    | Break
    | Continue
    | Fallthrough
    | Effect(literals: seq<Report>)                    // a call, send, increment, ...
    | TypeSwitch(init: seq<Stmt>, clauses: seq<Clause>)
    | Select(clauses: seq<Clause>)                     // a communication is the first statement of its clause
    | Labeled(stmt: Stmt)

  /** A clause without guards is the default one, or a communication. */
  datatype Clause = Clause(guards: seq<Expr>, body: seq<Stmt>)

  datatype Else = NoElse | ElseBlock(stmts: seq<Stmt>) | ElseIf(chained: Stmt)

  // ----- The analyzer -----

  predicate IsSandboxAvailableCall(e: Expr) {
    && e.Call?
    && e.fun.Selector?
    && e.fun.sel == "Available"
    && e.fun.x == Ident("sandbox")
  }

  predicate IsPositiveAvailableCheck(e: Expr) {
    IsSandboxAvailableCall(e)
  }

  predicate IsNegatedAvailableCheck(e: Expr) {
    e.Not? && IsSandboxAvailableCall(e.x)
  }

  predicate ContainsReturn(body: seq<Stmt>) {
    exists s | s in body :: s.Return?
  }

  predicate IsSandboxWritePosture(e: Expr) {
    e.Selector? && (e.sel == "SandboxProjectWrite" || e.sel == "SandboxWritableDirs")
  }

  /** The posture writes among the left-hand sides, in order. */
  function PostureWrites(lhs: seq<Lhs>): seq<Report> {
    if lhs == [] then []
    else
      (if IsSandboxWritePosture(lhs[0].expr) then [Report(lhs[0].pos, lhs[0].expr.sel)] else [])
      + PostureWrites(lhs[1..])
  }

  /** What a walk adds to the reports, and the guard flag it hands on. */
  datatype Walk = Walk(reports: seq<Report>, guarded: bool)

  function WalkAll(stmts: seq<Stmt>, guarded: bool): Walk
    decreases stmts
  {
    if stmts == [] then Walk([], guarded)
    else
      var first := WalkOne(stmts[0], guarded);
      var rest := WalkAll(stmts[1..], first.guarded);
      Walk(first.reports + rest.reports, rest.guarded)
  }

  function WalkOne(s: Stmt, guarded: bool): Walk
    decreases s
  {
    match s
    case If(_, cond, body, els) =>
      if IsPositiveAvailableCheck(cond) then
        Walk(WalkAll(body, true).reports + WalkElseReports(els, guarded), guarded)
      else if IsNegatedAvailableCheck(cond) && ContainsReturn(body) then
        Walk(WalkAll(body, guarded).reports, true)
      else
        Walk(WalkAll(body, guarded).reports + WalkElseReports(els, guarded), guarded)
    case Assign(lhs, _) => Walk(if guarded then [] else PostureWrites(lhs), guarded)
    case Block(body) => Walk(WalkAll(body, guarded).reports, guarded)
    case For(_, _, _, body) => Walk(WalkAll(body, guarded).reports, guarded)
    case Range(_, body) => Walk(WalkAll(body, guarded).reports, guarded)
    case Switch(_, _, clauses) => Walk(WalkClauseReports(clauses, guarded), guarded)
    case _ => Walk([], guarded)
  }

  function WalkElseReports(els: Else, guarded: bool): seq<Report>
    decreases els
  {
    match els
    case NoElse => []
    case ElseBlock(stmts) => WalkAll(stmts, guarded).reports
    case ElseIf(chained) => if chained.If? then WalkOne(chained, guarded).reports else []
  }

  /** Every clause is walked under the flag the switch was reached with. */
  function WalkClauseReports(clauses: seq<Clause>, guarded: bool): seq<Report>
    decreases clauses
  {
    if clauses == [] then []
    else WalkAll(clauses[0].body, guarded).reports + WalkClauseReports(clauses[1..], guarded)
  }

  /** The analysis pass the walk reports into. */
  class Pass {
    var reports: seq<Report>

    constructor ()
      ensures reports == []
    {
      reports := [];
    }

    method Report(r: Report)
      modifies this
      ensures reports == old(reports) + [r]
    {
      reports := reports + [r];
    }
  }

  method CheckFuncBody(body: seq<Stmt>, pass: Pass)
    modifies pass
    ensures pass.reports == old(pass.reports) + WalkAll(body, false).reports
    ensures pass.reports == old(pass.reports) + PlainWrites(Uncovered(body))
  {
    ReportsAreExact(body);
    var _ := WalkStatements(body, pass, false);
  }

  /** The loop over a statement list; the flag it ends with is returned for the contract only. */
  method WalkStatements(stmts: seq<Stmt>, pass: Pass, initially: bool) returns (guarded: bool)
    modifies pass
    ensures Walk(pass.reports, guarded) ==
            Walk(old(pass.reports) + WalkAll(stmts, initially).reports, WalkAll(stmts, initially).guarded)
    decreases stmts
  {
    guarded := initially;
    for i := 0 to |stmts|
      invariant guarded == WalkAll(stmts[..i], initially).guarded
      invariant pass.reports == old(pass.reports) + WalkAll(stmts[..i], initially).reports
    {
      WalkAllAppend(stmts[..i], stmts[i], initially);
      assert stmts[..i + 1] == stmts[..i] + [stmts[i]];
      guarded := WalkStmt(stmts[i], pass, guarded);
    }
    assert stmts[..|stmts|] == stmts;
  }

  method WalkStmt(s: Stmt, pass: Pass, guarded: bool) returns (after: bool)
    modifies pass
    ensures after == WalkOne(s, guarded).guarded
    ensures pass.reports == old(pass.reports) + WalkOne(s, guarded).reports
    decreases s
  {
    hide WalkAll;
    after := guarded;
    match s {
      case If(_, cond, body, els) =>
        if IsPositiveAvailableCheck(cond) {
          var _ := WalkStatements(body, pass, true);
          WalkElse(els, pass, guarded);
        } else if IsNegatedAvailableCheck(cond) && ContainsReturn(body) {
          var _ := WalkStatements(body, pass, guarded);
          return true;
        } else {
          var _ := WalkStatements(body, pass, guarded);
          WalkElse(els, pass, guarded);
        }
      case Assign(lhs, _) =>
        if !guarded {
          for i := 0 to |lhs|
            invariant pass.reports == old(pass.reports) + PostureWrites(lhs[..i])
          {
            PostureWritesAppend(lhs[..i], lhs[i]);
            assert lhs[..i + 1] == lhs[..i] + [lhs[i]];
            if IsSandboxWritePosture(lhs[i].expr) {
              pass.Report(Report(lhs[i].pos, lhs[i].expr.sel));
            }
          }
          assert lhs[..|lhs|] == lhs;
        }
      case Block(body) => var _ := WalkStatements(body, pass, guarded);
      case For(_, _, _, body) => var _ := WalkStatements(body, pass, guarded);
      case Range(_, body) => var _ := WalkStatements(body, pass, guarded);
      case Switch(_, _, clauses) => WalkClauses(clauses, pass, guarded);
      case _ =>
    }
  }

  method WalkClauses(clauses: seq<Clause>, pass: Pass, guarded: bool)
    modifies pass
    ensures pass.reports == old(pass.reports) + WalkClauseReports(clauses, guarded)
    decreases clauses
  {
    for i := 0 to |clauses|
      invariant pass.reports == old(pass.reports) + WalkClauseReports(clauses[..i], guarded)
    {
      WalkClausesAppend(clauses[..i], clauses[i], guarded);
      assert clauses[..i + 1] == clauses[..i] + [clauses[i]];
      var _ := WalkStatements(clauses[i].body, pass, guarded);
    }
    assert clauses[..|clauses|] == clauses;
  }

  method WalkElse(els: Else, pass: Pass, guarded: bool)
    modifies pass
    ensures pass.reports == old(pass.reports) + WalkElseReports(els, guarded)
    decreases els
  {
    match els {
      case NoElse =>
      case ElseBlock(stmts) => var _ := WalkStatements(stmts, pass, guarded);
      case ElseIf(chained) =>
        if chained.If? {
          var _ := WalkStmt(chained, pass, guarded);
        }
    }
  }

  lemma {:induction false} WalkAllAppend(stmts: seq<Stmt>, s: Stmt, guarded: bool)
    ensures var before := WalkAll(stmts, guarded);
            var last := WalkOne(s, before.guarded);
            WalkAll(stmts + [s], guarded) == Walk(before.reports + last.reports, last.guarded)
  {
    if stmts == [] {
      assert WalkAll([s][1..], WalkOne(s, guarded).guarded).reports == [];
      assert stmts + [s] == [s];
    } else {
      assert (stmts + [s])[1..] == stmts[1..] + [s];
      WalkAllAppend(stmts[1..], s, WalkOne(stmts[0], guarded).guarded);
    }
  }

  lemma {:induction false} WalkClausesAppend(clauses: seq<Clause>, c: Clause, guarded: bool)
    ensures WalkClauseReports(clauses + [c], guarded)
            == WalkClauseReports(clauses, guarded) + WalkAll(c.body, guarded).reports
  {
    if clauses == [] {
      assert clauses + [c] == [c];
      assert WalkClauseReports([c][1..], guarded) == [];
    } else {
      assert (clauses + [c])[1..] == clauses[1..] + [c];
      WalkClausesAppend(clauses[1..], c, guarded);
    }
  }

  lemma {:induction false} PostureWritesAppend(lhs: seq<Lhs>, l: Lhs)
    ensures PostureWrites(lhs + [l]) == PostureWrites(lhs) + PostureWrites([l])
  {
    if lhs == [] {
      assert lhs + [l] == [l];
    } else {
      assert (lhs + [l])[1..] == lhs[1..] + [l];
      PostureWritesAppend(lhs[1..], l);
    }
  }

  // ----- Execution -----

  /** The field that an assignment to a target writes: parentheses make no difference, an element
      belongs to its field, and dereferencing an address gives back what it is the address of. */
  function WrittenField(target: Expr): Option<string> {
    match target
    case Selector(_, sel) => Some(sel)
    case Paren(x) => WrittenField(x)
    case Index(x) => WrittenField(x)
    case Star(x) => if Unparen(x).AddrOf? then WrittenField(Unparen(x).x) else None
    case _ => None
  }

  function Unparen(e: Expr): (r: Expr)
    ensures r == e || r < e
  {
    if e.Paren? then Unparen(e.x) else e
  }

  predicate IsPosture(field: string) {
    field == "SandboxProjectWrite" || field == "SandboxWritableDirs"
  }

  function TargetWrite(l: Lhs): seq<Report> {
    var field := WrittenField(l.expr);
    if field.Some? && IsPosture(field.value) then [Report(l.pos, field.value)] else []
  }

  /** The posture writes that an assignment to the targets performs, in order. */
  function TargetWrites(lhs: seq<Lhs>): seq<Report> {
    if lhs == [] then [] else TargetWrite(lhs[0]) + TargetWrites(lhs[1..])
  }

  /** A panic, a statement that blocks, and the end of observation all stop an execution. */
  datatype Outcome = Normal | Broke | Continued | Returned | FellThrough | Stopped

  /** How far an execution got, and the posture writes it performed in order. */
  datatype Run = Run(outcome: Outcome, writes: seq<Report>)

  const DONE := Run(Normal, [])
  const STOPPED := Run(Stopped, [])

  /** A call of `sandbox.Available`, however many parentheses there are around its parts. */
  predicate AsksSandbox(e: Expr) {
    && e.Call?
    && var fun := Unparen(e.fun);
       fun.Selector? && fun.sel == "Available" && Unparen(fun.x) == Ident("sandbox")
  }

  /** The values a condition may have when `sandbox.Available()` is `available`. */
  function Values(e: Expr, available: bool): set<bool> {
    if AsksSandbox(e) then {available}
    else
      match e
      case Not(x) => set v | v in Values(x, available) :: !v
      case And(l, r) =>
        (if false in Values(l, available) then {false} else {}) + (if true in Values(l, available) then Values(r, available) else {})
      case Or(l, r) =>
        (if true in Values(l, available) then {true} else {}) + (if false in Values(l, available) then Values(r, available) else {})
      case Paren(x) => Values(x, available)
      case _ => {false, true}
  }

  predicate MayBe(v: bool, e: Expr, available: bool) {
    v in Values(e, available)
  }

  /** A loop without a test goes on until something leaves it. */
  predicate TestMayBe(v: bool, test: Option<Expr>, available: bool) {
    match test
    case None => v
    case Some(e) => MayBe(v, e, available)
  }

  /** A guard of a tagged switch is compared with the tag, which may come out either way. */
  predicate GuardMayBe(v: bool, guard: Expr, tagged: bool, available: bool) {
    tagged || MayBe(v, guard, available)
  }

  /** No guard before clause `i` need hold. */
  predicate MaySkipTo(clauses: seq<Clause>, i: nat, tagged: bool, available: bool)
    requires i <= |clauses|
  {
    forall j, g | 0 <= j < i && g in clauses[j].guards :: GuardMayBe(false, g, tagged, available)
  }

  /** A clause is chosen for the first guard that holds, and the default one if none does. */
  predicate MayPick(clauses: seq<Clause>, i: nat, tagged: bool, available: bool)
    requires i < |clauses|
  {
    if clauses[i].guards == [] then MaySkipTo(clauses, |clauses|, tagged, available)
    else
      && MaySkipTo(clauses, i, tagged, available)
      && exists g | g in clauses[i].guards :: GuardMayBe(true, g, tagged, available)
  }

  predicate MayPickNone(clauses: seq<Clause>, tagged: bool, available: bool) {
    (forall c | c in clauses :: c.guards != []) && MaySkipTo(clauses, |clauses|, tagged, available)
  }

  function Picks(clauses: seq<Clause>, tagged: bool, available: bool): (r: set<nat>)
    ensures forall i | i in r :: i < |clauses|
  {
    set i: nat | i < |clauses| && MayPick(clauses, i, tagged, available)
  }

  function Below(n: nat): (r: set<nat>)
    ensures forall i: nat :: i in r <==> i < n
  {
    if n == 0 then {} else Below(n - 1) + {n - 1}
  }

  /** The second run happens only when the first one completes. */
  function Chain(first: Run, second: Run): Run {
    if first.outcome.Normal? then second.(writes := first.writes + second.writes) else first
  }

  function LeaveBreakable(r: Run): Run {
    if r.outcome.Broke? then r.(outcome := Normal) else r
  }

  /** `r` is an execution of the statements; every loop takes at most `fuel` rounds, conditions take
      any value they may have, and an execution may stop at any statement. */
  ghost predicate CanRunAll(stmts: seq<Stmt>, available: bool, fuel: nat, r: Run)
    decreases fuel, stmts, 1
  {
    || r == STOPPED
    || (stmts == [] && r == DONE)
    || (stmts != [] && exists first, rest ::
          && CanRunOne(stmts[0], available, fuel, first)
          && CanRunAll(stmts[1..], available, fuel, rest)
          && r == Chain(first, rest))
  }

  ghost predicate CanRunOne(s: Stmt, available: bool, fuel: nat, r: Run)
    decreases fuel, s, 2
  {
    match s
    case If(init, cond, body, els) =>
      exists start, rest ::
        CanRunAll(init, available, fuel, start) && CanBranch(s, available, fuel, rest) && r == Chain(start, rest)
    case Assign(lhs, literals) => r == STOPPED || r == Run(Stopped, literals) || r == Run(Normal, literals + TargetWrites(lhs))
    case Block(body) => CanRunAll(body, available, fuel, r)
    case For(init, _, _, _) =>
      exists start, rest ::
        CanRunAll(init, available, fuel, start) && CanLoop(s, available, fuel, rest) && r == Chain(start, rest)
    case Range(_, _) => CanLoop(s, available, fuel, r)
    case Switch(init, tagged, clauses) =>
      exists start, rest ::
        && CanRunAll(init, available, fuel, start)
        && CanChoose(clauses, Picks(clauses, tagged, available), MayPickNone(clauses, tagged, available), available, fuel, rest)
        && r == Chain(start, LeaveBreakable(rest))
    case Return(literals) => r == STOPPED || r == Run(Returned, literals)
    case Break => r == Run(Broke, [])
    case Continue => r == Run(Continued, [])
    case Fallthrough => r == Run(FellThrough, [])
    case Effect(literals) => r == STOPPED || r == Run(Stopped, literals) || r == Run(Normal, literals)
    case TypeSwitch(init, clauses) =>
      exists start, rest ::
        && CanRunAll(init, available, fuel, start)
        && CanChoose(clauses, Picks(clauses, true, available), MayPickNone(clauses, true, available), available, fuel, rest)
        && r == Chain(start, LeaveBreakable(rest))
    case Select(clauses) =>
      exists rest :: CanChoose(clauses, Below(|clauses|), false, available, fuel, rest) && r == LeaveBreakable(rest)
    case Labeled(stmt) => CanRunOne(stmt, available, fuel, r)
  }

  /** The part of an if statement behind its init statement. */
  ghost predicate CanBranch(s: Stmt, available: bool, fuel: nat, r: Run)
    requires s.If?
    decreases fuel, s, 1
  {
    || r == STOPPED
    || (MayBe(true, s.cond, available) && CanRunAll(s.body, available, fuel, r))
    || (MayBe(false, s.cond, available) && CanRunElse(s.els, available, fuel, r))
  }

  ghost predicate CanRunElse(els: Else, available: bool, fuel: nat, r: Run)
    decreases fuel, els, 1
  {
    match els
    case NoElse => r == DONE
    case ElseBlock(stmts) => CanRunAll(stmts, available, fuel, r)
    case ElseIf(chained) => CanRunOne(chained, available, fuel, r)
  }

  /** One of the clauses that may be picked, or none of them. */
  ghost predicate CanChoose(clauses: seq<Clause>, picks: set<nat>, none: bool, available: bool, fuel: nat, r: Run)
    decreases fuel, clauses, 1, 0
  {
    || r == STOPPED
    || (none && r == DONE)
    || exists i: nat :: i in picks && CanRunClauses(clauses, i, available, fuel, r)
  }

  /** Runs clause `i` and, while clauses fall through, the ones after it. */
  ghost predicate CanRunClauses(clauses: seq<Clause>, i: nat, available: bool, fuel: nat, r: Run)
    decreases fuel, clauses, 0, if i < |clauses| then |clauses| - i else 0
  {
    if i >= |clauses| then r == DONE
    else
      exists body, more ::
        && CanRunAll(clauses[i].body, available, fuel, body)
        && CanRunClauses(clauses, i + 1, available, fuel, more)
        && r == Fall(body, more)
  }

  function Fall(body: Run, more: Run): Run {
    if body.outcome.FellThrough? then more.(writes := body.writes + more.writes) else body
  }

  /** What a loop writes before each round's body, and whether it may start a round or end. */
  function RoundWrites(loop: Stmt): seq<Report>
    requires loop.For? || loop.Range?
  {
    if loop.For? then [] else TargetWrites(loop.targets)
  }

  predicate MayStartRound(v: bool, loop: Stmt, available: bool)
    requires loop.For? || loop.Range?
  {
    loop.For? ==> TestMayBe(v, loop.test, available)
  }

  function PostOf(loop: Stmt): seq<Stmt>
    requires loop.For? || loop.Range?
  {
    if loop.For? then loop.post else []
  }

  /** The rounds of a loop: the range targets, the body, the post statement, and again. */
  ghost predicate CanLoop(loop: Stmt, available: bool, fuel: nat, r: Run)
    requires loop.For? || loop.Range?
    decreases fuel, loop, 1
  {
    || r == STOPPED
    || (MayStartRound(false, loop, available) && r == DONE)
    || (MayStartRound(true, loop, available) && fuel > 0 && exists body, step, again ::
          && CanRunAll(loop.body, available, fuel - 1, body)
          && CanRunAll(PostOf(loop), available, fuel - 1, step)
          && CanLoop(loop, available, fuel - 1, again)
          && r == Round(RoundWrites(loop), body, step, again))
  }

  function Round(targets: seq<Report>, body: Run, step: Run, again: Run): Run {
    Chain(Run(Normal, targets),
          if body.outcome.Broke? then body.(outcome := Normal)
          else if body.outcome.Continued? then Chain(body.(outcome := Normal), Chain(step, again))
          else Chain(body, Chain(step, again)))
  }

  // ----- What an execution may write, structurally -----

  /** The posture writes that executions may perform, and the ways in which they may end. */
  datatype May = May(writes: set<Report>, ends: set<Outcome>)

  function AsSet(rs: seq<Report>): set<Report> {
    set r | r in rs
  }

  /** One after the other. */
  function Next(first: May, second: May): May {
    if Normal in first.ends then May(first.writes + second.writes, (first.ends - {Normal}) + second.ends) else first
  }

  function Either(a: May, b: May): May {
    May(a.writes + b.writes, a.ends + b.ends)
  }

  function Only(condition: bool, m: May): May {
    if condition then m else May({}, {Stopped})
  }

  function Leaving(m: May): May {
    if Broke in m.ends then May(m.writes, (m.ends - {Broke}) + {Normal}) else m
  }

  function MayAll(stmts: seq<Stmt>, available: bool): (m: May)
    ensures Stopped in m.ends
    decreases stmts, 1
  {
    if stmts == [] then May({}, {Normal, Stopped})
    else Either(May({}, {Stopped}), Next(MayOne(stmts[0], available), MayAll(stmts[1..], available)))
  }

  function MayOne(s: Stmt, available: bool): May
    decreases s, 1
  {
    match s
    case If(init, cond, body, els) =>
      Next(MayAll(init, available),
           Either(Only(MayBe(true, cond, available), MayAll(body, available)),
                  Only(MayBe(false, cond, available), MayElse(els, available))))
    case Assign(lhs, literals) => May(AsSet(literals) + AsSet(TargetWrites(lhs)), {Normal, Stopped})
    case Block(body) => MayAll(body, available)
    case For(init, _, post, body) =>
      Next(MayAll(init, available), MayLoop(s, MayAll(body, available), MayAll(post, available), available))
    case Range(_, body) => MayLoop(s, MayAll(body, available), May({}, {Normal, Stopped}), available)
    case Switch(init, tagged, clauses) =>
      Next(MayAll(init, available),
           Leaving(MayChoose(clauses, Picks(clauses, tagged, available), MayPickNone(clauses, tagged, available), available)))
    case Return(literals) => May(AsSet(literals), {Returned, Stopped})
    case Break => May({}, {Broke})
    case Continue => May({}, {Continued})
    case Fallthrough => May({}, {FellThrough})
    case Effect(literals) => May(AsSet(literals), {Normal, Stopped})
    case TypeSwitch(init, clauses) =>
      Next(MayAll(init, available),
           Leaving(MayChoose(clauses, Picks(clauses, true, available), MayPickNone(clauses, true, available), available)))
    case Select(clauses) => Leaving(MayChoose(clauses, Below(|clauses|), false, available))
    case Labeled(stmt) => MayOne(stmt, available)
  }

  function MayElse(els: Else, available: bool): May
    decreases els, 1
  {
    match els
    case NoElse => May({}, {Normal})
    case ElseBlock(stmts) => MayAll(stmts, available)
    case ElseIf(chained) => MayOne(chained, available)
  }

  function MayChoose(clauses: seq<Clause>, picks: set<nat>, none: bool, available: bool): May
    decreases clauses, 1, 0
  {
    Either(if none then May({}, {Normal, Stopped}) else May({}, {Stopped}), MayPicked(clauses, 0, picks, available))
  }

  /** Any of the picked clauses from `i` on. */
  function MayPicked(clauses: seq<Clause>, i: nat, picks: set<nat>, available: bool): May
    decreases clauses, 0, if i < |clauses| then |clauses| - i else 0, 1
  {
    if i >= |clauses| then May({}, {Stopped})
    else
      Either(if i in picks then MayClauses(clauses, i, available) else May({}, {Stopped}),
             MayPicked(clauses, i + 1, picks, available))
  }

  function MayClauses(clauses: seq<Clause>, i: nat, available: bool): May
    decreases clauses, 0, if i < |clauses| then |clauses| - i else 0, 0
  {
    if i >= |clauses| then May({}, {Normal})
    else
      var body := MayAll(clauses[i].body, available);
      if FellThrough !in body.ends then body
      else
        var more := MayClauses(clauses, i + 1, available);
        May(body.writes + more.writes, (body.ends - {FellThrough}) + more.ends)
  }

  /** One round shows everything that any number of rounds can do. */
  function MayLoop(loop: Stmt, body: May, post: May, available: bool): May
    requires loop.For? || loop.Range?
  {
    var goesOn := Normal in body.ends || Continued in body.ends;
    var out := May({}, if MayStartRound(false, loop, available) then {Normal, Stopped} else {Stopped});
    if !MayStartRound(true, loop, available) then out
    else
      May(AsSet(RoundWrites(loop)) + body.writes + (if goesOn then post.writes else {}),
          out.ends + (if Broke in body.ends then {Normal} else {}) + (body.ends - {Normal, Broke, Continued})
          + (if goesOn then post.ends - {Normal} else {}))
  }

  // ----- Executions stay within what they may do -----

  ghost predicate Fits(r: Run, m: May) {
    r.outcome in m.ends && Within(r.writes, m.writes)
  }

  predicate Within(writes: seq<Report>, allowed: set<Report>) {
    forall w | w in writes :: w in allowed
  }

  lemma ChainFits(first: Run, second: Run, m: May, n: May)
    requires Fits(first, m) && (first.outcome.Normal? ==> Fits(second, n))
    ensures Fits(Chain(first, second), Next(m, n))
  {
  }

  lemma {:induction false} AllWithin(stmts: seq<Stmt>, available: bool, fuel: nat, r: Run)
    requires CanRunAll(stmts, available, fuel, r)
    ensures Fits(r, MayAll(stmts, available))
    decreases fuel, stmts, 1
  {
    if r != STOPPED && stmts != [] {
      var first, rest :| CanRunOne(stmts[0], available, fuel, first) && CanRunAll(stmts[1..], available, fuel, rest)
        && r == Chain(first, rest);
      hide CanRunAll, CanRunOne;
      OneWithin(stmts[0], available, fuel, first);
      AllWithin(stmts[1..], available, fuel, rest);
      hide MayOne;
      ChainFits(first, rest, MayOne(stmts[0], available), MayAll(stmts[1..], available));
    }
  }

  lemma {:induction false} OneWithin(s: Stmt, available: bool, fuel: nat, r: Run)
    requires CanRunOne(s, available, fuel, r)
    ensures Fits(r, MayOne(s, available))
    decreases fuel, s, 2
  {
    assert MayAll([], available) == May({}, {Normal, Stopped});
    hide CanRunAll, CanLoop, CanBranch, CanChoose, MayAll, MayLoop, MayChoose, MayElse, Picks, MayPickNone, TargetWrites;
    match s
    case If(init, cond, body, els) =>
      var start, rest :| CanRunAll(init, available, fuel, start) && CanBranch(s, available, fuel, rest) && r == Chain(start, rest);
      AllWithin(init, available, fuel, start);
      BranchWithin(s, available, fuel, rest);
      ChainFits(start, rest, MayAll(init, available), MayBranch(s, available));
    case Block(body) => AllWithin(body, available, fuel, r);
    case For(init, _, post, body) =>
      var start, rest :| CanRunAll(init, available, fuel, start) && CanLoop(s, available, fuel, rest) && r == Chain(start, rest);
      AllWithin(init, available, fuel, start);
      LoopWithin(s, available, fuel, rest);
      ChainFits(start, rest, MayAll(init, available), LoopMay(s, available));
    case Range(_, _) => LoopWithin(s, available, fuel, r);
    case Switch(_, tagged, _) => SwitchWithin(s, tagged, available, fuel, r);
    case TypeSwitch(_, _) => SwitchWithin(s, true, available, fuel, r);
    case Select(clauses) =>
      var rest :| CanChoose(clauses, Below(|clauses|), false, available, fuel, rest) && r == LeaveBreakable(rest);
      ChooseWithin(clauses, Below(|clauses|), false, available, fuel, rest);
    case Labeled(stmt) => OneWithin(stmt, available, fuel, r);
    case _ =>
  }

  lemma {:induction false} SwitchWithin(s: Stmt, tagged: bool, available: bool, fuel: nat, r: Run)
    requires (s.TypeSwitch? || s.Switch?) && tagged == (s.TypeSwitch? || s.tagged) && CanRunOne(s, available, fuel, r)
    ensures Fits(r, MayOne(s, available))
    decreases fuel, s, 1
  {
    hide CanRunAll, CanChoose, MayAll, MayChoose, Picks, MayPickNone;
    var picks, none := Picks(s.clauses, tagged, available), MayPickNone(s.clauses, tagged, available);
    var start, rest :| CanRunAll(s.init, available, fuel, start) && CanChoose(s.clauses, picks, none, available, fuel, rest)
      && r == Chain(start, LeaveBreakable(rest));
    AllWithin(s.init, available, fuel, start);
    ChooseWithin(s.clauses, picks, none, available, fuel, rest);
    ChainFits(start, LeaveBreakable(rest), MayAll(s.init, available), Leaving(MayChoose(s.clauses, picks, none, available)));
  }

  function MayBranch(s: Stmt, available: bool): May
    requires s.If?
  {
    Either(Only(MayBe(true, s.cond, available), MayAll(s.body, available)),
           Only(MayBe(false, s.cond, available), MayElse(s.els, available)))
  }

  function LoopMay(loop: Stmt, available: bool): May
    requires loop.For? || loop.Range?
  {
    MayLoop(loop, MayAll(loop.body, available), MayAll(PostOf(loop), available), available)
  }

  lemma {:induction false} BranchWithin(s: Stmt, available: bool, fuel: nat, r: Run)
    requires s.If? && CanBranch(s, available, fuel, r)
    ensures Fits(r, MayBranch(s, available))
    decreases fuel, s, 1
  {
    hide CanRunAll, CanRunElse, MayBe;
    if CanRunAll(s.body, available, fuel, r) {
      AllWithin(s.body, available, fuel, r);
    }
    if CanRunElse(s.els, available, fuel, r) {
      ElseWithin(s.els, available, fuel, r);
    }
  }

  lemma {:induction false} ElseWithin(els: Else, available: bool, fuel: nat, r: Run)
    requires CanRunElse(els, available, fuel, r)
    ensures Fits(r, MayElse(els, available))
    decreases fuel, els, 1
  {
    match els
    case NoElse =>
    case ElseBlock(stmts) => AllWithin(stmts, available, fuel, r);
    case ElseIf(chained) => OneWithin(chained, available, fuel, r);
  }

  lemma {:induction false} ChooseWithin(clauses: seq<Clause>, picks: set<nat>, none: bool, available: bool, fuel: nat, r: Run)
    requires CanChoose(clauses, picks, none, available, fuel, r) && forall i | i in picks :: i < |clauses|
    ensures Fits(r, MayChoose(clauses, picks, none, available))
    decreases fuel, clauses, 1, 0
  {
    hide CanRunClauses, MayPicked;
    if r != STOPPED && !(none && r == DONE) {
      var i: nat :| i in picks && CanRunClauses(clauses, i, available, fuel, r);
      ClausesWithin(clauses, i, available, fuel, r);
      PickedWithin(clauses, 0, i, picks, available, r);
    }
  }

  lemma {:induction false} ClausesWithin(clauses: seq<Clause>, i: nat, available: bool, fuel: nat, r: Run)
    requires CanRunClauses(clauses, i, available, fuel, r)
    ensures Fits(r, MayClauses(clauses, i, available))
    decreases fuel, clauses, 0, if i < |clauses| then |clauses| - i else 0
  {
    if i < |clauses| {
      var body, more :| CanRunAll(clauses[i].body, available, fuel, body)
        && CanRunClauses(clauses, i + 1, available, fuel, more) && r == Fall(body, more);
      hide CanRunAll, CanRunClauses, MayAll;
      AllWithin(clauses[i].body, available, fuel, body);
      ClausesWithin(clauses, i + 1, available, fuel, more);
    }
  }

  /** A run of a picked clause; one that starts beyond the last clause does nothing. */
  lemma {:induction false} PickedWithin(clauses: seq<Clause>, i: nat, j: nat, picks: set<nat>, available: bool, r: Run)
    requires i <= j < |clauses| && j in picks && Fits(r, MayClauses(clauses, j, available))
    ensures Fits(r, MayPicked(clauses, i, picks, available))
    decreases j - i
  {
    hide MayClauses;
    if i < j {
      PickedWithin(clauses, i + 1, j, picks, available, r);
    }
  }

  lemma {:induction false} LoopWithin(loop: Stmt, available: bool, fuel: nat, r: Run)
    requires (loop.For? || loop.Range?) && CanLoop(loop, available, fuel, r)
    ensures Fits(r, LoopMay(loop, available))
    decreases fuel, loop, 1
  {
    hide CanRunAll, MayAll, RoundWrites, Round, LoopMay, MayStartRound, Fits;
    LoopMayEnd(loop, available);
    if r != STOPPED && !(MayStartRound(false, loop, available) && r == DONE) {
      var body, step, again :| CanRunAll(loop.body, available, fuel - 1, body)
        && CanRunAll(PostOf(loop), available, fuel - 1, step)
        && CanLoop(loop, available, fuel - 1, again)
        && r == Round(RoundWrites(loop), body, step, again);
      hide CanLoop;
      AllWithin(loop.body, available, fuel - 1, body);
      AllWithin(PostOf(loop), available, fuel - 1, step);
      LoopWithin(loop, available, fuel - 1, again);
      LoopMayIs(loop, available);
      RoundWithin(loop, MayAll(loop.body, available), MayAll(PostOf(loop), available), available, body, step, again);
    }
  }

  lemma LoopMayIs(loop: Stmt, available: bool)
    requires loop.For? || loop.Range?
    ensures LoopMay(loop, available)
         == MayLoop(loop, MayAll(loop.body, available), MayAll(PostOf(loop), available), available)
  {
  }

  lemma LoopMayEnd(loop: Stmt, available: bool)
    requires loop.For? || loop.Range?
    ensures Fits(STOPPED, LoopMay(loop, available))
    ensures MayStartRound(false, loop, available) ==> Fits(DONE, LoopMay(loop, available))
  {
    hide MayAll, MayStartRound;
  }

  lemma RoundWithin(loop: Stmt, b: May, p: May, available: bool, body: Run, step: Run, again: Run)
    requires (loop.For? || loop.Range?) && MayStartRound(true, loop, available)
    requires Fits(body, b) && Fits(step, p) && Fits(again, MayLoop(loop, b, p, available))
    ensures Fits(Round(RoundWrites(loop), body, step, again), MayLoop(loop, b, p, available))
  {
    hide RoundWrites, MayStartRound;
    var m := MayLoop(loop, b, p, available);
    assert Within(RoundWrites(loop), m.writes);
    if body.outcome.Normal? || body.outcome.Continued? {
      assert p.writes <= m.writes && p.ends - {Normal} <= m.ends;
      hide MayLoop;
      assert Fits(Chain(step, again), m);
    }
  }

  // ----- More fuel does no harm -----

  lemma {:induction false} AllFueled(stmts: seq<Stmt>, available: bool, fuel: nat, more: nat, r: Run)
    requires CanRunAll(stmts, available, fuel, r) && fuel <= more
    ensures CanRunAll(stmts, available, more, r)
    decreases fuel, stmts, 1
  {
    if r != STOPPED && stmts != [] {
      var first, rest :| CanRunOne(stmts[0], available, fuel, first) && CanRunAll(stmts[1..], available, fuel, rest)
        && r == Chain(first, rest);
      hide CanRunOne;
      OneFueled(stmts[0], available, fuel, more, first);
      AllFueled(stmts[1..], available, fuel, more, rest);
    }
  }

  lemma {:induction false} OneFueled(s: Stmt, available: bool, fuel: nat, more: nat, r: Run)
    requires CanRunOne(s, available, fuel, r) && fuel <= more
    ensures CanRunOne(s, available, more, r)
    decreases fuel, s, 2
  {
    hide CanRunAll, CanLoop, CanBranch, CanChoose, Picks, MayPickNone, TargetWrites;
    match s
    case If(init, cond, body, els) =>
      var start, rest :| CanRunAll(init, available, fuel, start) && CanBranch(s, available, fuel, rest) && r == Chain(start, rest);
      AllFueled(init, available, fuel, more, start);
      BranchFueled(s, available, fuel, more, rest);
    case Block(body) => AllFueled(body, available, fuel, more, r);
    case For(init, _, post, body) =>
      var start, rest :| CanRunAll(init, available, fuel, start) && CanLoop(s, available, fuel, rest) && r == Chain(start, rest);
      AllFueled(init, available, fuel, more, start);
      LoopFueled(s, available, fuel, more, rest);
    case Range(_, _) => LoopFueled(s, available, fuel, more, r);
    case Switch(init, tagged, clauses) =>
      var picks, none := Picks(clauses, tagged, available), MayPickNone(clauses, tagged, available);
      var start, rest :| CanRunAll(init, available, fuel, start) && CanChoose(clauses, picks, none, available, fuel, rest)
        && r == Chain(start, LeaveBreakable(rest));
      AllFueled(init, available, fuel, more, start);
      ChooseFueled(clauses, picks, none, available, fuel, more, rest);
    case TypeSwitch(init, clauses) =>
      var picks, none := Picks(clauses, true, available), MayPickNone(clauses, true, available);
      var start, rest :| CanRunAll(init, available, fuel, start) && CanChoose(clauses, picks, none, available, fuel, rest)
        && r == Chain(start, LeaveBreakable(rest));
      AllFueled(init, available, fuel, more, start);
      ChooseFueled(clauses, picks, none, available, fuel, more, rest);
    case Select(clauses) =>
      var rest :| CanChoose(clauses, Below(|clauses|), false, available, fuel, rest) && r == LeaveBreakable(rest);
      ChooseFueled(clauses, Below(|clauses|), false, available, fuel, more, rest);
    case Labeled(stmt) => OneFueled(stmt, available, fuel, more, r);
    case _ =>
  }

  lemma {:induction false} BranchFueled(s: Stmt, available: bool, fuel: nat, more: nat, r: Run)
    requires s.If? && CanBranch(s, available, fuel, r) && fuel <= more
    ensures CanBranch(s, available, more, r)
    decreases fuel, s, 1
  {
    hide CanRunAll, CanRunElse, MayBe;
    if CanRunAll(s.body, available, fuel, r) {
      AllFueled(s.body, available, fuel, more, r);
    }
    if CanRunElse(s.els, available, fuel, r) {
      ElseFueled(s.els, available, fuel, more, r);
    }
  }

  lemma {:induction false} ElseFueled(els: Else, available: bool, fuel: nat, more: nat, r: Run)
    requires CanRunElse(els, available, fuel, r) && fuel <= more
    ensures CanRunElse(els, available, more, r)
    decreases fuel, els, 1
  {
    match els
    case NoElse =>
    case ElseBlock(stmts) => AllFueled(stmts, available, fuel, more, r);
    case ElseIf(chained) => OneFueled(chained, available, fuel, more, r);
  }

  lemma {:induction false} ChooseFueled(clauses: seq<Clause>, picks: set<nat>, none: bool, available: bool, fuel: nat,
      more: nat, r: Run)
    requires CanChoose(clauses, picks, none, available, fuel, r) && fuel <= more
    ensures CanChoose(clauses, picks, none, available, more, r)
    decreases fuel, clauses, 1, 0
  {
    hide CanRunClauses;
    if r != STOPPED && !(none && r == DONE) {
      var i: nat :| i in picks && CanRunClauses(clauses, i, available, fuel, r);
      ClausesFueled(clauses, i, available, fuel, more, r);
    }
  }

  lemma {:induction false} ClausesFueled(clauses: seq<Clause>, i: nat, available: bool, fuel: nat, more: nat, r: Run)
    requires CanRunClauses(clauses, i, available, fuel, r) && fuel <= more
    ensures CanRunClauses(clauses, i, available, more, r)
    decreases fuel, clauses, 0, if i < |clauses| then |clauses| - i else 0
  {
    if i < |clauses| {
      var body, tail :| CanRunAll(clauses[i].body, available, fuel, body)
        && CanRunClauses(clauses, i + 1, available, fuel, tail) && r == Fall(body, tail);
      hide CanRunAll;
      AllFueled(clauses[i].body, available, fuel, more, body);
      ClausesFueled(clauses, i + 1, available, fuel, more, tail);
    }
  }

  lemma {:induction false} LoopFueled(loop: Stmt, available: bool, fuel: nat, more: nat, r: Run)
    requires (loop.For? || loop.Range?) && CanLoop(loop, available, fuel, r) && fuel <= more
    ensures CanLoop(loop, available, more, r)
    decreases fuel, loop, 1
  {
    hide CanRunAll, RoundWrites, MayStartRound;
    if r != STOPPED && !(MayStartRound(false, loop, available) && r == DONE) {
      var body, step, again :| CanRunAll(loop.body, available, fuel - 1, body)
        && CanRunAll(PostOf(loop), available, fuel - 1, step)
        && CanLoop(loop, available, fuel - 1, again)
        && r == Round(RoundWrites(loop), body, step, again);
      AllFueled(loop.body, available, fuel - 1, more - 1, body);
      AllFueled(PostOf(loop), available, fuel - 1, more - 1, step);
      LoopFueled(loop, available, fuel - 1, more - 1, again);
    }
  }

  // ----- Everything that executions may do, some execution does -----

  datatype Goal = End(outcome: Outcome) | Write(w: Report)

  predicate Meets(r: Run, g: Goal) {
    match g
    case End(outcome) => r.outcome == outcome
    case Write(w) => w in r.writes
  }

  predicate Possible(m: May, g: Goal) {
    match g
    case End(outcome) => outcome in m.ends
    case Write(w) => w in m.writes
  }

  function Max(a: nat, b: nat): nat {
    if a < b then b else a
  }

  lemma {:induction false} ReachAll(stmts: seq<Stmt>, available: bool, g: Goal) returns (fuel: nat, r: Run)
    requires Possible(MayAll(stmts, available), g)
    ensures CanRunAll(stmts, available, fuel, r) && Meets(r, g)
    decreases stmts, 1
  {
    fuel, r := 0, STOPPED;
    if g == End(Stopped) {
    } else if stmts == [] {
      r := DONE;
    } else {
      hide CanRunOne, MayOne;
      var first, rest;
      if Possible(MayOne(stmts[0], available), g) && g != End(Normal) {
        fuel, first := ReachOne(stmts[0], available, g);
        rest := STOPPED;
      } else {
        var f1, f2;
        f1, first := ReachOne(stmts[0], available, End(Normal));
        f2, rest := ReachAll(stmts[1..], available, g);
        fuel := Max(f1, f2);
        OneFueled(stmts[0], available, f1, fuel, first);
        AllFueled(stmts[1..], available, f2, fuel, rest);
      }
      assert CanRunAll(stmts[1..], available, fuel, rest);
      r := Chain(first, rest);
    }
  }

  lemma {:induction false} ReachOne(s: Stmt, available: bool, g: Goal) returns (fuel: nat, r: Run)
    requires Possible(MayOne(s, available), g)
    ensures CanRunOne(s, available, fuel, r) && Meets(r, g)
    decreases s, 1
  {
    assert MayAll([], available) == May({}, {Normal, Stopped});
    hide CanRunAll, CanLoop, CanBranch, CanChoose, MayAll, MayLoop, MayChoose, MayElse, Picks, MayPickNone, TargetWrites;
    match s
    case If(init, _, _, _) => fuel, r := ReachIf(s, available, g);
    case Assign(lhs, literals) =>
      fuel := 0;
      r := if g == End(Stopped) then STOPPED else Run(Normal, literals + TargetWrites(lhs));
    case Block(body) => fuel, r := ReachAll(body, available, g);
    case For(_, _, _, _) => fuel, r := ReachFor(s, available, g);
    case Range(_, _) => fuel, r := ReachLoop(s, available, g);
    case Switch(init, tagged, clauses) =>
      fuel, r := ReachSwitch(s, tagged, available, g);
    case Return(literals) =>
      fuel := 0;
      r := if g == End(Stopped) then STOPPED else Run(Returned, literals);
    case Break => fuel, r := 0, Run(Broke, []);
    case Continue => fuel, r := 0, Run(Continued, []);
    case Fallthrough => fuel, r := 0, Run(FellThrough, []);
    case Effect(literals) =>
      fuel := 0;
      r := if g == End(Stopped) then STOPPED else Run(Normal, literals);
    case TypeSwitch(init, clauses) =>
      fuel, r := ReachSwitch(s, true, available, g);
    case Select(clauses) =>
      var rest;
      fuel, rest := ReachLeaving(clauses, Below(|clauses|), false, available, g);
      r := LeaveBreakable(rest);
    case Labeled(stmt) => fuel, r := ReachOne(stmt, available, g);
  }

  lemma {:induction false} ReachIf(s: Stmt, available: bool, g: Goal) returns (fuel: nat, r: Run)
    requires s.If? && Possible(Next(MayAll(s.init, available), MayBranch(s, available)), g)
    ensures CanRunOne(s, available, fuel, r) && Meets(r, g)
    decreases s, 0
  {
    hide CanRunAll, MayAll, MayBranch;
    var start, rest;
    if Possible(MayAll(s.init, available), g) && g != End(Normal) {
      fuel, start := ReachAll(s.init, available, g);
      rest := STOPPED;
    } else {
      var f1, f2;
      f1, start := ReachAll(s.init, available, End(Normal));
      f2, rest := ReachBranch(s, available, g);
      fuel := Max(f1, f2);
      AllFueled(s.init, available, f1, fuel, start);
      BranchFueled(s, available, f2, fuel, rest);
    }
    assert CanBranch(s, available, fuel, rest);
    hide CanBranch;
    r := Chain(start, rest);
  }

  lemma {:induction false} ReachBranch(s: Stmt, available: bool, g: Goal) returns (fuel: nat, r: Run)
    requires s.If? && Possible(MayBranch(s, available), g)
    ensures CanBranch(s, available, fuel, r) && Meets(r, g)
    decreases s, 0, 0
  {
    hide CanRunAll, CanRunElse, MayAll, MayElse, MayBe;
    fuel, r := 0, STOPPED;
    if g == End(Stopped) {
    } else if MayBe(true, s.cond, available) && Possible(MayAll(s.body, available), g) {
      fuel, r := ReachAll(s.body, available, g);
    } else {
      fuel, r := ReachElse(s.els, available, g);
    }
  }

  lemma {:induction false} ReachElse(els: Else, available: bool, g: Goal) returns (fuel: nat, r: Run)
    requires Possible(MayElse(els, available), g)
    ensures CanRunElse(els, available, fuel, r) && Meets(r, g)
    decreases els, 1
  {
    match els
    case NoElse => fuel, r := 0, DONE;
    case ElseBlock(stmts) => fuel, r := ReachAll(stmts, available, g);
    case ElseIf(chained) => fuel, r := ReachOne(chained, available, g);
  }

  lemma {:induction false} ReachFor(s: Stmt, available: bool, g: Goal) returns (fuel: nat, r: Run)
    requires s.For? && Possible(Next(MayAll(s.init, available), LoopMay(s, available)), g)
    ensures CanRunOne(s, available, fuel, r) && Meets(r, g)
    decreases s, 0
  {
    hide CanRunAll, MayAll, LoopMay;
    var start, rest;
    if Possible(MayAll(s.init, available), g) && g != End(Normal) {
      fuel, start := ReachAll(s.init, available, g);
      rest := STOPPED;
    } else {
      var f1, f2;
      f1, start := ReachAll(s.init, available, End(Normal));
      f2, rest := ReachLoop(s, available, g);
      fuel := Max(f1, f2);
      AllFueled(s.init, available, f1, fuel, start);
      LoopFueled(s, available, f2, fuel, rest);
    }
    assert CanLoop(s, available, fuel, rest);
    hide CanLoop;
    r := Chain(start, rest);
  }

  lemma {:induction false} ReachLoop(loop: Stmt, available: bool, g: Goal) returns (fuel: nat, r: Run)
    requires (loop.For? || loop.Range?) && Possible(LoopMay(loop, available), g)
    ensures CanLoop(loop, available, fuel, r) && Meets(r, g)
    decreases loop, 0, 1
  {
    if g == End(Stopped) {
      fuel, r := 0, STOPPED;
    } else if MayStartRound(false, loop, available) && g == End(Normal) {
      fuel, r := 0, DONE;
    } else {
      var f, body, step := ReachRound(loop, available, g);
      hide CanRunAll, RoundWrites, Round, MayAll;
      fuel, r := f + 1, Round(RoundWrites(loop), body, step, STOPPED);
      assert CanLoop(loop, available, f, STOPPED);
    }
  }

  /** One round is enough for whatever a loop may do. */
  lemma {:induction false} ReachRound(loop: Stmt, available: bool, g: Goal) returns (fuel: nat, body: Run, step: Run)
    requires (loop.For? || loop.Range?) && MayStartRound(true, loop, available) && Possible(LoopMay(loop, available), g)
    requires g != End(Stopped) && !(MayStartRound(false, loop, available) && g == End(Normal))
    ensures CanRunAll(loop.body, available, fuel, body) && CanRunAll(PostOf(loop), available, fuel, step)
    ensures Meets(Round(RoundWrites(loop), body, step, STOPPED), g)
    decreases loop, 0, 0
  {
    assert MayAll([], available) == May({}, {Normal, Stopped});
    StopAnywhere(loop.body, available, 0);
    forall f: nat
      ensures CanRunAll(PostOf(loop), available, f, STOPPED)
    {
      StopAnywhere(PostOf(loop), available, f);
    }
    hide CanRunAll, MayAll, RoundWrites, MayStartRound;
    var b := MayAll(loop.body, available);
    fuel, body, step := 0, STOPPED, STOPPED;
    if g.Write? && g.w in RoundWrites(loop) {
    } else if g.Write? && g.w in b.writes {
      fuel, body := ReachAll(loop.body, available, g);
    } else if g == End(Normal) {
      fuel, body := ReachAll(loop.body, available, End(Broke));
    } else if g.End? && g.outcome in b.ends - {Normal, Broke, Continued} {
      fuel, body := ReachAll(loop.body, available, g);
    } else {
      assert loop.For?;
      var f1, f2;
      f1, body := ReachAll(loop.body, available, if Normal in b.ends then End(Normal) else End(Continued));
      f2, step := ReachAll(loop.post, available, g);
      fuel := Max(f1, f2);
      AllFueled(loop.body, available, f1, fuel, body);
      AllFueled(PostOf(loop), available, f2, fuel, step);
    }
  }

  lemma StopAnywhere(stmts: seq<Stmt>, available: bool, fuel: nat)
    ensures CanRunAll(stmts, available, fuel, STOPPED)
  {
  }

  lemma {:induction false} ReachSwitch(s: Stmt, tagged: bool, available: bool, g: Goal) returns (fuel: nat, r: Run)
    requires s.TypeSwitch? || s.Switch?
    requires tagged == (s.TypeSwitch? || s.tagged) && Possible(MayOne(s, available), g)
    ensures CanRunOne(s, available, fuel, r) && Meets(r, g)
    decreases s, 0
  {
    hide CanRunAll, MayAll, MayChoose, Picks, MayPickNone;
    var start, rest;
    var picks, none := Picks(s.clauses, tagged, available), MayPickNone(s.clauses, tagged, available);
    if Possible(MayAll(s.init, available), g) && g != End(Normal) {
      fuel, start := ReachAll(s.init, available, g);
      rest := STOPPED;
    } else {
      var f1, f2;
      f1, start := ReachAll(s.init, available, End(Normal));
      f2, rest := ReachLeaving(s.clauses, picks, none, available, g);
      fuel := Max(f1, f2);
      AllFueled(s.init, available, f1, fuel, start);
      ChooseFueled(s.clauses, picks, none, available, f2, fuel, rest);
    }
    assert CanChoose(s.clauses, picks, none, available, fuel, rest);
    hide CanChoose;
    r := Chain(start, LeaveBreakable(rest));
  }

  lemma {:induction false} ReachLeaving(clauses: seq<Clause>, picks: set<nat>, none: bool, available: bool, g: Goal)
      returns (fuel: nat, r: Run)
    requires forall i | i in picks :: i < |clauses|
    requires Possible(Leaving(MayChoose(clauses, picks, none, available)), g)
    ensures CanChoose(clauses, picks, none, available, fuel, r) && Meets(LeaveBreakable(r), g)
    decreases clauses, 2
  {
    hide CanChoose, MayChoose;
    var m := MayChoose(clauses, picks, none, available);
    fuel, r := ReachChoose(clauses, picks, none, available,
                           if g == End(Normal) && Normal !in m.ends then End(Broke) else g);
  }

  lemma {:induction false} ReachChoose(clauses: seq<Clause>, picks: set<nat>, none: bool, available: bool, g: Goal)
      returns (fuel: nat, r: Run)
    requires forall i | i in picks :: i < |clauses|
    requires Possible(MayChoose(clauses, picks, none, available), g)
    ensures CanChoose(clauses, picks, none, available, fuel, r) && Meets(r, g)
    decreases clauses, 1
  {
    hide CanRunClauses, MayPicked;
    fuel, r := 0, STOPPED;
    if g == End(Stopped) {
    } else if none && g == End(Normal) {
      r := DONE;
    } else {
      var i := PickedFrom(clauses, 0, picks, available, g);
      fuel, r := ReachClauses(clauses, i, available, g);
    }
  }

  lemma {:induction false} PickedFrom(clauses: seq<Clause>, i: nat, picks: set<nat>, available: bool, g: Goal)
      returns (j: nat)
    requires Possible(MayPicked(clauses, i, picks, available), g) && g != End(Stopped)
    ensures j < |clauses| && j in picks && Possible(MayClauses(clauses, j, available), g)
    decreases if i < |clauses| then |clauses| - i else 0
  {
    hide MayClauses;
    if i in picks && Possible(MayClauses(clauses, i, available), g) {
      j := i;
    } else {
      j := PickedFrom(clauses, i + 1, picks, available, g);
    }
  }

  lemma {:induction false} ReachClauses(clauses: seq<Clause>, i: nat, available: bool, g: Goal) returns (fuel: nat, r: Run)
    requires Possible(MayClauses(clauses, i, available), g)
    ensures CanRunClauses(clauses, i, available, fuel, r) && Meets(r, g)
    decreases clauses, 0, if i < |clauses| then |clauses| - i else 0
  {
    if i >= |clauses| {
      fuel, r := 0, DONE;
    } else {
      hide CanRunAll, MayAll;
      var body, more;
      if Possible(MayAll(clauses[i].body, available), g) && g != End(FellThrough) {
        fuel, body := ReachAll(clauses[i].body, available, g);
        more := SomeClauses(clauses, i + 1, available, fuel);
      } else {
        var f1, f2;
        f1, body := ReachAll(clauses[i].body, available, End(FellThrough));
        f2, more := ReachClauses(clauses, i + 1, available, g);
        fuel := Max(f1, f2);
        AllFueled(clauses[i].body, available, f1, fuel, body);
        ClausesFueled(clauses, i + 1, available, f2, fuel, more);
      }
      r := Fall(body, more);
    }
  }

  lemma {:induction false} SomeClauses(clauses: seq<Clause>, i: nat, available: bool, fuel: nat) returns (r: Run)
    ensures CanRunClauses(clauses, i, available, fuel, r)
    decreases if i < |clauses| then |clauses| - i else 0
  {
    if i >= |clauses| {
      r := DONE;
    } else {
      StopAnywhere(clauses[i].body, available, fuel);
      var more := SomeClauses(clauses, i + 1, available, fuel);
      r := Fall(STOPPED, more);
    }
  }

  /** A posture write is performed by some execution exactly when it is among the writes that the
      structural computation finds, and likewise for the ways of ending. */
  lemma MayWriteExactly(body: seq<Stmt>, available: bool, w: Report)
    ensures w in MayAll(body, available).writes
       <==> exists fuel, r :: CanRunAll(body, available, fuel, r) && w in r.writes
  {
    if w in MayAll(body, available).writes {
      var fuel, r := ReachAll(body, available, Write(w));
    }
    forall fuel, r | CanRunAll(body, available, fuel, r)
      ensures Fits(r, MayAll(body, available))
    {
      AllWithin(body, available, fuel, r);
    }
  }

  lemma MayEndExactly(body: seq<Stmt>, available: bool, o: Outcome)
    ensures o in MayAll(body, available).ends
       <==> exists fuel, r :: CanRunAll(body, available, fuel, r) && r.outcome == o
  {
    if o in MayAll(body, available).ends {
      var fuel, r := ReachAll(body, available, End(o));
    }
    forall fuel, r | CanRunAll(body, available, fuel, r)
      ensures Fits(r, MayAll(body, available))
    {
      AllWithin(body, available, fuel, r);
    }
  }

  // ----- Positions and forms the walk does not look at -----

  /** Every posture write in a statement, wherever it sits. */
  function AllWrites(stmts: seq<Stmt>): set<Report>
    decreases stmts
  {
    if stmts == [] then {} else WritesOf(stmts[0]) + AllWrites(stmts[1..])
  }

  function WritesOf(s: Stmt): set<Report>
    decreases s
  {
    match s
    case If(init, _, body, els) => AllWrites(init) + AllWrites(body) + ElseWrites(els)
    case Assign(lhs, literals) => AsSet(literals) + AsSet(TargetWrites(lhs))
    case Block(body) => AllWrites(body)
    case For(init, _, post, body) => AllWrites(init) + AllWrites(post) + AllWrites(body)
    case Range(targets, body) => AsSet(TargetWrites(targets)) + AllWrites(body)
    case Switch(init, _, clauses) => AllWrites(init) + ClauseWrites(clauses)
    case Return(literals) => AsSet(literals)
    case Effect(literals) => AsSet(literals)
    case TypeSwitch(init, clauses) => AllWrites(init) + ClauseWrites(clauses)
    case Select(clauses) => ClauseWrites(clauses)
    case Labeled(stmt) => WritesOf(stmt)
    case _ => {}
  }

  function ElseWrites(els: Else): set<Report>
    decreases els
  {
    match els
    case NoElse => {}
    case ElseBlock(stmts) => AllWrites(stmts)
    case ElseIf(chained) => WritesOf(chained)
  }

  function ClauseWrites(clauses: seq<Clause>): set<Report>
    decreases clauses
  {
    if clauses == [] then {} else AllWrites(clauses[0].body) + ClauseWrites(clauses[1..])
  }

  /** The writes of targets that write a posture field without being the plain selector that the walk
      looks for. */
  function DisguisedWrites(lhs: seq<Lhs>): set<Report> {
    if lhs == [] then {}
    else (if IsSandboxWritePosture(lhs[0].expr) then {} else AsSet(TargetWrite(lhs[0]))) + DisguisedWrites(lhs[1..])
  }

  /** The posture writes inside init and post statements, range targets, select, type-switch and
      labelled statements, composite literals, and disguised targets. */
  function HiddenWrites(stmts: seq<Stmt>): set<Report>
    decreases stmts
  {
    if stmts == [] then {} else HiddenIn(stmts[0]) + HiddenWrites(stmts[1..])
  }

  function HiddenIn(s: Stmt): set<Report>
    decreases s
  {
    match s
    case If(init, _, body, els) => AllWrites(init) + HiddenWrites(body) + HiddenInElse(els)
    case Assign(lhs, literals) => AsSet(literals) + DisguisedWrites(lhs)
    case Block(body) => HiddenWrites(body)
    case For(init, _, post, body) => AllWrites(init) + AllWrites(post) + HiddenWrites(body)
    case Range(targets, body) => AsSet(TargetWrites(targets)) + HiddenWrites(body)
    case Switch(init, _, clauses) => AllWrites(init) + HiddenInClauses(clauses)
    case _ => WritesOf(s)
  }

  function HiddenInElse(els: Else): set<Report>
    decreases els
  {
    match els
    case NoElse => {}
    case ElseBlock(stmts) => HiddenWrites(stmts)
    case ElseIf(chained) => if chained.If? then HiddenIn(chained) else WritesOf(chained)
  }

  function HiddenInClauses(clauses: seq<Clause>): set<Report>
    decreases clauses
  {
    if clauses == [] then {} else HiddenWrites(clauses[0].body) + HiddenInClauses(clauses[1..])
  }

  lemma {:induction false} PlainOrDisguised(lhs: seq<Lhs>)
    ensures AsSet(TargetWrites(lhs)) == AsSet(PostureWrites(lhs)) + DisguisedWrites(lhs)
  {
    if lhs != [] {
      PlainOrDisguised(lhs[1..]);
      PlainWrite(lhs[0]);
      AsSetConcat(TargetWrite(lhs[0]), TargetWrites(lhs[1..]));
      AsSetConcat(if IsSandboxWritePosture(lhs[0].expr) then TargetWrite(lhs[0]) else [], PostureWrites(lhs[1..]));
      hide TargetWrite, AsSet;
      assert AsSet([]) == {} by { AsSetOfNothing(); }
    }
  }

  lemma AsSetConcat(a: seq<Report>, b: seq<Report>)
    ensures AsSet(a + b) == AsSet(a) + AsSet(b)
  {
  }

  lemma AsSetOfNothing()
    ensures AsSet([]) == {}
  {
  }

  lemma PlainWrite(l: Lhs)
    ensures IsSandboxWritePosture(l.expr) ==> TargetWrite(l) == [Report(l.pos, l.expr.sel)]
  {
  }

  // ----- Soundness of the walk -----

  lemma {:induction false} WritesAllContained(stmts: seq<Stmt>, available: bool)
    ensures MayAll(stmts, available).writes <= AllWrites(stmts)
    decreases stmts, 1
  {
    if stmts != [] {
      WritesOneContained(stmts[0], available);
      WritesAllContained(stmts[1..], available);
    }
  }

  lemma {:induction false} WritesOneContained(s: Stmt, available: bool)
    ensures MayOne(s, available).writes <= WritesOf(s)
    decreases s, 1
  {
    hide MayAll, AllWrites, Picks, MayPickNone, MayChoose, ClauseWrites, TargetWrites;
    match s
    case If(init, cond, body, els) =>
      WritesAllContained(init, available);
      WritesAllContained(body, available);
      WritesElseContained(els, available);
    case Block(body) => WritesAllContained(body, available);
    case For(init, _, post, body) =>
      WritesAllContained(init, available);
      WritesAllContained(post, available);
      WritesAllContained(body, available);
    case Range(targets, body) => WritesAllContained(body, available);
    case Switch(init, tagged, clauses) =>
      WritesAllContained(init, available);
      WritesChoiceContained(clauses, Picks(clauses, tagged, available), MayPickNone(clauses, tagged, available), available);
    case TypeSwitch(init, clauses) =>
      WritesAllContained(init, available);
      WritesChoiceContained(clauses, Picks(clauses, true, available), MayPickNone(clauses, true, available), available);
    case Select(clauses) => WritesChoiceContained(clauses, Below(|clauses|), false, available);
    case Labeled(stmt) => WritesOneContained(stmt, available);
    case _ =>
  }

  lemma {:induction false} WritesElseContained(els: Else, available: bool)
    ensures MayElse(els, available).writes <= ElseWrites(els)
    decreases els, 1
  {
    match els
    case NoElse =>
    case ElseBlock(stmts) => WritesAllContained(stmts, available);
    case ElseIf(chained) => WritesOneContained(chained, available);
  }

  /** Whatever holds of every clause's own writes holds of every choice among the clauses. */
  lemma {:induction false} ChoiceContained(clauses: seq<Clause>, i: nat, picks: set<nat>, available: bool, allowed: set<Report>)
    requires forall j | 0 <= j < |clauses| :: MayAll(clauses[j].body, available).writes <= allowed
    ensures MayPicked(clauses, i, picks, available).writes <= allowed
    ensures MayClauses(clauses, i, available).writes <= allowed
    decreases if i < |clauses| then |clauses| - i else 0
  {
    hide MayAll;
    if i < |clauses| {
      ChoiceContained(clauses, i + 1, picks, available, allowed);
    }
  }

  lemma {:induction false} WritesChoiceContained(clauses: seq<Clause>, picks: set<nat>, none: bool, available: bool)
    ensures MayChoose(clauses, picks, none, available).writes <= ClauseWrites(clauses)
    decreases clauses, 1
  {
    forall j | 0 <= j < |clauses|
      ensures MayAll(clauses[j].body, available).writes <= ClauseWrites(clauses)
    {
      WritesAllContained(clauses[j].body, available);
      ClauseMember(clauses, j);
    }
    ChoiceContained(clauses, 0, picks, available, ClauseWrites(clauses));
  }

  lemma {:induction false} ClauseMember(clauses: seq<Clause>, i: nat)
    requires i < |clauses|
    ensures AllWrites(clauses[i].body) <= ClauseWrites(clauses)
    ensures HiddenWrites(clauses[i].body) <= HiddenInClauses(clauses)
    ensures AsSet(WalkAll(clauses[i].body, false).reports) <= AsSet(WalkClauseReports(clauses, false))
  {
    if i > 0 {
      ClauseMember(clauses[1..], i - 1);
    }
  }

  /** A block with a return among its statements never completes normally: this is what justifies
      both treating the code after an early-return guard as guarded and not walking its else. */
  lemma {:induction false} ReturnNeverFallsOff(body: seq<Stmt>, available: bool, fuel: nat, r: Run)
    requires ContainsReturn(body) && CanRunAll(body, available, fuel, r)
    ensures !r.outcome.Normal?
  {
    ReturnEndsBlock(body, available);
    AllWithin(body, available, fuel, r);
  }

  lemma {:induction false} ReturnEndsBlock(body: seq<Stmt>, available: bool)
    requires ContainsReturn(body)
    ensures Normal !in MayAll(body, available).ends
  {
    if !body[0].Return? {
      var s :| s in body && s.Return?;
      assert s in body[1..];
      ReturnEndsBlock(body[1..], available);
    }
  }

  /** The main induction: what unguarded code may write without a sandbox is reported or hidden, and
      code that hands on "guarded" does not complete without one. */
  lemma {:induction false} SoundAll(stmts: seq<Stmt>)
    ensures MayAll(stmts, false).writes <= AsSet(WalkAll(stmts, false).reports) + HiddenWrites(stmts)
    ensures WalkAll(stmts, false).guarded ==> Normal !in MayAll(stmts, false).ends
    decreases stmts, 1
  {
    if stmts != [] {
      hide MayOne, WalkOne, HiddenIn;
      SoundOne(stmts[0]);
      SoundAll(stmts[1..]);
    }
  }

  lemma {:induction false} SoundOne(s: Stmt)
    ensures MayOne(s, false).writes <= AsSet(WalkOne(s, false).reports) + HiddenIn(s)
    ensures WalkOne(s, false).guarded ==> Normal !in MayOne(s, false).ends
    decreases s, 1
  {
    hide MayAll, WalkAll, AllWrites, HiddenWrites, ContainsReturn, Picks, MayPickNone, MayChoose, TargetWrites, PostureWrites;
    hide DisguisedWrites;
    match s
    case If(init, cond, body, els) => SoundIf(s);
    case Assign(lhs, _) => PlainOrDisguised(lhs);
    case Block(body) => SoundAll(body);
    case For(init, _, post, body) =>
      WritesAllContained(init, false);
      WritesAllContained(post, false);
      SoundAll(body);
    case Range(targets, body) => SoundAll(body);
    case Switch(init, tagged, clauses) =>
      WritesAllContained(init, false);
      SoundChoice(clauses, Picks(clauses, tagged, false), MayPickNone(clauses, tagged, false));
    case _ => WritesOneContained(s, false);
  }

  lemma {:induction false} SoundIf(s: Stmt)
    requires s.If?
    ensures MayOne(s, false).writes <= AsSet(WalkOne(s, false).reports) + HiddenIn(s)
    ensures WalkOne(s, false).guarded ==> Normal !in MayOne(s, false).ends
    decreases s, 0
  {
    hide MayAll, WalkAll, AllWrites, HiddenWrites, ContainsReturn, MayElse, WalkElseReports, HiddenInElse;
    WritesAllContained(s.init, false);
    SoundAll(s.body);
    SoundElse(s.els);
    if IsPositiveAvailableCheck(s.cond) {
      assert !MayBe(true, s.cond, false);
    } else if IsNegatedAvailableCheck(s.cond) && ContainsReturn(s.body) {
      assert Values(s.cond.x, false) == {false};
      assert !MayBe(false, s.cond, false);
      ReturnEndsBlock(s.body, false);
    }
  }

  lemma {:induction false} SoundElse(els: Else)
    ensures MayElse(els, false).writes <= AsSet(WalkElseReports(els, false)) + HiddenInElse(els)
    decreases els, 1
  {
    match els
    case NoElse =>
    case ElseBlock(stmts) => SoundAll(stmts);
    case ElseIf(chained) =>
      SoundOne(chained);
      WritesOneContained(chained, false);
  }

  lemma {:induction false} SoundChoice(clauses: seq<Clause>, picks: set<nat>, none: bool)
    ensures MayChoose(clauses, picks, none, false).writes <= AsSet(WalkClauseReports(clauses, false)) + HiddenInClauses(clauses)
    decreases clauses, 1
  {
    var allowed := AsSet(WalkClauseReports(clauses, false)) + HiddenInClauses(clauses);
    forall j | 0 <= j < |clauses|
      ensures MayAll(clauses[j].body, false).writes <= allowed
    {
      SoundAll(clauses[j].body);
      ClauseMember(clauses, j);
    }
    ChoiceContained(clauses, 0, picks, false, allowed);
  }

  // ----- Main results -----

  /** An execution without a sandbox performs no posture write that is neither reported nor hidden
      from the walk. */
  lemma UnavailableWritesAreReported(body: seq<Stmt>, fuel: nat, r: Run)
    requires CanRunAll(body, false, fuel, r)
    ensures forall w | w in r.writes :: w in WalkAll(body, false).reports || w in HiddenWrites(body)
  {
    AllWithin(body, false, fuel, r);
    SoundAll(body);
  }

  /** Every posture write of every execution without a sandbox is reported. */
  ghost predicate IsSoundFor(body: seq<Stmt>) {
    forall fuel, r | CanRunAll(body, false, fuel, r) :: forall w | w in r.writes :: w in WalkAll(body, false).reports
  }

  /** The analyzer is sound for a body exactly when it reports every write that the structural
      computation finds; those it misses are all hidden from the walk. */
  lemma SoundExactlyWhen(body: seq<Stmt>)
    ensures IsSoundFor(body) <==> MayAll(body, false).writes <= AsSet(WalkAll(body, false).reports)
    ensures MayAll(body, false).writes - AsSet(WalkAll(body, false).reports) <= HiddenWrites(body)
  {
    SoundAll(body);
    forall w: Report
      ensures w in MayAll(body, false).writes <==> exists fuel, r :: CanRunAll(body, false, fuel, r) && w in r.writes
    {
      MayWriteExactly(body, false, w);
    }
    forall fuel, r | CanRunAll(body, false, fuel, r)
      ensures Within(r.writes, MayAll(body, false).writes)
    {
      AllWithin(body, false, fuel, r);
    }
    hide CanRunAll, MayAll, WalkAll, HiddenWrites;
    if IsSoundFor(body) {
      forall w | w in MayAll(body, false).writes
        ensures w in WalkAll(body, false).reports
      {
        var fuel, r :| CanRunAll(body, false, fuel, r) && w in r.writes;
      }
    }
  }

  /** Silence is a proof exactly for the bodies that may write nothing without a sandbox -- among
      them every body that hides nothing from the walk. */
  lemma SilenceMeansGuarded(body: seq<Stmt>)
    requires WalkAll(body, false).reports == []
    ensures (forall fuel, r | CanRunAll(body, false, fuel, r) :: r.writes == []) <==> MayAll(body, false).writes == {}
    ensures HiddenWrites(body) == {} ==> MayAll(body, false).writes == {}
  {
    SoundAll(body);
    forall fuel, r | CanRunAll(body, false, fuel, r)
      ensures MayAll(body, false).writes == {} ==> r.writes == []
    {
      AllWithin(body, false, fuel, r);
      NothingWithinNothing(r.writes);
    }
    if w :| w in MayAll(body, false).writes {
      MayWriteExactly(body, false, w);
      var fuel, r :| CanRunAll(body, false, fuel, r) && w in r.writes;
      assert r.writes != [];
    }
  }

  lemma NothingWithinNothing(writes: seq<Report>)
    ensures Within(writes, {}) ==> writes == []
  {
    if writes != [] {
      assert writes[0] in writes;
    }
  }

  // ----- A guard silences the walk -----

  lemma {:induction false} GuardedWalkIsSilent(stmts: seq<Stmt>)
    ensures WalkAll(stmts, true) == Walk([], true)
    decreases stmts
  {
    if stmts != [] {
      GuardedStmtIsSilent(stmts[0]);
      GuardedWalkIsSilent(stmts[1..]);
    }
  }

  lemma {:induction false} GuardedStmtIsSilent(s: Stmt)
    ensures WalkOne(s, true) == Walk([], true)
    decreases s
  {
    match s {
      case If(_, _, body, els) =>
        GuardedWalkIsSilent(body);
        match els {
          case NoElse =>
          case ElseBlock(stmts) => GuardedWalkIsSilent(stmts);
          case ElseIf(chained) => GuardedStmtIsSilent(chained);
        }
      case Block(body) => GuardedWalkIsSilent(body);
      case For(_, _, _, body) => GuardedWalkIsSilent(body);
      case Range(_, body) => GuardedWalkIsSilent(body);
      case Switch(_, _, clauses) => GuardedClausesAreSilent(clauses);
      case _ =>
    }
  }

  lemma {:induction false} GuardedClausesAreSilent(clauses: seq<Clause>)
    ensures WalkClauseReports(clauses, true) == []
    decreases clauses
  {
    if clauses != [] {
      GuardedWalkIsSilent(clauses[0].body);
      GuardedClausesAreSilent(clauses[1..]);
    }
  }

  // ----- What is reported, exactly -----

  /** `sandbox.Available(...)` */
  predicate IsCheck(e: Expr) {
    e.Call? && e == Call(Selector(Ident("sandbox"), "Available"), e.args)
  }

  /** `if !sandbox.Available() { ...; return; ... }` */
  predicate LeavesUnavailable(s: Stmt) {
    s.If? && s.cond.Not? && IsCheck(s.cond.x) && exists i :: 0 <= i < |s.body| && s.body[i].Return?
  }

  /** The statements without the code that needs no report: what is under a check, and what follows
      an if that leaves when there is no sandbox, or is its else. */
  function Uncovered(stmts: seq<Stmt>): seq<Stmt>
    decreases stmts
  {
    if stmts == [] then []
    else [UncoveredIn(stmts[0])] + (if LeavesUnavailable(stmts[0]) then [] else Uncovered(stmts[1..]))
  }

  function UncoveredIn(s: Stmt): Stmt
    decreases s
  {
    match s
    case If(init, cond, body, els) =>
      If(init, cond, if IsCheck(cond) then [] else Uncovered(body), if LeavesUnavailable(s) then NoElse else UncoveredElse(els))
    case Block(body) => Block(Uncovered(body))
    case For(init, test, post, body) => For(init, test, post, Uncovered(body))
    case Range(targets, body) => Range(targets, Uncovered(body))
    case Switch(init, tagged, clauses) => Switch(init, tagged, UncoveredClauses(clauses))
    case _ => s
  }

  function UncoveredElse(els: Else): Else
    decreases els
  {
    match els
    case NoElse => NoElse
    case ElseBlock(stmts) => ElseBlock(Uncovered(stmts))
    case ElseIf(chained) => ElseIf(UncoveredIn(chained))
  }

  function UncoveredClauses(clauses: seq<Clause>): (r: seq<Clause>)
    ensures |r| == |clauses| && forall i | 0 <= i < |r| :: r[i] == Clause(clauses[i].guards, Uncovered(clauses[i].body))
    decreases clauses
  {
    if clauses == [] then []
    else [Clause(clauses[0].guards, Uncovered(clauses[0].body))] + UncoveredClauses(clauses[1..])
  }

  /** The assignments to a posture field `x.F`, in source order, wherever the walk goes. */
  function PlainWrites(stmts: seq<Stmt>): seq<Report>
    decreases stmts
  {
    if stmts == [] then [] else PlainWritesIn(stmts[0]) + PlainWrites(stmts[1..])
  }

  function PlainWritesIn(s: Stmt): seq<Report>
    decreases s
  {
    match s
    case If(_, _, body, els) =>
      PlainWrites(body) + (match els
        case NoElse => []
        case ElseBlock(stmts) => PlainWrites(stmts)
        case ElseIf(chained) => if chained.If? then PlainWritesIn(chained) else [])
    case Assign(lhs, _) => PlainTargets(lhs)
    case Block(body) => PlainWrites(body)
    case For(_, _, _, body) => PlainWrites(body)
    case Range(_, body) => PlainWrites(body)
    case Switch(_, _, clauses) => PlainWritesInClauses(clauses)
    case _ => []
  }

  function PlainWritesInClauses(clauses: seq<Clause>): seq<Report>
    decreases clauses
  {
    if clauses == [] then [] else PlainWrites(clauses[0].body) + PlainWritesInClauses(clauses[1..])
  }

  function PlainTargets(lhs: seq<Lhs>): seq<Report> {
    if lhs == [] then []
    else
      (match lhs[0].expr
       case Selector(_, field) => if IsPosture(field) then [Report(lhs[0].pos, field)] else []
       case _ => [])
      + PlainTargets(lhs[1..])
  }

  /** The reports are exactly the plain posture writes of the code that no guard covers, in order. */
  lemma {:induction false} ReportsAreExact(stmts: seq<Stmt>)
    ensures WalkAll(stmts, false).reports == PlainWrites(Uncovered(stmts))
    ensures WalkAll(stmts, false).guarded <==> exists s | s in stmts :: LeavesUnavailable(s)
    decreases stmts, 1
  {
    if stmts != [] {
      ReportsOfOne(stmts[0]);
      ReportsAreExact(stmts[1..]);
      GuardedWalkIsSilent(stmts[1..]);
      assert Uncovered(stmts)[1..] == if LeavesUnavailable(stmts[0]) then [] else Uncovered(stmts[1..]);
      assert forall s :: s in stmts <==> s == stmts[0] || s in stmts[1..];
    }
  }

  lemma {:induction false} ReportsOfOne(s: Stmt)
    ensures WalkOne(s, false).reports == PlainWritesIn(UncoveredIn(s))
    ensures WalkOne(s, false).guarded <==> LeavesUnavailable(s)
    decreases s, 1
  {
    hide WalkAll, PlainWrites, Uncovered;
    match s
    case If(_, cond, body, els) =>
      ReportsAreExact(body);
      ReportsOfElse(els);
      GuardedWalkIsSilent(body);
      NothingPlainInNothing();
    case Assign(lhs, _) => ReportsOfTargets(lhs);
    case Block(body) => ReportsAreExact(body);
    case For(_, _, _, body) => ReportsAreExact(body);
    case Range(_, body) => ReportsAreExact(body);
    case Switch(_, _, clauses) => ReportsOfClauses(clauses);
    case _ =>
  }

  lemma NothingPlainInNothing()
    ensures PlainWrites([]) == []
  {
  }

  lemma {:induction false} ReportsOfElse(els: Else)
    ensures WalkElseReports(els, false) == PlainWritesIn(If([], Opaque, [], UncoveredElse(els)))
    decreases els, 1
  {
    NothingPlainInNothing();
    match els
    case NoElse =>
    case ElseBlock(stmts) => ReportsAreExact(stmts);
    case ElseIf(chained) => ReportsOfOne(chained);
  }

  lemma {:induction false} ReportsOfClauses(clauses: seq<Clause>)
    ensures WalkClauseReports(clauses, false) == PlainWritesInClauses(UncoveredClauses(clauses))
    decreases clauses, 1
  {
    if clauses != [] {
      ReportsAreExact(clauses[0].body);
      ReportsOfClauses(clauses[1..]);
      assert UncoveredClauses(clauses)[1..] == UncoveredClauses(clauses[1..]);
    }
  }

  lemma {:induction false} ReportsOfTargets(lhs: seq<Lhs>)
    ensures PostureWrites(lhs) == PlainTargets(lhs)
  {
    if lhs != [] {
      ReportsOfTargets(lhs[1..]);
    }
  }

  /** The code that is covered does nothing without a sandbox: removing it changes neither what the
      statements may write then nor how they may end. */
  lemma {:induction false} CoveredIsUnreachable(stmts: seq<Stmt>)
    ensures MayAll(Uncovered(stmts), false) == MayAll(stmts, false)
    decreases stmts, 1
  {
    if stmts != [] {
      hide MayOne, UncoveredIn, LeavesUnavailable;
      UnreachableInOne(stmts[0]);
      CoveredIsUnreachable(stmts[1..]);
      assert Uncovered(stmts)[1..] == if LeavesUnavailable(stmts[0]) then [] else Uncovered(stmts[1..]);
    }
  }

  lemma {:induction false} UnreachableInOne(s: Stmt)
    ensures MayOne(UncoveredIn(s), false) == MayOne(s, false)
    ensures LeavesUnavailable(s) ==> Normal !in MayOne(s, false).ends
    decreases s, 1
  {
    hide MayAll, Uncovered, Picks, MayPickNone, MayChoose;
    match s
    case If(_, cond, body, els) =>
      CoveredIsUnreachable(body);
      UnreachableInElse(els);
      if IsCheck(cond) {
        assert !MayBe(true, cond, false);
      } else if LeavesUnavailable(s) {
        assert Values(cond.x, false) == {false};
        assert !MayBe(false, cond, false);
        ReturnEndsBlock(body, false);
      }
    case Block(body) => CoveredIsUnreachable(body);
    case For(_, _, _, body) => CoveredIsUnreachable(body);
    case Range(_, body) => CoveredIsUnreachable(body);
    case Switch(_, tagged, clauses) => UnreachableInClauses(clauses, tagged);
    case _ =>
  }

  lemma {:induction false} UnreachableInElse(els: Else)
    ensures MayElse(UncoveredElse(els), false) == MayElse(els, false)
    decreases els, 1
  {
    match els
    case NoElse =>
    case ElseBlock(stmts) => CoveredIsUnreachable(stmts);
    case ElseIf(chained) => UnreachableInOne(chained);
  }

  lemma {:induction false} UnreachableInClauses(clauses: seq<Clause>, tagged: bool)
    ensures (var u := UncoveredClauses(clauses);
             MayChoose(u, Picks(u, tagged, false), MayPickNone(u, tagged, false), false))
         == MayChoose(clauses, Picks(clauses, tagged, false), MayPickNone(clauses, tagged, false), false)
    decreases clauses, 1
  {
    hide MayAll, Uncovered;
    var u := UncoveredClauses(clauses);
    forall i | 0 <= i < |clauses|
      ensures u[i].guards == clauses[i].guards && MayAll(u[i].body, false) == MayAll(clauses[i].body, false)
    {
      CoveredIsUnreachable(clauses[i].body);
    }
    SamePicks(u, clauses, tagged);
    SameFrom(u, clauses, 0, Picks(clauses, tagged, false));
  }

  lemma SamePicks(a: seq<Clause>, b: seq<Clause>, tagged: bool)
    requires |a| == |b| && forall i | 0 <= i < |a| :: a[i].guards == b[i].guards
    ensures Picks(a, tagged, false) == Picks(b, tagged, false) && MayPickNone(a, tagged, false) == MayPickNone(b, tagged, false)
  {
    hide GuardMayBe;
    forall i | 0 <= i <= |a|
      ensures MaySkipTo(a, i, tagged, false) == MaySkipTo(b, i, tagged, false)
    {
    }
  }

  lemma {:induction false} SameFrom(a: seq<Clause>, b: seq<Clause>, i: nat, picks: set<nat>)
    requires |a| == |b| && forall j | 0 <= j < |a| :: MayAll(a[j].body, false) == MayAll(b[j].body, false)
    ensures MayClauses(a, i, false) == MayClauses(b, i, false)
    ensures MayPicked(a, i, picks, false) == MayPicked(b, i, picks, false)
    decreases |a| - i
  {
    hide MayAll;
    if i < |a| {
      SameFrom(a, b, i + 1, picks);
    }
  }

  /** The two documented guards, spelled out, in any context: nothing under a check is reported, and
      nothing that follows an if that leaves without a sandbox. */
  lemma GuardsAreRecognised(init: seq<Stmt>, body: seq<Stmt>, els: Else, rest: seq<Stmt>)
    ensures var check := Call(Selector(Ident("sandbox"), "Available"), []);
            && WalkAll([If(init, check, body, els)] + rest, false) == WalkAll([If(init, check, [], els)] + rest, false)
            && ((exists s | s in body :: s.Return?) ==>
                  WalkAll([If(init, Not(check), body, els)] + rest, false) == Walk(WalkAll(body, false).reports, true))
  {
    var check := Call(Selector(Ident("sandbox"), "Available"), []);
    GuardedWalkIsSilent(body);
    GuardedWalkIsSilent([]);
    GuardedWalkIsSilent(rest);
    WalkCons(If(init, check, body, els), rest);
    WalkCons(If(init, check, [], els), rest);
    WalkCons(If(init, Not(check), body, els), rest);
    hide WalkAll;
  }

  lemma WalkCons(s: Stmt, rest: seq<Stmt>)
    ensures var one := WalkOne(s, false);
            WalkAll([s] + rest, false)
            == Walk(one.reports + WalkAll(rest, one.guarded).reports, WalkAll(rest, one.guarded).guarded)
  {
    hide WalkOne;
    assert ([s] + rest)[1..] == rest;
  }

  // ----- Every hidden position and form is a real gap -----

  const FIELD := Selector(Ident("cfg"), "SandboxProjectWrite")
  const THE_WRITE := Report(1, "SandboxProjectWrite")
  const WRITE := Assign([Lhs(1, FIELD)], [])

  /** A body whose only statement is one of the unwalked positions or forms around a posture write. */
  function HiddenForms(): seq<Stmt> {
    [ If([WRITE], Opaque, [], NoElse),
      For([WRITE], None, [], []),
      For([], None, [WRITE], []),
      Range([Lhs(1, FIELD)], []),
      Switch([WRITE], false, []),
      TypeSwitch([], [Clause([], [WRITE])]),
      Select([Clause([], [WRITE])]),
      Labeled(WRITE),
      Assign([Lhs(1, Paren(FIELD))], []),
      Assign([Lhs(1, Index(FIELD))], []),
      Assign([Lhs(1, Star(AddrOf(FIELD)))], []),
      Assign([Lhs(0, Ident("cfg"))], [THE_WRITE]),
      Effect([THE_WRITE]),
      Return([THE_WRITE]) ]
  }

  /** The analyzer is silent about the statement, and yet it writes without a sandbox. */
  ghost predicate Escapes(s: Stmt) {
    && WalkAll([s], false).reports == []
    && exists fuel, r :: CanRunAll([s], false, fuel, r) && r.writes != []
  }

  lemma EscapesWhen(s: Stmt)
    requires WalkOne(s, false).reports == [] && THE_WRITE in MayOne(s, false).writes
    ensures Escapes(s)
  {
    assert [s][1..] == [];
    assert WalkAll([], WalkOne(s, false).guarded).reports == [];
    assert THE_WRITE in MayAll([s], false).writes;
    MayWriteExactly([s], false, THE_WRITE);
  }

  lemma TheWrite(target: Expr)
    requires target == FIELD || target == Paren(FIELD) || target == Index(FIELD) || target == Star(AddrOf(FIELD))
    ensures TargetWrites([Lhs(1, target)]) == [THE_WRITE]
    ensures MayAll([WRITE], false) == May({THE_WRITE}, {Normal, Stopped}) && MayAll([], false) == May({}, {Normal, Stopped})
  {
    assert TargetWrites([Lhs(1, FIELD)][1..]) == [] && TargetWrites([Lhs(1, target)][1..]) == [];
    assert TargetWrites([Lhs(1, FIELD)]) == [THE_WRITE];
    assert WrittenField(target) == Some("SandboxProjectWrite");
    assert [WRITE][1..] == [] && MayOne(WRITE, false) == May({THE_WRITE}, {Normal, Stopped});
  }

  lemma InitEscapes()
    ensures Escapes(If([WRITE], Opaque, [], NoElse)) && Escapes(For([WRITE], None, [], [])) && Escapes(Switch([WRITE], false, []))
  {
    TheWrite(FIELD);
    assert WalkAll([], false).reports == [];
    hide Escapes, TargetWrites, MayAll, WalkAll, MayChoose, Picks, MayPickNone, MayLoop;
    EscapesWhen(If([WRITE], Opaque, [], NoElse));
    EscapesWhen(For([WRITE], None, [], []));
    EscapesWhen(Switch([WRITE], false, []));
  }

  lemma PostEscapes()
    ensures Escapes(For([], None, [WRITE], []))
  {
    TheWrite(FIELD);
    assert WalkAll([], false).reports == [];
    hide Escapes, TargetWrites, MayAll, WalkAll;
    EscapesWhen(For([], None, [WRITE], []));
  }

  lemma RangeEscapes()
    ensures Escapes(Range([Lhs(1, FIELD)], [])) && Escapes(Labeled(WRITE))
  {
    TheWrite(FIELD);
    assert WalkAll([], false).reports == [];
    hide Escapes, TargetWrites, MayAll, WalkAll;
    EscapesWhen(Range([Lhs(1, FIELD)], []));
    EscapesWhen(Labeled(WRITE));
  }

  lemma ClauseEscapes(clauses: seq<Clause>, picks: set<nat>, none: bool)
    requires clauses == [Clause([], [WRITE])] && 0 in picks
    ensures THE_WRITE in Leaving(MayChoose(clauses, picks, none, false)).writes
  {
    TheWrite(FIELD);
    hide MayAll;
    assert THE_WRITE in MayClauses(clauses, 0, false).writes;
    hide MayClauses;
    assert THE_WRITE in MayPicked(clauses, 0, picks, false).writes;
  }

  lemma TypeSwitchEscapes()
    ensures Escapes(TypeSwitch([], [Clause([], [WRITE])]))
  {
    var clauses := [Clause([], [WRITE])];
    assert MayPick(clauses, 0, true, false);
    var i: nat := 0;
    assert i in Picks(clauses, true, false);
    hide Escapes, Picks, MayPickNone, MayChoose, WalkAll;
    ClauseEscapes(clauses, Picks(clauses, true, false), MayPickNone(clauses, true, false));
    EscapesWhen(TypeSwitch([], clauses));
  }

  lemma SelectEscapes()
    ensures Escapes(Select([Clause([], [WRITE])]))
  {
    var clauses := [Clause([], [WRITE])];
    hide Escapes, MayChoose, WalkAll;
    ClauseEscapes(clauses, Below(|clauses|), false);
    EscapesWhen(Select(clauses));
  }

  lemma TargetEscapes(target: Expr)
    requires target == Paren(FIELD) || target == Index(FIELD) || target == Star(AddrOf(FIELD))
    ensures Escapes(Assign([Lhs(1, target)], []))
  {
    TheWrite(target);
    var lhs := [Lhs(1, target)];
    assert PostureWrites(lhs[1..]) == [] && PostureWrites(lhs) == [];
    hide Escapes, TargetWrites, PostureWrites;
    EscapesWhen(Assign(lhs, []));
  }

  lemma LiteralsEscape()
    ensures Escapes(Assign([Lhs(0, Ident("cfg"))], [THE_WRITE])) && Escapes(Effect([THE_WRITE])) && Escapes(Return([THE_WRITE]))
  {
    var lhs := [Lhs(0, Ident("cfg"))];
    assert PostureWrites(lhs[1..]) == [] && PostureWrites(lhs) == [];
    hide Escapes, TargetWrites, PostureWrites;
    EscapesWhen(Assign(lhs, [THE_WRITE]));
    EscapesWhen(Effect([THE_WRITE]));
    EscapesWhen(Return([THE_WRITE]));
  }

  /** Each of them escapes. */
  lemma HiddenWritesEscape(i: nat)
    requires i < |HiddenForms()|
    ensures Escapes(HiddenForms()[i])
  {
    hide Escapes;
    if i < 8 {
      InitEscapes();
      PostEscapes();
      RangeEscapes();
      TypeSwitchEscapes();
      SelectEscapes();
    } else {
      TargetEscapes(Paren(FIELD));
      TargetEscapes(Index(FIELD));
      TargetEscapes(Star(AddrOf(FIELD)));
      LiteralsEscape();
    }
  }
}
