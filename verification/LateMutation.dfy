/** The `latemutation` analyzer, which reports field writes to a local struct after it was passed by
    value, and an execution model in which the reported writes are shown to be dead stores. */
module LateMutation {

  // ----- Syntax: the fragment without closures, goto and pointer-receiver calls -----

  type Var = string

  datatype Expr =
    | Lit(n: int)
    | Use(x: Var)
    | Field(x: Var, f: string)
    | AddrOf(x: Var)
    | AddrOfField(x: Var, f: string)      // &x.f, or a slice of an array field
    | Plus(left: Expr, right: Expr)
    | Call(fn: string, args: seq<Expr>)

  datatype Stmt =
    | Declare(x: Var, e: Expr)                              // x := e
    | SetVar(x: Var, e: Expr)                               // x = e
    | SetField(x: Var, f: string, compound: bool, e: Expr)  // x.f = e, or x.f += e
    | Eval(e: Expr)
    | Return(e: Expr)
    | Break
    | Continue
    | Block(body: seq<Stmt>)
    | If(cond: Expr, thn: seq<Stmt>, els: seq<Stmt>)
    | Switch(tag: Expr, clauses: seq<Clause>)
    | For(init: seq<Stmt>, cond: Expr, post: seq<Stmt>, body: seq<Stmt>)
    | Range(key: Var, over: Expr, body: seq<Stmt>)          // for key := range over

  datatype Clause = Clause(guard: Expr, body: seq<Stmt>)

  // ----- Source layout: how many positions a node takes up -----

  function ExprLen(e: Expr): nat {
    match e
    case Lit(_) => 1
    case Use(_) => 1
    case Field(_, _) => 2
    case AddrOf(_) => 2
    case AddrOfField(_, _) => 3
    case Plus(l, r) => ExprLen(l) + 1 + ExprLen(r)
    case Call(_, args) => 2 + ArgsLen(args)
  }

  function ArgsLen(args: seq<Expr>): nat {
    if args == [] then 0 else ExprLen(args[0]) + 1 + ArgsLen(args[1..])
  }

  function Len(stmts: seq<Stmt>): nat
    decreases stmts
  {
    if stmts == [] then 0 else StmtLen(stmts[0]) + Len(stmts[1..])
  }

  function StmtLen(s: Stmt): nat
    decreases s
  {
    match s
    case Declare(_, e) => 2 + ExprLen(e)
    case SetVar(_, e) => 2 + ExprLen(e)
    case SetField(_, _, _, e) => 3 + ExprLen(e)
    case Eval(e) => 1 + ExprLen(e)
    case Return(e) => 1 + ExprLen(e)
    case Break => 1
    case Continue => 1
    case Block(body) => 2 + Len(body)
    case If(cond, thn, els) => 1 + ExprLen(cond) + Len(thn) + 1 + Len(els)
    case Switch(tag, clauses) => 1 + ExprLen(tag) + ClausesLen(clauses)
    case For(init, cond, post, body) => BodyAt(s, 0) + Len(body) + 3
    case Range(_, over, body) => BodyAt(s, 0) + Len(body) + 3
  }

  function ClausesLen(clauses: seq<Clause>): nat
    decreases clauses
  {
    if clauses == [] then 0
    else 1 + ExprLen(clauses[0].guard) + Len(clauses[0].body) + ClausesLen(clauses[1..])
  }

  /** The position of a loop's opening brace, for a loop that starts at `at`. */
  function BodyAt(loop: Stmt, at: nat): nat
    requires loop.For? || loop.Range?
    decreases loop, 0
  {
    if loop.For? then at + 1 + Len(loop.init) + ExprLen(loop.cond) + 1 + Len(loop.post)
    else at + 2 + ExprLen(loop.over)
  }

  // ----- Occurrences of variables, by source position -----

  datatype Kind = PassedByValue | FieldWrite | OtherUse

  datatype Event = Event(pos: nat, v: Var, kind: Kind, inLoop: bool)

  /** The occurrences in an expression; `arg` says that it is itself a call argument. */
  function ExprEvents(e: Expr, at: nat, arg: bool, inLoop: bool): set<Event> {
    match e
    case Lit(_) => {}
    case Use(x) => {Event(at, x, if arg then PassedByValue else OtherUse, inLoop)}
    case Field(x, _) => {Event(at, x, OtherUse, inLoop)}
    case AddrOf(x) => {Event(at + 1, x, OtherUse, inLoop)}
    case AddrOfField(x, _) => {Event(at + 1, x, OtherUse, inLoop)}
    case Plus(l, r) => ExprEvents(l, at, false, inLoop) + ExprEvents(r, at + ExprLen(l) + 1, false, inLoop)
    case Call(_, args) => ArgEvents(args, at + 2, inLoop)
  }

  function ArgEvents(args: seq<Expr>, at: nat, inLoop: bool): set<Event> {
    if args == [] then {}
    else ExprEvents(args[0], at, true, inLoop) + ArgEvents(args[1..], at + ExprLen(args[0]) + 1, inLoop)
  }

  function Events(stmts: seq<Stmt>, at: nat, inLoop: bool): set<Event>
    decreases stmts
  {
    if stmts == [] then {}
    else StmtEvents(stmts[0], at, inLoop) + Events(stmts[1..], at + StmtLen(stmts[0]), inLoop)
  }

  /** A field write precedes the occurrences on its own right-hand side; a for statement is visited
      init, condition, post, body. */
  function StmtEvents(s: Stmt, at: nat, inLoop: bool): set<Event>
    decreases s
  {
    match s
    case Declare(_, e) => ExprEvents(e, at + 2, false, inLoop)
    case SetVar(x, e) => {Event(at, x, OtherUse, inLoop)} + ExprEvents(e, at + 2, false, inLoop)
    case SetField(x, _, _, e) => {Event(at, x, FieldWrite, inLoop)} + ExprEvents(e, at + 3, false, inLoop)
    case Eval(e) => ExprEvents(e, at, false, inLoop)
    case Return(e) => ExprEvents(e, at + 1, false, inLoop)
    case Break => {}
    case Continue => {}
    case Block(body) => Events(body, at + 1, inLoop)
    case If(cond, thn, els) =>
      ExprEvents(cond, at + 1, false, inLoop)
      + (Events(thn, at + 1 + ExprLen(cond), inLoop)
         + Events(els, at + 1 + ExprLen(cond) + Len(thn) + 1, inLoop))
    case Switch(tag, clauses) =>
      ExprEvents(tag, at + 1, false, inLoop) + ClauseEvents(clauses, at + 1 + ExprLen(tag), inLoop)
    case For(init, cond, post, body) =>
      var condAt := at + 1 + Len(init);
      Events(init, at + 1, inLoop)
      + (ExprEvents(cond, condAt, false, inLoop)
         + (Events(post, condAt + ExprLen(cond) + 1, inLoop) + Events(body, BodyAt(s, at) + 1, true)))
    case Range(_, over, body) =>
      ExprEvents(over, at + 2, false, inLoop) + Events(body, BodyAt(s, at) + 1, true)
  }

  function ClauseEvents(clauses: seq<Clause>, at: nat, inLoop: bool): set<Event>
    decreases clauses
  {
    if clauses == [] then {}
    else
      var c := clauses[0];
      ExprEvents(c.guard, at + 1, false, inLoop)
      + (Events(c.body, at + 1 + ExprLen(c.guard), inLoop)
         + ClauseEvents(clauses[1..], at + 1 + ExprLen(c.guard) + Len(c.body), inLoop))
  }

  // ----- Variables whose address is taken -----

  function ExprAddrs(e: Expr, fields: bool): set<Var> {
    match e
    case AddrOf(x) => {x}
    case AddrOfField(x, _) => if fields then {x} else {}
    case Plus(l, r) => ExprAddrs(l, fields) + ExprAddrs(r, fields)
    case Call(_, args) => ArgAddrs(args, fields)
    case _ => {}
  }

  function ArgAddrs(args: seq<Expr>, fields: bool): set<Var> {
    if args == [] then {} else ExprAddrs(args[0], fields) + ArgAddrs(args[1..], fields)
  }

  function Addrs(stmts: seq<Stmt>, fields: bool): set<Var>
    decreases stmts
  {
    if stmts == [] then {} else StmtAddrs(stmts[0], fields) + Addrs(stmts[1..], fields)
  }

  function StmtAddrs(s: Stmt, fields: bool): set<Var>
    decreases s
  {
    match s
    case Declare(_, e) => ExprAddrs(e, fields)
    case SetVar(_, e) => ExprAddrs(e, fields)
    case SetField(_, _, _, e) => ExprAddrs(e, fields)
    case Eval(e) => ExprAddrs(e, fields)
    case Return(e) => ExprAddrs(e, fields)
    case Break => {}
    case Continue => {}
    case Block(body) => Addrs(body, fields)
    case If(cond, thn, els) => ExprAddrs(cond, fields) + Addrs(thn, fields) + Addrs(els, fields)
    case Switch(tag, clauses) => ExprAddrs(tag, fields) + ClauseAddrs(clauses, fields)
    case For(init, cond, post, body) => Addrs(init, fields) + ExprAddrs(cond, fields) + Addrs(post, fields) + Addrs(body, fields)
    case Range(_, over, body) => ExprAddrs(over, fields) + Addrs(body, fields)
  }

  function ClauseAddrs(clauses: seq<Clause>, fields: bool): set<Var>
    decreases clauses
  {
    if clauses == [] then {}
    else ExprAddrs(clauses[0].guard, fields) + Addrs(clauses[0].body, fields) + ClauseAddrs(clauses[1..], fields)
  }

  // ----- Loop regions -----

  /** The interval from a loop body's opening brace to just past its closing brace. */
  datatype Region = Region(lo: nat, hi: nat)

  predicate InRegions(regions: set<Region>, pos: nat) {
    exists r | r in regions :: r.lo <= pos <= r.hi
  }

  function Regions(stmts: seq<Stmt>, at: nat): set<Region>
    decreases stmts
  {
    if stmts == [] then {}
    else StmtRegions(stmts[0], at) + Regions(stmts[1..], at + StmtLen(stmts[0]))
  }

  function StmtRegions(s: Stmt, at: nat): set<Region>
    decreases s
  {
    match s
    case Block(body) => Regions(body, at + 1)
    case If(cond, thn, els) =>
      Regions(thn, at + 1 + ExprLen(cond)) + Regions(els, at + 1 + ExprLen(cond) + Len(thn) + 1)
    case Switch(tag, clauses) => ClauseRegions(clauses, at + 1 + ExprLen(tag))
    case For(init, cond, post, body) =>
      {Region(BodyAt(s, at), BodyAt(s, at) + Len(body) + 2)}
      + (Regions(init, at + 1)
         + (Regions(post, at + 1 + Len(init) + ExprLen(cond) + 1) + Regions(body, BodyAt(s, at) + 1)))
    case Range(_, _, body) =>
      {Region(BodyAt(s, at), BodyAt(s, at) + Len(body) + 2)} + Regions(body, BodyAt(s, at) + 1)
    case _ => {}
  }

  function ClauseRegions(clauses: seq<Clause>, at: nat): set<Region>
    decreases clauses
  {
    if clauses == [] then {}
    else
      var c := clauses[0];
      Regions(c.body, at + 1 + ExprLen(c.guard))
      + ClauseRegions(clauses[1..], at + 1 + ExprLen(c.guard) + Len(c.body))
  }

  // ----- Positions and regions fit the layout -----

  /** A stretch of source [lo, hi) with its occurrences and the loop regions in it. */
  datatype Piece = Piece(evs: set<Event>, rs: set<Region>, lo: nat, hi: nat)

  /** An occurrence is in a loop exactly when the whole piece is (`inLoop`) or one of its regions
      covers the position. */
  predicate Fits(p: Piece, inLoop: bool) {
    && p.lo <= p.hi
    && (forall e | e in p.evs :: p.lo <= e.pos < p.hi)
    && (forall r | r in p.rs :: p.lo <= r.lo && r.hi < p.hi)
    && (forall e | e in p.evs :: e.inLoop == (inLoop || InRegions(p.rs, e.pos)))
  }

  lemma JoinPieces(p: Piece, q: Piece, lo: nat, hi: nat, inLoop: bool)
    requires Fits(p, inLoop) && Fits(q, inLoop)
    requires lo <= p.lo && p.hi <= q.lo && q.hi <= hi
    ensures Fits(Piece(p.evs + q.evs, p.rs + q.rs, lo, hi), inLoop)
  {
    forall e | e in p.evs + q.evs
      ensures InRegions(p.rs + q.rs, e.pos) == (InRegions(p.rs, e.pos) || InRegions(q.rs, e.pos))
    {
    }
  }

  lemma WidenPiece(p: Piece, lo: nat, hi: nat, inLoop: bool)
    requires Fits(p, inLoop) && lo <= p.lo && p.hi <= hi
    ensures Fits(Piece(p.evs, p.rs, lo, hi), inLoop)
  {
  }

  /** A loop body between its braces, seen from outside. */
  lemma LoopPiece(p: Piece, inLoop: bool)
    requires Fits(p, true) && p.lo > 0
    ensures Fits(Piece(p.evs, {Region(p.lo - 1, p.hi + 1)} + p.rs, p.lo - 1, p.hi + 2), inLoop)
  {
    assert Region(p.lo - 1, p.hi + 1) in {Region(p.lo - 1, p.hi + 1)} + p.rs;
  }

  function ExprPiece(e: Expr, at: nat, arg: bool, inLoop: bool): Piece {
    Piece(ExprEvents(e, at, arg, inLoop), {}, at, at + ExprLen(e))
  }

  function StmtPiece(s: Stmt, at: nat, inLoop: bool): Piece {
    Piece(StmtEvents(s, at, inLoop), StmtRegions(s, at), at, at + StmtLen(s))
  }

  function ClausesPiece(clauses: seq<Clause>, at: nat, inLoop: bool): Piece {
    Piece(ClauseEvents(clauses, at, inLoop), ClauseRegions(clauses, at), at, at + ClausesLen(clauses))
  }

  function BlockPiece(stmts: seq<Stmt>, at: nat, inLoop: bool): Piece {
    Piece(Events(stmts, at, inLoop), Regions(stmts, at), at, at + Len(stmts))
  }

  lemma BodyEnds(loop: Stmt, at: nat)
    requires loop.For? || loop.Range?
    ensures BodyAt(loop, at) + Len(loop.body) + 3 == at + StmtLen(loop)
  {
  }

  lemma {:induction false} ExprFits(e: Expr, at: nat, arg: bool, inLoop: bool)
    ensures Fits(ExprPiece(e, at, arg, inLoop), inLoop)
  {
    match e {
      case Plus(l, r) =>
        ExprFits(l, at, false, inLoop);
        ExprFits(r, at + ExprLen(l) + 1, false, inLoop);
        JoinPieces(ExprPiece(l, at, false, inLoop), ExprPiece(r, at + ExprLen(l) + 1, false, inLoop),
                   at, at + ExprLen(e), inLoop);
      case Call(_, args) => ArgsFit(args, at + 2, inLoop);
      case _ =>
    }
  }

  lemma {:induction false} ArgsFit(args: seq<Expr>, at: nat, inLoop: bool)
    ensures Fits(Piece(ArgEvents(args, at, inLoop), {}, at, at + ArgsLen(args)), inLoop)
  {
    if args != [] {
      var mid, end := at + ExprLen(args[0]) + 1, at + ArgsLen(args);
      ExprFits(args[0], at, true, inLoop);
      ArgsFit(args[1..], mid, inLoop);
      JoinPieces(ExprPiece(args[0], at, true, inLoop), Piece(ArgEvents(args[1..], mid, inLoop), {}, mid, end),
                 at, end, inLoop);
    }
  }

  lemma {:induction false} BlockFits(stmts: seq<Stmt>, at: nat, inLoop: bool)
    ensures Fits(BlockPiece(stmts, at, inLoop), inLoop)
    decreases stmts
  {
    if stmts != [] {
      var mid, end := at + StmtLen(stmts[0]), at + Len(stmts);
      StmtFits(stmts[0], at, inLoop);
      BlockFits(stmts[1..], mid, inLoop);
      JoinPieces(StmtPiece(stmts[0], at, inLoop), BlockPiece(stmts[1..], mid, inLoop), at, end, inLoop);
    }
  }

  lemma {:induction false} StmtFits(s: Stmt, at: nat, inLoop: bool)
    ensures Fits(StmtPiece(s, at, inLoop), inLoop)
    decreases s
  {
    hide Fits;
    match s {
      case Block(body) =>
        BlockFits(body, at + 1, inLoop);
        WidenPiece(BlockPiece(body, at + 1, inLoop), at, at + StmtLen(s), inLoop);
      case If(cond, thn, els) =>
        BlockFits(thn, at + 1 + ExprLen(cond), inLoop);
        BlockFits(els, at + 1 + ExprLen(cond) + Len(thn) + 1, inLoop);
        IfFits(s, at, inLoop);
      case Switch(tag, clauses) =>
        ClausesFit(clauses, at + 1 + ExprLen(tag), inLoop);
        SwitchFits(s, at, inLoop);
      case For(init, cond, post, body) =>
        BlockFits(init, at + 1, inLoop);
        BlockFits(post, at + 1 + Len(init) + ExprLen(cond) + 1, inLoop);
        BlockFits(body, BodyAt(s, at) + 1, true);
        ForFits(s, at, inLoop);
      case Range(_, over, body) =>
        BlockFits(body, BodyAt(s, at) + 1, true);
        RangeFits(s, at, inLoop);
      case _ => SimpleFits(s, at, inLoop);
    }
  }

  lemma SimpleFits(s: Stmt, at: nat, inLoop: bool)
    requires s.Declare? || s.SetVar? || s.SetField? || s.Eval? || s.Return? || s.Break? || s.Continue?
    ensures Fits(StmtPiece(s, at, inLoop), inLoop)
  {
    if s.Break? || s.Continue? {
    } else if s.Declare? || s.SetVar? {
      ExprFits(s.e, at + 2, false, inLoop);
    } else if s.SetField? {
      ExprFits(s.e, at + 3, false, inLoop);
    } else {
      ExprFits(s.e, if s.Eval? then at else at + 1, false, inLoop);
    }
  }

  lemma IfFits(s: Stmt, at: nat, inLoop: bool)
    requires s.If?
    requires Fits(BlockPiece(s.thn, at + 1 + ExprLen(s.cond), inLoop), inLoop)
    requires Fits(BlockPiece(s.els, at + 1 + ExprLen(s.cond) + Len(s.thn) + 1, inLoop), inLoop)
    ensures Fits(StmtPiece(s, at, inLoop), inLoop)
  {
    hide Fits;
    var thnAt, end := at + 1 + ExprLen(s.cond), at + StmtLen(s);
    ExprFits(s.cond, at + 1, false, inLoop);
    var cond := ExprPiece(s.cond, at + 1, false, inLoop);
    var thn, els := BlockPiece(s.thn, thnAt, inLoop), BlockPiece(s.els, thnAt + Len(s.thn) + 1, inLoop);
    JoinPieces(thn, els, thnAt, end, inLoop);
    JoinPieces(cond, Piece(thn.evs + els.evs, thn.rs + els.rs, thnAt, end), at, end, inLoop);
    assert {} + (thn.rs + els.rs) == StmtRegions(s, at);
  }

  lemma SwitchFits(s: Stmt, at: nat, inLoop: bool)
    requires s.Switch?
    requires Fits(ClausesPiece(s.clauses, at + 1 + ExprLen(s.tag), inLoop), inLoop)
    ensures Fits(StmtPiece(s, at, inLoop), inLoop)
  {
    hide Fits;
    ExprFits(s.tag, at + 1, false, inLoop);
    JoinPieces(ExprPiece(s.tag, at + 1, false, inLoop), ClausesPiece(s.clauses, at + 1 + ExprLen(s.tag), inLoop),
               at, at + StmtLen(s), inLoop);
    assert {} + StmtRegions(s, at) == StmtRegions(s, at);
  }

  lemma RangeFits(s: Stmt, at: nat, inLoop: bool)
    requires s.Range?
    requires Fits(BlockPiece(s.body, BodyAt(s, at) + 1, true), true)
    ensures Fits(StmtPiece(s, at, inLoop), inLoop)
  {
    hide Fits;
    var bodyAt, end := BodyAt(s, at), at + StmtLen(s);
    BodyEnds(s, at);
    ExprFits(s.over, at + 2, false, inLoop);
    LoopPiece(BlockPiece(s.body, bodyAt + 1, true), inLoop);
    JoinPieces(ExprPiece(s.over, at + 2, false, inLoop),
               Piece(Events(s.body, bodyAt + 1, true), StmtRegions(s, at), bodyAt, end), at, end, inLoop);
    assert {} + StmtRegions(s, at) == StmtRegions(s, at);
  }

  // A for statement from its post statement on: in source order the post statement comes first.
  lemma ForTailFits(s: Stmt, at: nat, inLoop: bool)
    requires s.For?
    requires Fits(BlockPiece(s.post, PostAt(s, at), inLoop), inLoop)
    requires Fits(BlockPiece(s.body, BodyAt(s, at) + 1, true), true)
    ensures Fits(ForTail(s, at, inLoop), inLoop)
  {
    hide Fits;
    var end, bodyAt := at + StmtLen(s), BodyAt(s, at);
    var body := BlockPiece(s.body, bodyAt + 1, true);
    BodyEnds(s, at);
    LoopPiece(body, inLoop);
    var braced := Piece(body.evs, {Region(bodyAt, bodyAt + Len(s.body) + 2)} + body.rs, bodyAt, end);
    JoinPieces(BlockPiece(s.post, PostAt(s, at), inLoop), braced, PostAt(s, at), end, inLoop);
  }

  function PostAt(s: Stmt, at: nat): nat
    requires s.For?
  {
    at + 1 + Len(s.init) + ExprLen(s.cond) + 1
  }

  ghost function ForTail(s: Stmt, at: nat, inLoop: bool): Piece
    requires s.For?
  {
    var bodyAt := BodyAt(s, at);
    var post, body := BlockPiece(s.post, PostAt(s, at), inLoop), BlockPiece(s.body, bodyAt + 1, true);
    Piece(post.evs + body.evs, post.rs + ({Region(bodyAt, bodyAt + Len(s.body) + 2)} + body.rs),
          PostAt(s, at), at + StmtLen(s))
  }

  lemma ForFits(s: Stmt, at: nat, inLoop: bool)
    requires s.For?
    requires Fits(BlockPiece(s.init, at + 1, inLoop), inLoop)
    requires Fits(BlockPiece(s.post, PostAt(s, at), inLoop), inLoop)
    requires Fits(BlockPiece(s.body, BodyAt(s, at) + 1, true), true)
    ensures Fits(StmtPiece(s, at, inLoop), inLoop)
  {
    hide Fits;
    var end, condAt := at + StmtLen(s), at + 1 + Len(s.init);
    ForTailFits(s, at, inLoop);
    var tail := ForTail(s, at, inLoop);
    var cond := ExprPiece(s.cond, condAt, false, inLoop);
    ExprFits(s.cond, condAt, false, inLoop);
    JoinPieces(cond, tail, condAt, end, inLoop);
    var init := BlockPiece(s.init, at + 1, inLoop);
    JoinPieces(init, Piece(cond.evs + tail.evs, cond.rs + tail.rs, condAt, end), at, end, inLoop);
    assert init.rs + ({} + tail.rs) == StmtRegions(s, at);
  }

  lemma {:induction false} ClausesFit(clauses: seq<Clause>, at: nat, inLoop: bool)
    ensures Fits(ClausesPiece(clauses, at, inLoop), inLoop)
    decreases clauses
  {
    if clauses != [] {
      var c := clauses[0];
      var bodyAt := at + 1 + ExprLen(c.guard);
      var restAt, end := bodyAt + Len(c.body), at + ClausesLen(clauses);
      ExprFits(c.guard, at + 1, false, inLoop);
      BlockFits(c.body, bodyAt, inLoop);
      ClausesFit(clauses[1..], restAt, inLoop);
      var body, rest := BlockPiece(c.body, bodyAt, inLoop), ClausesPiece(clauses[1..], restAt, inLoop);
      JoinPieces(body, rest, bodyAt, end, inLoop);
      JoinPieces(ExprPiece(c.guard, at + 1, false, inLoop), Piece(body.evs + rest.evs, body.rs + rest.rs, bodyAt, end),
                 at, end, inLoop);
      assert {} + ClauseRegions(clauses, at) == ClauseRegions(clauses, at);
    }
  }

  // ----- Execution -----

  datatype Value = Num(n: int) | Rec(fields: map<string, Value>) | Ref(x: Var)

  /** A call as its environment sees it: the arguments, and every variable it can reach. */
  datatype CallEvent = CallEvent(fn: string, args: seq<Value>, visible: map<Var, Value>)

  datatype Reply = Reply(result: Value, updates: map<Var, Value>)

  /** The environment answers each call, given all calls so far, with a result and new values for
      the variables it can reach. */
  type World = seq<CallEvent> -> Reply

  /** `escaped` holds the variables that calls can reach: package variables, and every variable
      whose address, or the address of one of whose fields, was taken. */
  datatype State = State(store: map<Var, Value>, escaped: set<Var>, trace: seq<CallEvent>)

  datatype Valued = Valued(v: Value, st: State)

  datatype ManyValued = ManyValued(vs: seq<Value>, st: State)

  function Get(st: State, x: Var): Value {
    if x in st.store then st.store[x] else Num(0)
  }

  function GetField(v: Value, f: string): Value {
    if v.Rec? && f in v.fields then v.fields[f] else Num(0)
  }

  function SetFieldOf(v: Value, f: string, new_: Value): Value {
    if v.Rec? then Rec(v.fields[f := new_]) else Rec(map[f := new_])
  }

  function Add(a: Value, b: Value): Value {
    if a.Num? && b.Num? then Num(a.n + b.n) else Num(0)
  }

  function Visible(st: State): map<Var, Value> {
    map x | x in st.escaped :: Get(st, x)
  }

  function EvalExpr(e: Expr, st: State, w: World): Valued {
    match e
    case Lit(n) => Valued(Num(n), st)
    case Use(x) => Valued(Get(st, x), st)
    case Field(x, f) => Valued(GetField(Get(st, x), f), st)
    case AddrOf(x) => Valued(Ref(x), st.(escaped := st.escaped + {x}))
    case AddrOfField(x, _) => Valued(Ref(x), st.(escaped := st.escaped + {x}))
    case Plus(l, r) =>
      var left := EvalExpr(l, st, w);
      var right := EvalExpr(r, left.st, w);
      Valued(Add(left.v, right.v), right.st)
    case Call(fn, args) => Perform(fn, EvalArgs(args, st, w), w)
  }

  function EvalArgs(args: seq<Expr>, st: State, w: World): ManyValued {
    if args == [] then ManyValued([], st)
    else
      var first := EvalExpr(args[0], st, w);
      var rest := EvalArgs(args[1..], first.st, w);
      ManyValued([first.v] + rest.vs, rest.st)
  }

  function Perform(fn: string, args: ManyValued, w: World): Valued {
    var st := args.st;
    var trace := st.trace + [CallEvent(fn, args.vs, Visible(st))];
    var reply := w(trace);
    var changed := map x | x in reply.updates && x in st.escaped :: reply.updates[x];
    Valued(reply.result, State(st.store + changed, st.escaped, trace))
  }

  datatype Outcome = Normal | Broke | Continued | Returned(v: Value) | OutOfFuel

  datatype Run = Run(outcome: Outcome, st: State)

  function Set(st: State, x: Var, v: Value): State {
    st.(store := st.store[x := v])
  }

  function Exec(stmts: seq<Stmt>, st: State, w: World, fuel: nat): Run
    decreases fuel, stmts, 1
  {
    if stmts == [] then Run(Normal, st)
    else
      var first := ExecStmt(stmts[0], st, w, fuel);
      if first.outcome.Normal? then Exec(stmts[1..], first.st, w, fuel) else first
  }

  function ExecStmt(s: Stmt, st: State, w: World, fuel: nat): Run
    decreases fuel, s, 1
  {
    match s
    case Declare(x, e) => var r := EvalExpr(e, st, w); Run(Normal, Set(r.st, x, r.v))
    case SetVar(x, e) => var r := EvalExpr(e, st, w); Run(Normal, Set(r.st, x, r.v))
    case SetField(x, f, compound, e) =>
      var r := EvalExpr(e, st, w);
      var old_ := Get(r.st, x);
      Run(Normal, Set(r.st, x, SetFieldOf(old_, f, if compound then Add(GetField(old_, f), r.v) else r.v)))
    case Eval(e) => Run(Normal, EvalExpr(e, st, w).st)
    case Return(e) => var r := EvalExpr(e, st, w); Run(Returned(r.v), r.st)
    case Break => Run(Broke, st)
    case Continue => Run(Continued, st)
    case Block(body) => Exec(body, st, w, fuel)
    case If(cond, thn, els) =>
      var r := EvalExpr(cond, st, w);
      if r.v != Num(0) then Exec(thn, r.st, w, fuel) else Exec(els, r.st, w, fuel)
    case Switch(tag, clauses) =>
      var r := EvalExpr(tag, st, w);
      var run := ExecClauses(r.v, clauses, r.st, w, fuel);
      if run.outcome.Broke? then run.(outcome := Normal) else run
    case For(init, cond, post, body) =>
      var first := Exec(init, st, w, fuel);
      if first.outcome.Normal? then ExecFor(cond, post, body, first.st, w, fuel) else first
    case Range(key, over, body) =>
      var r := EvalExpr(over, st, w);
      ExecRange(key, 0, if r.v.Num? then r.v.n else 0, body, r.st, w, fuel)
  }

  function ExecClauses(v: Value, clauses: seq<Clause>, st: State, w: World, fuel: nat): Run
    decreases fuel, clauses, 1
  {
    if clauses == [] then Run(Normal, st)
    else
      var g := EvalExpr(clauses[0].guard, st, w);
      if g.v == v then Exec(clauses[0].body, g.st, w, fuel) else ExecClauses(v, clauses[1..], g.st, w, fuel)
  }

  function ExecFor(cond: Expr, post: seq<Stmt>, body: seq<Stmt>, st: State, w: World, fuel: nat): Run
    decreases fuel, body, 2
  {
    if fuel == 0 then Run(OutOfFuel, st)
    else
      var test := EvalExpr(cond, st, w);
      if test.v == Num(0) then Run(Normal, test.st)
      else
        var run := Exec(body, test.st, w, fuel - 1);
        if run.outcome.Broke? then run.(outcome := Normal)
        else if !run.outcome.Normal? && !run.outcome.Continued? then run
        else
          var step := Exec(post, run.st, w, fuel - 1);
          if step.outcome.Normal? then ExecFor(cond, post, body, step.st, w, fuel - 1) else step
  }

  function ExecRange(key: Var, i: int, n: int, body: seq<Stmt>, st: State, w: World, fuel: nat): Run
    decreases fuel, body, 2
  {
    if fuel == 0 then Run(OutOfFuel, st)
    else if i >= n then Run(Normal, st)
    else
      var run := Exec(body, Set(st, key, Num(i)), w, fuel - 1);
      if run.outcome.Broke? then run.(outcome := Normal)
      else if !run.outcome.Normal? && !run.outcome.Continued? then run
      else ExecRange(key, i + 1, n, body, run.st, w, fuel - 1)
  }

  // ----- What executions do, spelled out -----

  /** Fields hold what was last written to them, and nothing at first. */
  lemma FieldsHold(v: Value, f: string, g: string, new_: Value, a: int, b: int)
    ensures GetField(SetFieldOf(v, f, new_), g) == if f == g then new_ else GetField(v, g)
    ensures GetField(Num(a), f) == Num(0) && Add(Num(a), Num(b)) == Num(a + b)
  {
  }

  /** A callee sees and changes a variable whose address it is given. */
  lemma CalleesReachAddresses(fn: string, x: Var, v: Value, st: State, w: World)
    requires forall t :: w(t) == Reply(Num(0), map[x := v])
    ensures var after := EvalExpr(Call(fn, [AddrOf(x)]), st, w).st;
            && Get(after, x) == v && x in after.escaped
            && after.trace == st.trace + [CallEvent(fn, [Ref(x)], Visible(st.(escaped := st.escaped + {x})))]
  {
    hide Visible;
    assert [AddrOf(x)][1..] == [];
    var known := st.(escaped := st.escaped + {x});
    assert EvalArgs([], known, w) == ManyValued([], known);
    assert EvalArgs([AddrOf(x)], st, w) == ManyValued([Ref(x)], known);
  }

  /** Of a variable that is passed by value it has a copy and no more. */
  lemma CalleesGetCopies(fn: string, x: Var, v: Value, st: State, w: World)
    requires x !in st.escaped && forall t :: w(t) == Reply(Num(0), map[x := v])
    ensures var after := EvalExpr(Call(fn, [Use(x)]), st, w).st;
            && Get(after, x) == Get(st, x) && x !in after.escaped
            && after.trace == st.trace + [CallEvent(fn, [Get(st, x)], Visible(st))]
  {
    hide Visible;
    assert [Use(x)][1..] == [];
    assert EvalArgs([], st, w) == ManyValued([], st);
    assert EvalArgs([Use(x)], st, w) == ManyValued([Get(st, x)], st);
  }

  /** A switch runs the first clause whose guard equals the tag, and only that one. */
  lemma SwitchTakesFirst(n: int, a: int, b: int, one: seq<Stmt>, two: seq<Stmt>, st: State, w: World, fuel: nat)
    requires Exec(one, st, w, fuel).outcome.Normal? && Exec(two, st, w, fuel).outcome.Normal?
    ensures ExecStmt(Switch(Lit(n), [Clause(Lit(a), one), Clause(Lit(b), two)]), st, w, fuel)
         == if n == a then Exec(one, st, w, fuel) else if n == b then Exec(two, st, w, fuel) else Run(Normal, st)
  {
    hide Exec;
    var clauses := [Clause(Lit(a), one), Clause(Lit(b), two)];
    assert clauses[1..] == [Clause(Lit(b), two)] && clauses[1..][1..] == [];
    assert forall k: int :: EvalExpr(Lit(k), st, w) == Valued(Num(k), st);
    assert ExecClauses(Num(n), [], st, w, fuel) == Run(Normal, st);
    assert ExecClauses(Num(n), clauses[1..], st, w, fuel) == if n == b then Exec(two, st, w, fuel) else Run(Normal, st);
  }

  /** A range loop sets its key to one number after another. */
  lemma {:induction false} RangeSetsKey(key: Var, i: int, n: int, body: seq<Stmt>, st: State, w: World, fuel: nat)
    requires 0 <= i <= n && fuel > n - i && body == [SetVar("sum", Plus(Use("sum"), Use(key)))] && key != "sum"
    requires Get(st, "sum").Num?
    ensures var run := ExecRange(key, i, n, body, st, w, fuel);
            run.outcome == Normal && Get(run.st, "sum") == Num(Get(st, "sum").n + (n * (n - 1) - i * (i - 1)) / 2)
    decreases n - i
  {
    if i < n {
      var at := Set(st, key, Num(i));
      assert body[1..] == [];
      var next := Set(at, "sum", Num(Get(st, "sum").n + i));
      assert EvalExpr(Plus(Use("sum"), Use(key)), at, w) == Valued(Num(Get(st, "sum").n + i), at);
      assert ExecStmt(body[0], at, w, fuel - 1) == Run(Normal, next);
      assert Exec([], next, w, fuel - 1) == Run(Normal, next);
      assert Exec(body, at, w, fuel - 1) == Run(Normal, next);
      hide Exec, ExecStmt, EvalExpr;
      RangeSetsKey(key, i + 1, n, body, next, w, fuel - 1);
      SumStep(i, n);
    }
  }

  lemma SumStep(i: int, n: int)
    ensures i + (n * (n - 1) - (i + 1) * i) / 2 == (n * (n - 1) - i * (i - 1)) / 2
  {
    assert (i + 1) * i == i * (i - 1) + 2 * i;
  }

  // ----- Removing writes -----

  /** Replaces the field writes among `drop` by the evaluation of their right-hand sides. */
  function Drop(stmts: seq<Stmt>, at: nat, inLoop: bool, drop: set<Event>): seq<Stmt>
    decreases stmts
  {
    if stmts == [] then []
    else [DropIn(stmts[0], at, inLoop, drop)] + Drop(stmts[1..], at + StmtLen(stmts[0]), inLoop, drop)
  }

  function DropIn(s: Stmt, at: nat, inLoop: bool, drop: set<Event>): Stmt
    decreases s
  {
    match s
    case SetField(x, _, _, e) => if Event(at, x, FieldWrite, inLoop) in drop then Eval(e) else s
    case Block(body) => Block(Drop(body, at + 1, inLoop, drop))
    case If(cond, thn, els) =>
      If(cond, Drop(thn, at + 1 + ExprLen(cond), inLoop, drop),
         Drop(els, at + 1 + ExprLen(cond) + Len(thn) + 1, inLoop, drop))
    case Switch(tag, clauses) => Switch(tag, DropClauses(clauses, at + 1 + ExprLen(tag), inLoop, drop))
    case For(init, cond, post, body) =>
      For(Drop(init, at + 1, inLoop, drop), cond,
          Drop(post, at + 1 + Len(init) + ExprLen(cond) + 1, inLoop, drop),
          Drop(body, BodyAt(s, at) + 1, true, drop))
    case Range(key, over, body) => Range(key, over, Drop(body, BodyAt(s, at) + 1, true, drop))
    case _ => s
  }

  function DropClauses(clauses: seq<Clause>, at: nat, inLoop: bool, drop: set<Event>): seq<Clause>
    decreases clauses
  {
    if clauses == [] then []
    else
      var c := clauses[0];
      var bodyAt := at + 1 + ExprLen(c.guard);
      [Clause(c.guard, Drop(c.body, bodyAt, inLoop, drop))]
      + DropClauses(clauses[1..], bodyAt + Len(c.body), inLoop, drop)
  }

  // ----- The analyzer's verdict -----

  /** What the type checker knows about an object. */
  datatype VarInfo = VarInfo(isField: bool, pos: nat, isStruct: bool)

  predicate Candidate(info: VarInfo, bodyLo: nat, bodyHi: nat) {
    !info.isField && bodyLo <= info.pos <= bodyHi && info.isStruct
  }

  /** A write to a variable that was passed by value before it and only written after it, outside
      loop bodies. */
  predicate WriteIsLost(evs: set<Event>, e: Event) {
    && e in evs && e.kind.FieldWrite? && !e.inLoop
    && (exists p | p in evs :: p.v == e.v && p.kind.PassedByValue? && p.pos < e.pos)
    && (forall n | n in evs && n.v == e.v && n.pos > e.pos :: n.kind.FieldWrite?)
  }

  /** The writes reported for a function body, among the candidate objects `locals`. */
  function Reported(body: seq<Stmt>, at: nat, locals: set<Var>): set<Event> {
    var evs := Events(body, at, false);
    set e | e in evs && e.v in locals && e.v !in Addrs(body, false) && WriteIsLost(evs, e)
  }

  /** The writes reported for a function body that starts at `at`, given what is known of the objects. */
  function Reports(body: seq<Stmt>, at: nat, objects: map<Var, VarInfo>): set<Event> {
    Reported(body, at, set v | v in objects && Candidate(objects[v], at, at + Len(body)))
  }

  // ----- The analyzer's loops -----

  /** An identifier as the source-order walk meets it, before the loop test. */
  datatype Occurrence = Occurrence(pos: nat, v: Var, kind: Kind)

  /** `occs` lists the occurrences of `evs` in source order. */
  predicate InSourceOrder(occs: seq<Occurrence>, evs: set<Event>) {
    && (forall i, j | 0 <= i < j < |occs| :: occs[i].pos < occs[j].pos)
    && (forall o | o in occs :: exists e | e in evs :: o == Occurrence(e.pos, e.v, e.kind))
    && (forall e | e in evs :: Occurrence(e.pos, e.v, e.kind) in occs)
  }

  predicate LateWriteIsLost(hasEarlierPass: bool, hasLaterUse: bool, inLoop: bool) {
    hasEarlierPass && !hasLaterUse && !inLoop
  }

  /** The events of one variable, tagged by the region test. */
  function Stream(occs: seq<Occurrence>, v: Var, regions: set<Region>): seq<Event> {
    if occs == [] then []
    else
      var front, o := Stream(occs[..|occs| - 1], v, regions), occs[|occs| - 1];
      if o.v == v then front + [Event(o.pos, o.v, o.kind, InRegions(regions, o.pos))] else front
  }

  /** The region test says of every occurrence whether a loop body lexically encloses it. */
  lemma RegionTestIsLexical(body: seq<Stmt>, at: nat)
    ensures forall e | e in Events(body, at, false) :: e.inLoop == InRegions(Regions(body, at), e.pos)
  {
    BlockFits(body, at, false);
  }

  lemma {:induction false} StreamMembers(occs: seq<Occurrence>, v: Var, regions: set<Region>)
    requires forall i, j | 0 <= i < j < |occs| :: occs[i].pos < occs[j].pos
    ensures var evs := Stream(occs, v, regions);
            && (forall i, j | 0 <= i < j < |evs| :: evs[i].pos < evs[j].pos)
            && (forall e | e in evs :: e.v == v && Occurrence(e.pos, v, e.kind) in occs && e.inLoop == InRegions(regions, e.pos))
            && (forall o | o in occs && o.v == v :: Event(o.pos, v, o.kind, InRegions(regions, o.pos)) in evs)
  {
    if occs != [] {
      var front := occs[..|occs| - 1];
      StreamMembers(front, v, regions);
      assert occs == front + [occs[|occs| - 1]];
      assert forall e | e in Stream(front, v, regions) :: Occurrence(e.pos, v, e.kind) in front;
      assert forall o | o in front :: o.pos < occs[|occs| - 1].pos;
    }
  }

  /** Collects the event stream of every candidate variable. */
  method CollectStreams(occs: seq<Occurrence>, locals: set<Var>, loops: set<Region>)
    returns (events: map<Var, seq<Event>>)
    ensures forall v :: v in events <==> v in locals && Stream(occs, v, loops) != []
    ensures forall v | v in events :: events[v] == Stream(occs, v, loops)
  {
    events := map[];
    for i := 0 to |occs|
      invariant forall v :: v in events <==> v in locals && Stream(occs[..i], v, loops) != []
      invariant forall v | v in events :: events[v] == Stream(occs[..i], v, loops)
    {
      var o := occs[i];
      assert occs[..i + 1][..i] == occs[..i];
      if o.v in locals {
        var sofar := if o.v in events then events[o.v] else [];
        events := events[o.v := sofar + [Event(o.pos, o.v, o.kind, InRegions(loops, o.pos))]];
      }
    }
    assert occs[..|occs|] == occs;
  }

  /** Scans the stream of every candidate whose address is not taken. */
  method CheckLatemutationFunc(body: seq<Stmt>, at: nat, objects: map<Var, VarInfo>, occs: seq<Occurrence>)
    returns (reports: set<Event>)
    requires InSourceOrder(occs, Events(body, at, false))
    ensures reports == Reports(body, at, objects)
    ensures forall e :: e in reports <==>
      && WriteIsLost(Events(body, at, false), e) && e.v !in Addrs(body, false)
      && e.v in objects && !objects[e.v].isField && objects[e.v].isStruct && at <= objects[e.v].pos <= at + Len(body)
  {
    var loops, addressTaken := Regions(body, at), Addrs(body, false);
    var locals := set v | v in objects && Candidate(objects[v], at, at + Len(body));
    var events := CollectStreams(occs, locals, loops);
    reports := {};
    var todo := events.Keys;
    while todo != {}
      invariant todo <= events.Keys
      invariant forall e :: e in reports <==> e in Reported(body, at, locals) && e.v in events.Keys - todo
      decreases todo
    {
      var obj :| obj in todo;
      if obj !in addressTaken {
        var lost := ScanStream(body, at, occs, obj, events[obj]);
        reports := reports + lost;
      }
      todo := todo - {obj};
    }
    forall e | e in Reported(body, at, locals)
      ensures e.v in events
    {
      StreamIsExact(body, at, occs, e.v);
    }
  }

  /** The stream of a variable is its part of the events. */
  lemma StreamIsExact(body: seq<Stmt>, at: nat, occs: seq<Occurrence>, v: Var)
    requires InSourceOrder(occs, Events(body, at, false))
    ensures var evs := Events(body, at, false);
            forall e :: e in Stream(occs, v, Regions(body, at)) <==> e in evs && e.v == v
  {
    var evs, regions := Events(body, at, false), Regions(body, at);
    RegionTestIsLexical(body, at);
    StreamMembers(occs, v, regions);
    forall e | e in Stream(occs, v, regions)
      ensures e in evs && e.v == v
    {
      var o := Occurrence(e.pos, v, e.kind);
      var e' :| e' in evs && o == Occurrence(e'.pos, e'.v, e'.kind);
      assert e' == e;
    }
    forall e | e in evs && e.v == v
      ensures e in Stream(occs, v, regions)
    {
      assert Occurrence(e.pos, e.v, e.kind) in occs;
    }
  }

  /** What one stream's scan may report. */
  predicate LostIn(evs: seq<Event>, i: nat)
    requires i < |evs|
  {
    && evs[i].kind.FieldWrite?
    && LateWriteIsLost(exists j :: 0 <= j < i && evs[j].kind.PassedByValue?,
                       exists j :: i < j < |evs| && !evs[j].kind.FieldWrite?, evs[i].inLoop)
  }

  lemma StreamVerdict(all: set<Event>, evs: seq<Event>, v: Var)
    requires forall e :: e in evs <==> e in all && e.v == v
    requires forall i, j | 0 <= i < j < |evs| :: evs[i].pos < evs[j].pos
    ensures forall i | 0 <= i < |evs| :: LostIn(evs, i) == WriteIsLost(all, evs[i])
  {
    forall i | 0 <= i < |evs|
      ensures LostIn(evs, i) == WriteIsLost(all, evs[i])
    {
      PassesBefore(all, evs, v, i);
      OtherUsesAfter(all, evs, v, i);
    }
  }

  lemma PassesBefore(all: set<Event>, evs: seq<Event>, v: Var, i: nat)
    requires forall e :: e in evs <==> e in all && e.v == v
    requires forall i, j | 0 <= i < j < |evs| :: evs[i].pos < evs[j].pos
    requires i < |evs|
    ensures (exists p | p in all :: p.v == v && p.kind.PassedByValue? && p.pos < evs[i].pos)
       <==> exists j | 0 <= j < i :: evs[j].kind.PassedByValue?
  {
    if p :| p in all && p.v == v && p.kind.PassedByValue? && p.pos < evs[i].pos {
      var j :| 0 <= j < |evs| && evs[j] == p;
      assert j < i;
    }
    if j :| 0 <= j < i && evs[j].kind.PassedByValue? {
      assert evs[j] in evs && evs[j].pos < evs[i].pos;
    }
  }

  lemma OtherUsesAfter(all: set<Event>, evs: seq<Event>, v: Var, i: nat)
    requires forall e :: e in evs <==> e in all && e.v == v
    requires forall i, j | 0 <= i < j < |evs| :: evs[i].pos < evs[j].pos
    requires i < |evs|
    ensures (exists n | n in all :: n.v == v && n.pos > evs[i].pos && !n.kind.FieldWrite?)
       <==> exists j | i < j < |evs| :: !evs[j].kind.FieldWrite?
  {
    if n :| n in all && n.v == v && n.pos > evs[i].pos && !n.kind.FieldWrite? {
      var j :| 0 <= j < |evs| && evs[j] == n;
      assert j > i;
    }
    if j :| i < j < |evs| && !evs[j].kind.FieldWrite? {
      assert evs[j] in evs && evs[j].pos > evs[i].pos;
    }
  }

  method ScanStream(ghost body: seq<Stmt>, ghost at: nat, ghost occs: seq<Occurrence>, ghost v: Var, evs: seq<Event>)
    returns (lost: set<Event>)
    requires InSourceOrder(occs, Events(body, at, false)) && evs == Stream(occs, v, Regions(body, at))
    ensures forall e :: e in lost <==> e.v == v && WriteIsLost(Events(body, at, false), e)
  {
    lost := {};
    for i := 0 to |evs|
      invariant lost == set k | 0 <= k < i && LostIn(evs, k) :: evs[k]
    {
      if evs[i].kind.FieldWrite? {
        var hasEarlierPass := false;
        for j := 0 to i
          invariant hasEarlierPass == exists k :: 0 <= k < j && evs[k].kind.PassedByValue?
        {
          if evs[j].kind.PassedByValue? {
            hasEarlierPass := true;
            break;
          }
        }
        var hasLaterUse := false;
        for j := i + 1 to |evs|
          invariant hasLaterUse == exists k :: i < k < j && !evs[k].kind.FieldWrite?
        {
          if !evs[j].kind.FieldWrite? {
            hasLaterUse := true;
            break;
          }
        }
        if LateWriteIsLost(hasEarlierPass, hasLaterUse, evs[i].inLoop) {
          lost := lost + {evs[i]};
        }
      }
    }
    StreamIsExact(body, at, occs, v);
    StreamMembers(occs, v, Regions(body, at));
    StreamVerdict(Events(body, at, false), evs, v);
  }

  // ----- Simulation -----

  /** The states agree on everything but the variables in `lost`, which no call can reach. */
  ghost predicate Agree(s1: State, s2: State, lost: set<Var>) {
    && s1.trace == s2.trace
    && s1.escaped == s2.escaped
    && s1.escaped !! lost
    && forall x | x !in lost :: Get(s1, x) == Get(s2, x)
  }

  /** The variables in `lost` are only ever written. */
  predicate OnlyWritten(evs: set<Event>, lost: set<Var>) {
    forall e | e in evs && e.v in lost :: e.kind.FieldWrite?
  }

  lemma {:induction false} ExprSim(e: Expr, at: nat, arg: bool, inLoop: bool, lost: set<Var>, reach: set<Var>,
                                   s1: State, s2: State, w: World)
    requires Agree(s1, s2, lost) && OnlyWritten(ExprEvents(e, at, arg, inLoop), lost)
    requires s1.escaped <= reach && ExprAddrs(e, true) <= reach && reach !! lost
    ensures EvalExpr(e, s1, w).v == EvalExpr(e, s2, w).v
    ensures Agree(EvalExpr(e, s1, w).st, EvalExpr(e, s2, w).st, lost)
    ensures EvalExpr(e, s1, w).st.escaped <= reach
  {
    match e {
      case Use(x) => assert Event(at, x, if arg then PassedByValue else OtherUse, inLoop) in ExprEvents(e, at, arg, inLoop);
      case Field(x, _) => assert Event(at, x, OtherUse, inLoop) in ExprEvents(e, at, arg, inLoop);
      case Plus(l, r) =>
        ExprSim(l, at, false, inLoop, lost, reach, s1, s2, w);
        ExprSim(r, at + ExprLen(l) + 1, false, inLoop, lost, reach, EvalExpr(l, s1, w).st, EvalExpr(l, s2, w).st, w);
      case Call(fn, args) =>
        ArgsSim(args, at + 2, inLoop, lost, reach, s1, s2, w);
        assert Visible(EvalArgs(args, s1, w).st) == Visible(EvalArgs(args, s2, w).st);
      case _ =>
    }
  }

  lemma {:induction false} ArgsSim(args: seq<Expr>, at: nat, inLoop: bool, lost: set<Var>, reach: set<Var>,
                                   s1: State, s2: State, w: World)
    requires Agree(s1, s2, lost) && OnlyWritten(ArgEvents(args, at, inLoop), lost)
    requires s1.escaped <= reach && ArgAddrs(args, true) <= reach && reach !! lost
    ensures EvalArgs(args, s1, w).vs == EvalArgs(args, s2, w).vs
    ensures Agree(EvalArgs(args, s1, w).st, EvalArgs(args, s2, w).st, lost)
    ensures EvalArgs(args, s1, w).st.escaped <= reach
  {
    if args != [] {
      ExprSim(args[0], at, true, inLoop, lost, reach, s1, s2, w);
      ArgsSim(args[1..], at + ExprLen(args[0]) + 1, inLoop, lost, reach,
              EvalExpr(args[0], s1, w).st, EvalExpr(args[0], s2, w).st, w);
    }
  }

  /** What is known of the writes to be dropped within a piece of source. */
  predicate Droppable(evs: set<Event>, drop: set<Event>) {
    forall e | e in evs && e in drop ::
      e.kind.FieldWrite? && !e.inLoop && forall n | n in evs && n.v == e.v && n.pos > e.pos :: n.kind.FieldWrite?
  }

  function DroppedVars(evs: set<Event>, drop: set<Event>): set<Var> {
    set e | e in evs && e in drop :: e.v
  }

  /** No for statement reads, in its condition or post statement, a variable whose write is dropped
      from that post statement.  (A post statement runs after a body that follows it in the source,
      and is not itself inside the loop region.) */
  predicate PostsClear(stmts: seq<Stmt>, at: nat, inLoop: bool, drop: set<Event>)
    decreases stmts
  {
    stmts == []
    || (PostClear(stmts[0], at, inLoop, drop) && PostsClear(stmts[1..], at + StmtLen(stmts[0]), inLoop, drop))
  }

  predicate PostClear(s: Stmt, at: nat, inLoop: bool, drop: set<Event>)
    decreases s
  {
    match s
    case Block(body) => PostsClear(body, at + 1, inLoop, drop)
    case If(cond, thn, els) =>
      && PostsClear(thn, at + 1 + ExprLen(cond), inLoop, drop)
      && PostsClear(els, at + 1 + ExprLen(cond) + Len(thn) + 1, inLoop, drop)
    case Switch(tag, clauses) => ClausePostsClear(clauses, at + 1 + ExprLen(tag), inLoop, drop)
    case For(init, cond, post, body) =>
      var condAt := at + 1 + Len(init);
      var postAt := condAt + ExprLen(cond) + 1;
      && PostsClear(init, at + 1, inLoop, drop)
      && PostsClear(post, postAt, inLoop, drop)
      && PostsClear(body, BodyAt(s, at) + 1, true, drop)
      && OnlyWritten(ExprEvents(cond, condAt, false, inLoop) + Events(post, postAt, inLoop),
                     DroppedVars(Events(post, postAt, inLoop), drop))
    case Range(_, _, body) => PostsClear(body, BodyAt(s, at) + 1, true, drop)
    case _ => true
  }

  predicate ClausePostsClear(clauses: seq<Clause>, at: nat, inLoop: bool, drop: set<Event>)
    decreases clauses
  {
    clauses == []
    || (var bodyAt := at + 1 + ExprLen(clauses[0].guard);
        && PostsClear(clauses[0].body, bodyAt, inLoop, drop)
        && ClausePostsClear(clauses[1..], bodyAt + Len(clauses[0].body), inLoop, drop))
  }

  /** No for statement has a post statement. */
  predicate HasNoPosts(stmts: seq<Stmt>)
    decreases stmts
  {
    forall s | s in stmts :: HasNoPost(s)
  }

  predicate HasNoPost(s: Stmt)
    decreases s
  {
    match s
    case Block(body) => HasNoPosts(body)
    case If(_, thn, els) => HasNoPosts(thn) && HasNoPosts(els)
    case Switch(_, clauses) => forall c | c in clauses :: HasNoPosts(c.body)
    case For(init, _, post, body) => HasNoPosts(init) && post == [] && HasNoPosts(body)
    case Range(_, _, body) => HasNoPosts(body)
    case _ => true
  }

  /** Without post statements the condition on them is met. */
  lemma {:induction false} ClearWithoutPosts(stmts: seq<Stmt>, at: nat, inLoop: bool, drop: set<Event>)
    requires HasNoPosts(stmts)
    ensures PostsClear(stmts, at, inLoop, drop)
    decreases stmts
  {
    if stmts != [] {
      StmtClearWithoutPosts(stmts[0], at, inLoop, drop);
      ClearWithoutPosts(stmts[1..], at + StmtLen(stmts[0]), inLoop, drop);
    }
  }

  lemma {:induction false} StmtClearWithoutPosts(s: Stmt, at: nat, inLoop: bool, drop: set<Event>)
    requires HasNoPost(s)
    ensures PostClear(s, at, inLoop, drop)
    decreases s
  {
    match s
    case Block(body) => ClearWithoutPosts(body, at + 1, inLoop, drop);
    case If(cond, thn, els) =>
      ClearWithoutPosts(thn, at + 1 + ExprLen(cond), inLoop, drop);
      ClearWithoutPosts(els, at + 1 + ExprLen(cond) + Len(thn) + 1, inLoop, drop);
    case Switch(tag, clauses) => ClausesClearWithoutPosts(clauses, at + 1 + ExprLen(tag), inLoop, drop);
    case For(init, cond, post, body) =>
      ClearWithoutPosts(init, at + 1, inLoop, drop);
      ClearWithoutPosts(post, at + 1 + Len(init) + ExprLen(cond) + 1, inLoop, drop);
      ClearWithoutPosts(body, BodyAt(s, at) + 1, true, drop);
    case Range(_, _, body) => ClearWithoutPosts(body, BodyAt(s, at) + 1, true, drop);
    case _ =>
  }

  lemma {:induction false} ClausesClearWithoutPosts(clauses: seq<Clause>, at: nat, inLoop: bool, drop: set<Event>)
    requires forall c | c in clauses :: HasNoPosts(c.body)
    ensures ClausePostsClear(clauses, at, inLoop, drop)
    decreases clauses
  {
    if clauses != [] {
      var bodyAt := at + 1 + ExprLen(clauses[0].guard);
      ClearWithoutPosts(clauses[0].body, bodyAt, inLoop, drop);
      ClausesClearWithoutPosts(clauses[1..], bodyAt + Len(clauses[0].body), inLoop, drop);
    }
  }

  /** The hypotheses of the simulation for one piece of source. */
  ghost predicate Ready(evs: set<Event>, addrs: set<Var>, drop: set<Event>, lost: set<Var>, reach: set<Var>,
                        s1: State, s2: State)
  {
    && Agree(s1, s2, lost)
    && OnlyWritten(evs, lost)
    && Droppable(evs, drop)
    && s1.escaped <= reach && addrs <= reach && reach !! (lost + DroppedVars(evs, drop))
  }

  /** Its conclusion: same outcome, and disagreement only on the variables whose writes were dropped. */
  ghost predicate Simulated(r1: Run, r2: Run, lost: set<Var>, reach: set<Var>) {
    r1.outcome == r2.outcome && Agree(r1.st, r2.st, lost) && r1.st.escaped <= reach
  }

  /** Running piece `a` first leaves its successor `b` ready. */
  lemma ReadyNext(a: set<Event>, b: set<Event>, addrs: set<Var>, drop: set<Event>, lost: set<Var>, reach: set<Var>,
                  mid: nat, s1: State, s2: State, r1: Run, r2: Run)
    requires Ready(a + b, addrs, drop, lost, reach, s1, s2)
    requires (forall e | e in a :: e.pos < mid) && (forall e | e in b :: mid <= e.pos)
    requires Simulated(r1, r2, lost + DroppedVars(a, drop), reach)
    ensures Ready(b, addrs, drop, lost + DroppedVars(a, drop), reach, r1.st, r2.st)
    ensures lost + DroppedVars(a, drop) + DroppedVars(b, drop) == lost + DroppedVars(a + b, drop)
  {
    assert forall e | e in a || e in b :: e in a + b;
    forall e | e in b && e.v in DroppedVars(a, drop)
      ensures e.kind.FieldWrite?
    {
      var d :| d in a && d in drop && d.v == e.v;
      assert d in a + b && e in a + b;
    }
  }

  /** Any part of a ready piece is ready where the piece is. */
  lemma ReadyPart(part: set<Event>, whole: set<Event>, addrs: set<Var>, drop: set<Event>, lost: set<Var>, reach: set<Var>,
                  s1: State, s2: State)
    requires part <= whole && Ready(whole, addrs, drop, lost, reach, s1, s2)
    ensures Ready(part, addrs, drop, lost, reach, s1, s2)
    ensures DroppedVars(part, drop) <= DroppedVars(whole, drop)
  {
  }

  lemma SimulatedWiden(r1: Run, r2: Run, lost: set<Var>, wider: set<Var>, reach: set<Var>)
    requires Simulated(r1, r2, lost, reach) && lost <= wider && reach !! wider
    ensures Simulated(r1, r2, wider, reach)
  {
  }

  lemma ExprReady(e: Expr, at: nat, inLoop: bool, rest: set<Event>, addrs: set<Var>, drop: set<Event>,
                  lost: set<Var>, reach: set<Var>, s1: State, s2: State, w: World)
    requires Ready(ExprEvents(e, at, false, inLoop) + rest, addrs, drop, lost, reach, s1, s2)
    requires ExprAddrs(e, true) <= addrs
    ensures EvalExpr(e, s1, w).v == EvalExpr(e, s2, w).v
    ensures Ready(rest, addrs, drop, lost, reach, EvalExpr(e, s1, w).st, EvalExpr(e, s2, w).st)
    ensures DroppedVars(rest, drop) <= DroppedVars(ExprEvents(e, at, false, inLoop) + rest, drop)
  {
    var evs := ExprEvents(e, at, false, inLoop);
    ReadyPart(evs, evs + rest, addrs, drop, lost, reach, s1, s2);
    ReadyPart(rest, evs + rest, addrs, drop, lost, reach, s1, s2);
    ExprSim(e, at, false, inLoop, lost, reach, s1, s2, w);
  }

  /** Stopping is fine wherever things are ready. */
  lemma StopHere(o: Outcome, evs: set<Event>, addrs: set<Var>, drop: set<Event>, lost: set<Var>, reach: set<Var>,
                 s1: State, s2: State)
    requires Ready(evs, addrs, drop, lost, reach, s1, s2)
    ensures Simulated(Run(o, s1), Run(o, s2), lost + DroppedVars(evs, drop), reach)
  {
  }

  /** The same assignment on both sides keeps the states in agreement, as does an assignment of
      anything at all, on either side, to a variable that may differ. */
  lemma AssignBoth(x: Var, v1: Value, v2: Value, evs: set<Event>, addrs: set<Var>, drop: set<Event>, lost: set<Var>,
                   reach: set<Var>, s1: State, s2: State)
    requires Ready(evs, addrs, drop, lost, reach, s1, s2)
    requires v1 == v2 || x in lost
    ensures Ready(evs, addrs, drop, lost, reach, Set(s1, x, v1), Set(s2, x, v2))
  {
  }

  lemma {:induction false} SimBlock(stmts: seq<Stmt>, at: nat, inLoop: bool, drop: set<Event>, addrs: set<Var>,
                                    lost: set<Var>, reach: set<Var>, s1: State, s2: State, w: World, fuel: nat)
    requires Ready(Events(stmts, at, inLoop), addrs, drop, lost, reach, s1, s2)
    requires Addrs(stmts, true) <= addrs && PostsClear(stmts, at, inLoop, drop)
    ensures Simulated(Exec(stmts, s1, w, fuel), Exec(Drop(stmts, at, inLoop, drop), s2, w, fuel),
                      lost + DroppedVars(Events(stmts, at, inLoop), drop), reach)
    decreases fuel, stmts, 3
  {
    if stmts == [] {
      StopHere(Normal, {}, addrs, drop, lost, reach, s1, s2);
    } else {
      hide Ready, Simulated;
      var s, mid := stmts[0], at + StmtLen(stmts[0]);
      var here, rest := StmtEvents(s, at, inLoop), Events(stmts[1..], mid, inLoop);
      var r1, r2 := ExecStmt(s, s1, w, fuel), ExecStmt(DropIn(s, at, inLoop, drop), s2, w, fuel);
      ReadyPart(here, here + rest, addrs, drop, lost, reach, s1, s2);
      SimStmt(s, at, inLoop, drop, addrs, lost, reach, s1, s2, w, fuel);
      StmtFits(s, at, inLoop);
      BlockFits(stmts[1..], mid, inLoop);
      ReadyNext(here, rest, addrs, drop, lost, reach, mid, s1, s2, r1, r2);
      assert Drop(stmts, at, inLoop, drop)[1..] == Drop(stmts[1..], mid, inLoop, drop);
      OutcomesEqual(r1, r2, lost + DroppedVars(here, drop), reach);
      if r1.outcome.Normal? {
        SimBlock(stmts[1..], mid, inLoop, drop, addrs, lost + DroppedVars(here, drop), reach, r1.st, r2.st, w, fuel);
      } else {
        StopHere(r1.outcome, rest, addrs, drop, lost + DroppedVars(here, drop), reach, r1.st, r2.st);
      }
    }
  }

  lemma OutcomesEqual(r1: Run, r2: Run, lost: set<Var>, reach: set<Var>)
    requires Simulated(r1, r2, lost, reach)
    ensures r1.outcome == r2.outcome
  {
  }

  lemma {:induction false} SimStmt(s: Stmt, at: nat, inLoop: bool, drop: set<Event>, addrs: set<Var>,
                                   lost: set<Var>, reach: set<Var>, s1: State, s2: State, w: World, fuel: nat)
    requires Ready(StmtEvents(s, at, inLoop), addrs, drop, lost, reach, s1, s2)
    requires StmtAddrs(s, true) <= addrs && PostClear(s, at, inLoop, drop)
    ensures Simulated(ExecStmt(s, s1, w, fuel), ExecStmt(DropIn(s, at, inLoop, drop), s2, w, fuel),
                      lost + DroppedVars(StmtEvents(s, at, inLoop), drop), reach)
    decreases fuel, s, 2
  {
    hide Ready, Simulated;
    match s {
      case Block(body) => SimBlock(body, at + 1, inLoop, drop, addrs, lost, reach, s1, s2, w, fuel);
      case If(cond, thn, els) => SimIf(s, at, inLoop, drop, addrs, lost, reach, s1, s2, w, fuel);
      case Switch(tag, clauses) => SimSwitch(s, at, inLoop, drop, addrs, lost, reach, s1, s2, w, fuel);
      case For(init, cond, post, body) => SimForStmt(s, at, inLoop, drop, addrs, lost, reach, s1, s2, w, fuel);
      case Range(key, over, body) => SimRangeStmt(s, at, inLoop, drop, addrs, lost, reach, s1, s2, w, fuel);
      case _ => SimSimple(s, at, inLoop, drop, addrs, lost, reach, s1, s2, w, fuel);
    }
  }

  lemma SimSimple(s: Stmt, at: nat, inLoop: bool, drop: set<Event>, addrs: set<Var>,
                  lost: set<Var>, reach: set<Var>, s1: State, s2: State, w: World, fuel: nat)
    requires s.Declare? || s.SetVar? || s.SetField? || s.Eval? || s.Return? || s.Break? || s.Continue?
    requires Ready(StmtEvents(s, at, inLoop), addrs, drop, lost, reach, s1, s2) && StmtAddrs(s, true) <= addrs
    ensures Simulated(ExecStmt(s, s1, w, fuel), ExecStmt(DropIn(s, at, inLoop, drop), s2, w, fuel),
                      lost + DroppedVars(StmtEvents(s, at, inLoop), drop), reach)
  {
    hide Ready, Simulated;
    var evs := StmtEvents(s, at, inLoop);
    if s.Break? || s.Continue? {
      StopHere(if s.Break? then Broke else Continued, evs, addrs, drop, lost, reach, s1, s2);
    } else {
      var eAt := if s.Declare? || s.SetVar? then at + 2 else if s.SetField? then at + 3
                 else if s.Eval? then at else at + 1;
      assert evs == ExprEvents(s.e, eAt, false, inLoop) + evs;
      ExprReady(s.e, eAt, inLoop, evs, addrs, drop, lost, reach, s1, s2, w);
      var r1, r2 := EvalExpr(s.e, s1, w), EvalExpr(s.e, s2, w);
      if s.Declare? || s.SetVar? {
        AssignBoth(s.x, r1.v, r2.v, evs, addrs, drop, lost, reach, r1.st, r2.st);
        StopHere(Normal, evs, addrs, drop, lost, reach, Set(r1.st, s.x, r1.v), Set(r2.st, s.x, r2.v));
      } else if s.SetField? {
        SimFieldWrite(s, at, inLoop, drop, addrs, lost, reach, r1.st, r2.st, r1.v);
      } else {
        StopHere(if s.Eval? then Normal else Returned(r1.v), evs, addrs, drop, lost, reach, r1.st, r2.st);
      }
    }
  }

  function WriteField(s: Stmt, st: State, v: Value): State
    requires s.SetField?
  {
    var old_ := Get(st, s.x);
    Set(st, s.x, SetFieldOf(old_, s.f, if s.compound then Add(GetField(old_, s.f), v) else v))
  }

  /** A field write kept on both sides, or dropped on the second. */
  lemma SimFieldWrite(s: Stmt, at: nat, inLoop: bool, drop: set<Event>, addrs: set<Var>,
                      lost: set<Var>, reach: set<Var>, s1: State, s2: State, v: Value)
    requires s.SetField? && Ready(StmtEvents(s, at, inLoop), addrs, drop, lost, reach, s1, s2)
    ensures Simulated(Run(Normal, WriteField(s, s1, v)),
                      Run(Normal, if Event(at, s.x, FieldWrite, inLoop) in drop then s2 else WriteField(s, s2, v)),
                      lost + DroppedVars(StmtEvents(s, at, inLoop), drop), reach)
  {
    var evs := StmtEvents(s, at, inLoop);
    var e := Event(at, s.x, FieldWrite, inLoop);
    assert e in evs;
    if e in drop {
      assert s.x in DroppedVars(evs, drop);
    } else {
      assert s.x !in lost ==> Get(s1, s.x) == Get(s2, s.x);
    }
  }

  lemma IfRuns(s: Stmt, at: nat, inLoop: bool, drop: set<Event>, st: State, w: World, fuel: nat)
    requires s.If?
    ensures var r, thnAt := EvalExpr(s.cond, st, w), at + 1 + ExprLen(s.cond);
            && ExecStmt(s, st, w, fuel) == (if r.v != Num(0) then Exec(s.thn, r.st, w, fuel) else Exec(s.els, r.st, w, fuel))
            && ExecStmt(DropIn(s, at, inLoop, drop), st, w, fuel)
               == (if r.v != Num(0) then Exec(Drop(s.thn, thnAt, inLoop, drop), r.st, w, fuel)
                   else Exec(Drop(s.els, thnAt + Len(s.thn) + 1, inLoop, drop), r.st, w, fuel))
  {
    hide Exec, EvalExpr, Drop;
  }

  lemma {:induction false} SimIf(s: Stmt, at: nat, inLoop: bool, drop: set<Event>, addrs: set<Var>,
                                 lost: set<Var>, reach: set<Var>, s1: State, s2: State, w: World, fuel: nat)
    requires s.If? && Ready(StmtEvents(s, at, inLoop), addrs, drop, lost, reach, s1, s2)
    requires StmtAddrs(s, true) <= addrs && PostClear(s, at, inLoop, drop)
    ensures Simulated(ExecStmt(s, s1, w, fuel), ExecStmt(DropIn(s, at, inLoop, drop), s2, w, fuel),
                      lost + DroppedVars(StmtEvents(s, at, inLoop), drop), reach)
    decreases fuel, s, 1
  {
    hide Ready, Simulated, Exec, ExecStmt, DropIn, Drop, EvalExpr;
    IfRuns(s, at, inLoop, drop, s1, w, fuel);
    IfRuns(s, at, inLoop, drop, s2, w, fuel);
    var thnAt := at + 1 + ExprLen(s.cond);
    var elsAt := thnAt + Len(s.thn) + 1;
    var thn, els := Events(s.thn, thnAt, inLoop), Events(s.els, elsAt, inLoop);
    var all := lost + DroppedVars(StmtEvents(s, at, inLoop), drop);
    ExprReady(s.cond, at + 1, inLoop, thn + els, addrs, drop, lost, reach, s1, s2, w);
    var r1, r2 := EvalExpr(s.cond, s1, w), EvalExpr(s.cond, s2, w);
    ReadyPart(thn, thn + els, addrs, drop, lost, reach, r1.st, r2.st);
    ReadyPart(els, thn + els, addrs, drop, lost, reach, r1.st, r2.st);
    ReachApart(StmtEvents(s, at, inLoop), addrs, drop, lost, reach, s1, s2);
    if r1.v != Num(0) {
      SimBlock(s.thn, thnAt, inLoop, drop, addrs, lost, reach, r1.st, r2.st, w, fuel);
      SimulatedWiden(Exec(s.thn, r1.st, w, fuel), Exec(Drop(s.thn, thnAt, inLoop, drop), r2.st, w, fuel),
                     lost + DroppedVars(thn, drop), all, reach);
    } else {
      SimBlock(s.els, elsAt, inLoop, drop, addrs, lost, reach, r1.st, r2.st, w, fuel);
      SimulatedWiden(Exec(s.els, r1.st, w, fuel), Exec(Drop(s.els, elsAt, inLoop, drop), r2.st, w, fuel),
                     lost + DroppedVars(els, drop), all, reach);
    }
  }

  lemma ReachApart(evs: set<Event>, addrs: set<Var>, drop: set<Event>, lost: set<Var>, reach: set<Var>,
                   s1: State, s2: State)
    requires Ready(evs, addrs, drop, lost, reach, s1, s2)
    ensures reach !! (lost + DroppedVars(evs, drop))
  {
  }

  lemma LeaveSwitch(r1: Run, r2: Run, lost: set<Var>, reach: set<Var>)
    requires Simulated(r1, r2, lost, reach)
    ensures Simulated(if r1.outcome.Broke? then r1.(outcome := Normal) else r1,
                      if r2.outcome.Broke? then r2.(outcome := Normal) else r2, lost, reach)
  {
  }

  lemma {:induction false} SimSwitch(s: Stmt, at: nat, inLoop: bool, drop: set<Event>, addrs: set<Var>,
                                     lost: set<Var>, reach: set<Var>, s1: State, s2: State, w: World, fuel: nat)
    requires s.Switch? && Ready(StmtEvents(s, at, inLoop), addrs, drop, lost, reach, s1, s2)
    requires StmtAddrs(s, true) <= addrs && PostClear(s, at, inLoop, drop)
    ensures Simulated(ExecStmt(s, s1, w, fuel), ExecStmt(DropIn(s, at, inLoop, drop), s2, w, fuel),
                      lost + DroppedVars(StmtEvents(s, at, inLoop), drop), reach)
    decreases fuel, s, 1
  {
    hide Ready, Simulated;
    var mid := at + 1 + ExprLen(s.tag);
    var rest := ClauseEvents(s.clauses, mid, inLoop);
    ExprReady(s.tag, at + 1, inLoop, rest, addrs, drop, lost, reach, s1, s2, w);
    var r1, r2 := EvalExpr(s.tag, s1, w), EvalExpr(s.tag, s2, w);
    SimClauses(r1.v, s.clauses, mid, inLoop, drop, addrs, lost, reach, r1.st, r2.st, w, fuel);
    var c1 := ExecClauses(r1.v, s.clauses, r1.st, w, fuel);
    var c2 := ExecClauses(r1.v, DropClauses(s.clauses, mid, inLoop, drop), r2.st, w, fuel);
    ReachApart(StmtEvents(s, at, inLoop), addrs, drop, lost, reach, s1, s2);
    SimulatedWiden(c1, c2, lost + DroppedVars(rest, drop), lost + DroppedVars(StmtEvents(s, at, inLoop), drop), reach);
    LeaveSwitch(c1, c2, lost + DroppedVars(StmtEvents(s, at, inLoop), drop), reach);
  }

  lemma {:induction false} SimClauses(v: Value, clauses: seq<Clause>, at: nat, inLoop: bool, drop: set<Event>,
                                      addrs: set<Var>, lost: set<Var>, reach: set<Var>, s1: State, s2: State,
                                      w: World, fuel: nat)
    requires Ready(ClauseEvents(clauses, at, inLoop), addrs, drop, lost, reach, s1, s2)
    requires ClauseAddrs(clauses, true) <= addrs && ClausePostsClear(clauses, at, inLoop, drop)
    ensures Simulated(ExecClauses(v, clauses, s1, w, fuel),
                      ExecClauses(v, DropClauses(clauses, at, inLoop, drop), s2, w, fuel),
                      lost + DroppedVars(ClauseEvents(clauses, at, inLoop), drop), reach)
    decreases fuel, clauses, 1
  {
    if clauses == [] {
      StopHere(Normal, {}, addrs, drop, lost, reach, s1, s2);
    } else {
      hide Ready, Simulated;
      var c := clauses[0];
      var bodyAt := at + 1 + ExprLen(c.guard);
      var restAt := bodyAt + Len(c.body);
      var body, rest := Events(c.body, bodyAt, inLoop), ClauseEvents(clauses[1..], restAt, inLoop);
      var all := lost + DroppedVars(ClauseEvents(clauses, at, inLoop), drop);
      var dropped := DropClauses(clauses, at, inLoop, drop);
      assert dropped[1..] == DropClauses(clauses[1..], restAt, inLoop, drop);
      ExprReady(c.guard, at + 1, inLoop, body + rest, addrs, drop, lost, reach, s1, s2, w);
      var g1, g2 := EvalExpr(c.guard, s1, w), EvalExpr(c.guard, s2, w);
      ReadyPart(body, body + rest, addrs, drop, lost, reach, g1.st, g2.st);
      ReadyPart(rest, body + rest, addrs, drop, lost, reach, g1.st, g2.st);
      ReachApart(ClauseEvents(clauses, at, inLoop), addrs, drop, lost, reach, s1, s2);
      if g1.v == v {
        SimBlock(c.body, bodyAt, inLoop, drop, addrs, lost, reach, g1.st, g2.st, w, fuel);
        SimulatedWiden(Exec(c.body, g1.st, w, fuel), Exec(Drop(c.body, bodyAt, inLoop, drop), g2.st, w, fuel),
                       lost + DroppedVars(body, drop), all, reach);
      } else {
        SimClauses(v, clauses[1..], restAt, inLoop, drop, addrs, lost, reach, g1.st, g2.st, w, fuel);
        SimulatedWiden(ExecClauses(v, clauses[1..], g1.st, w, fuel), ExecClauses(v, dropped[1..], g2.st, w, fuel),
                       lost + DroppedVars(rest, drop), all, reach);
      }
    }
  }

  /** Nothing is dropped inside a loop body: its writes are all in a loop. */
  lemma LoopBodyKept(body: seq<Stmt>, at: nat, evs: set<Event>, addrs: set<Var>, drop: set<Event>, lost: set<Var>,
                     reach: set<Var>, s1: State, s2: State)
    requires Ready(evs, addrs, drop, lost, reach, s1, s2) && Events(body, at, true) <= evs
    ensures DroppedVars(Events(body, at, true), drop) == {}
  {
    BlockFits(body, at, true);
  }

  lemma ReadyAgain(evs: set<Event>, addrs: set<Var>, drop: set<Event>, lost: set<Var>, reach: set<Var>,
                   s1: State, s2: State, r1: Run, r2: Run)
    requires Ready(evs, addrs, drop, lost, reach, s1, s2) && Simulated(r1, r2, lost, reach)
    ensures Ready(evs, addrs, drop, lost, reach, r1.st, r2.st)
  {
  }

  /** Variables dropped in the post statement may differ from the start of the loop on. */
  lemma LoopReady(cond: set<Event>, post: set<Event>, body: set<Event>, addrs: set<Var>, drop: set<Event>,
                  lost: set<Var>, reach: set<Var>, bodyAt: nat, s1: State, s2: State)
    requires Ready(cond + (post + body), addrs, drop, lost, reach, s1, s2)
    requires OnlyWritten(cond + post, DroppedVars(post, drop))
    requires (forall e | e in post :: e.pos < bodyAt) && (forall e | e in body :: bodyAt <= e.pos)
    ensures Ready(cond + (post + body), addrs, drop, lost + DroppedVars(post, drop), reach, s1, s2)
  {
    var all := cond + (post + body);
    forall e | e in all && e.v in DroppedVars(post, drop)
      ensures e.kind.FieldWrite?
    {
      var d :| d in post && d in drop && d.v == e.v;
      assert d in all;
      if e in cond || e in post {
        assert e in cond + post;
      }
    }
    assert DroppedVars(post, drop) <= DroppedVars(all, drop);
  }

  /** The occurrences in a for statement after its init statements. */
  function LoopEvents(s: Stmt, at: nat, inLoop: bool): set<Event>
    requires s.For?
  {
    var condAt := at + 1 + Len(s.init);
    ExprEvents(s.cond, condAt, false, inLoop)
    + (Events(s.post, condAt + ExprLen(s.cond) + 1, inLoop) + Events(s.body, BodyAt(s, at) + 1, true))
  }

  lemma {:induction false} SimForStmt(s: Stmt, at: nat, inLoop: bool, drop: set<Event>, addrs: set<Var>,
                                      lost: set<Var>, reach: set<Var>, s1: State, s2: State, w: World, fuel: nat)
    requires s.For? && Ready(StmtEvents(s, at, inLoop), addrs, drop, lost, reach, s1, s2)
    requires StmtAddrs(s, true) <= addrs && PostClear(s, at, inLoop, drop)
    ensures Simulated(ExecStmt(s, s1, w, fuel), ExecStmt(DropIn(s, at, inLoop, drop), s2, w, fuel),
                      lost + DroppedVars(StmtEvents(s, at, inLoop), drop), reach)
    decreases fuel, s, 1
  {
    hide Ready, Simulated, OnlyWritten, DroppedVars, Exec, ExecFor, Drop, Events, Len, ExprLen, Addrs, ExprAddrs, PostsClear;
    var condAt := at + 1 + Len(s.init);
    var init, rest := Events(s.init, at + 1, inLoop), LoopEvents(s, at, inLoop);
    var r1, r2 := Exec(s.init, s1, w, fuel), Exec(Drop(s.init, at + 1, inLoop, drop), s2, w, fuel);
    ReadyPart(init, init + rest, addrs, drop, lost, reach, s1, s2);
    SimBlock(s.init, at + 1, inLoop, drop, addrs, lost, reach, s1, s2, w, fuel);
    ForPositions(s, at, inLoop);
    ReadyNext(init, rest, addrs, drop, lost, reach, condAt, s1, s2, r1, r2);
    OutcomesEqual(r1, r2, lost + DroppedVars(init, drop), reach);
    if r1.outcome.Normal? {
      SimLoop(s, at, inLoop, drop, addrs, lost + DroppedVars(init, drop), reach, r1.st, r2.st, w, fuel);
    } else {
      StopHere(r1.outcome, rest, addrs, drop, lost + DroppedVars(init, drop), reach, r1.st, r2.st);
    }
  }

  lemma ForPositions(s: Stmt, at: nat, inLoop: bool)
    requires s.For?
    ensures forall e | e in Events(s.init, at + 1, inLoop) :: e.pos < at + 1 + Len(s.init)
    ensures forall e | e in LoopEvents(s, at, inLoop) :: at + 1 + Len(s.init) <= e.pos
  {
    var condAt := at + 1 + Len(s.init);
    BlockFits(s.init, at + 1, inLoop);
    ExprFits(s.cond, condAt, false, inLoop);
    BlockFits(s.post, condAt + ExprLen(s.cond) + 1, inLoop);
    BlockFits(s.body, BodyAt(s, at) + 1, true);
  }

  lemma {:induction false} SimLoop(s: Stmt, at: nat, inLoop: bool, drop: set<Event>, addrs: set<Var>,
                                   lost: set<Var>, reach: set<Var>, s1: State, s2: State, w: World, fuel: nat)
    requires s.For? && Ready(LoopEvents(s, at, inLoop), addrs, drop, lost, reach, s1, s2)
    requires StmtAddrs(s, true) <= addrs && PostClear(s, at, inLoop, drop)
    ensures var postAt := at + 1 + Len(s.init) + ExprLen(s.cond) + 1;
            Simulated(ExecFor(s.cond, s.post, s.body, s1, w, fuel),
                      ExecFor(s.cond, Drop(s.post, postAt, inLoop, drop), Drop(s.body, BodyAt(s, at) + 1, true, drop), s2, w, fuel),
                      lost + DroppedVars(LoopEvents(s, at, inLoop), drop), reach)
    decreases fuel, s, 0, 1
  {
    hide Ready, Simulated, OnlyWritten, DroppedVars;
    var condAt, bodyAt := at + 1 + Len(s.init), BodyAt(s, at) + 1;
    var postAt := condAt + ExprLen(s.cond) + 1;
    var cond := ExprEvents(s.cond, condAt, false, inLoop);
    var post, body := Events(s.post, postAt, inLoop), Events(s.body, bodyAt, true);
    var rest := LoopEvents(s, at, inLoop);
    ReachApart(rest, addrs, drop, lost, reach, s1, s2);
    LoopBodyKept(s.body, bodyAt, rest, addrs, drop, lost, reach, s1, s2);
    BlockFits(s.post, postAt, inLoop);
    BlockFits(s.body, bodyAt, true);
    ReadyPart(post, rest, addrs, drop, lost, reach, s1, s2);
    LoopReady(cond, post, body, addrs, drop, lost, reach, bodyAt, s1, s2);
    var lostInLoop := lost + DroppedVars(post, drop);
    SimFor(s, at, inLoop, drop, addrs, lostInLoop, reach, s1, s2, w, fuel);
    SimulatedWiden(ExecFor(s.cond, s.post, s.body, s1, w, fuel),
                   ExecFor(s.cond, Drop(s.post, postAt, inLoop, drop), Drop(s.body, bodyAt, true, drop), s2, w, fuel),
                   lostInLoop, lost + DroppedVars(rest, drop), reach);
  }

  lemma {:induction false} SimFor(s: Stmt, at: nat, inLoop: bool, drop: set<Event>, addrs: set<Var>,
                                  lost: set<Var>, reach: set<Var>, s1: State, s2: State, w: World, fuel: nat)
    requires s.For? && PostClear(s, at, inLoop, drop) && StmtAddrs(s, true) <= addrs
    requires Ready(LoopEvents(s, at, inLoop), addrs, drop, lost, reach, s1, s2)
    requires DroppedVars(Events(s.post, at + 1 + Len(s.init) + ExprLen(s.cond) + 1, inLoop), drop) <= lost
    requires DroppedVars(Events(s.body, BodyAt(s, at) + 1, true), drop) == {}
    ensures var postAt := at + 1 + Len(s.init) + ExprLen(s.cond) + 1;
            Simulated(ExecFor(s.cond, s.post, s.body, s1, w, fuel),
                      ExecFor(s.cond, Drop(s.post, postAt, inLoop, drop), Drop(s.body, BodyAt(s, at) + 1, true, drop), s2, w, fuel),
                      lost, reach)
    decreases fuel, s, 0, 0
  {
    hide Ready, Simulated, OnlyWritten;
    var condAt, bodyAt := at + 1 + Len(s.init), BodyAt(s, at) + 1;
    var postAt := condAt + ExprLen(s.cond) + 1;
    var cond := ExprEvents(s.cond, condAt, false, inLoop);
    var post, body := Events(s.post, postAt, inLoop), Events(s.body, bodyAt, true);
    var post', body' := Drop(s.post, postAt, inLoop, drop), Drop(s.body, bodyAt, true, drop);
    var evs := cond + (post + body);
    StopIn(OutOfFuel, evs, addrs, drop, lost, reach, s1, s2);
    if fuel > 0 {
      ExprReady(s.cond, condAt, inLoop, post + body, addrs, drop, lost, reach, s1, s2, w);
      var t1, t2 := EvalExpr(s.cond, s1, w), EvalExpr(s.cond, s2, w);
      StopIn(Normal, post + body, addrs, drop, lost, reach, t1.st, t2.st);
      if t1.v != Num(0) {
        var r1, r2 := Exec(s.body, t1.st, w, fuel - 1), Exec(body', t2.st, w, fuel - 1);
        ReadyPart(body, post + body, addrs, drop, lost, reach, t1.st, t2.st);
        SimBlock(s.body, bodyAt, true, drop, addrs, lost, reach, t1.st, t2.st, w, fuel - 1);
        assert lost + {} == lost;
        LeaveSwitch(r1, r2, lost, reach);
        OutcomesEqual(r1, r2, lost, reach);
        if r1.outcome.Normal? || r1.outcome.Continued? {
          ReadyAgain(evs, addrs, drop, lost, reach, s1, s2, r1, r2);
          ReadyPart(post, evs, addrs, drop, lost, reach, r1.st, r2.st);
          SimBlock(s.post, postAt, inLoop, drop, addrs, lost, reach, r1.st, r2.st, w, fuel - 1);
          var p1, p2 := Exec(s.post, r1.st, w, fuel - 1), Exec(post', r2.st, w, fuel - 1);
          assert lost + DroppedVars(post, drop) == lost;
          OutcomesEqual(p1, p2, lost, reach);
          ReadyAgain(evs, addrs, drop, lost, reach, s1, s2, p1, p2);
          if p1.outcome.Normal? {
            SimFor(s, at, inLoop, drop, addrs, lost, reach, p1.st, p2.st, w, fuel - 1);
          }
        }
      }
    }
  }

  lemma StopIn(o: Outcome, evs: set<Event>, addrs: set<Var>, drop: set<Event>, lost: set<Var>, reach: set<Var>,
               s1: State, s2: State)
    requires Ready(evs, addrs, drop, lost, reach, s1, s2)
    ensures Simulated(Run(o, s1), Run(o, s2), lost, reach)
  {
  }

  lemma {:induction false} SimRangeStmt(s: Stmt, at: nat, inLoop: bool, drop: set<Event>, addrs: set<Var>,
                                        lost: set<Var>, reach: set<Var>, s1: State, s2: State, w: World, fuel: nat)
    requires s.Range? && Ready(StmtEvents(s, at, inLoop), addrs, drop, lost, reach, s1, s2)
    requires StmtAddrs(s, true) <= addrs && PostClear(s, at, inLoop, drop)
    ensures Simulated(ExecStmt(s, s1, w, fuel), ExecStmt(DropIn(s, at, inLoop, drop), s2, w, fuel),
                      lost + DroppedVars(StmtEvents(s, at, inLoop), drop), reach)
    decreases fuel, s, 1
  {
    hide Ready, Simulated;
    var bodyAt := BodyAt(s, at) + 1;
    var body := Events(s.body, bodyAt, true);
    LoopBodyKept(s.body, bodyAt, StmtEvents(s, at, inLoop), addrs, drop, lost, reach, s1, s2);
    ReachApart(StmtEvents(s, at, inLoop), addrs, drop, lost, reach, s1, s2);
    ExprReady(s.over, at + 2, inLoop, body, addrs, drop, lost, reach, s1, s2, w);
    var r1, r2 := EvalExpr(s.over, s1, w), EvalExpr(s.over, s2, w);
    var n := if r1.v.Num? then r1.v.n else 0;
    SimRange(s, bodyAt, 0, n, drop, addrs, lost, reach, r1.st, r2.st, w, fuel);
    SimulatedWiden(ExecRange(s.key, 0, n, s.body, r1.st, w, fuel),
                   ExecRange(s.key, 0, n, Drop(s.body, bodyAt, true, drop), r2.st, w, fuel),
                   lost, lost + DroppedVars(StmtEvents(s, at, inLoop), drop), reach);
  }

  lemma {:induction false} SimRange(s: Stmt, bodyAt: nat, i: int, n: int, drop: set<Event>, addrs: set<Var>,
                                    lost: set<Var>, reach: set<Var>, s1: State, s2: State, w: World, fuel: nat)
    requires s.Range? && PostsClear(s.body, bodyAt, true, drop) && StmtAddrs(s, true) <= addrs
    requires Ready(Events(s.body, bodyAt, true), addrs, drop, lost, reach, s1, s2)
    requires DroppedVars(Events(s.body, bodyAt, true), drop) == {}
    ensures Simulated(ExecRange(s.key, i, n, s.body, s1, w, fuel),
                      ExecRange(s.key, i, n, Drop(s.body, bodyAt, true, drop), s2, w, fuel), lost, reach)
    decreases fuel, s, 0
  {
    hide Ready, Simulated;
    var body, body' := Events(s.body, bodyAt, true), Drop(s.body, bodyAt, true, drop);
    StopIn(OutOfFuel, body, addrs, drop, lost, reach, s1, s2);
    StopIn(Normal, body, addrs, drop, lost, reach, s1, s2);
    if fuel > 0 && i < n {
      var k1, k2 := Set(s1, s.key, Num(i)), Set(s2, s.key, Num(i));
      AssignBoth(s.key, Num(i), Num(i), body, addrs, drop, lost, reach, s1, s2);
      SimBlock(s.body, bodyAt, true, drop, addrs, lost, reach, k1, k2, w, fuel - 1);
      assert lost + {} == lost;
      var r1, r2 := Exec(s.body, k1, w, fuel - 1), Exec(body', k2, w, fuel - 1);
      LeaveSwitch(r1, r2, lost, reach);
      OutcomesEqual(r1, r2, lost, reach);
      if r1.outcome.Normal? || r1.outcome.Continued? {
        ReadyAgain(body, addrs, drop, lost, reach, s1, s2, r1, r2);
        SimRange(s, bodyAt, i + 1, n, drop, addrs, lost, reach, r1.st, r2.st, w, fuel - 1);
      }
    }
  }

  // ----- Main result -----

  /** A reported write is a dead store.  For any set of reported writes (none of them in a post
      statement whose loop condition or post statement reads the variable, none to a variable one of
      whose fields has its address taken), evaluating only their
      right-hand sides changes neither the calls made, with their arguments and everything the
      callees can reach, nor the outcome -- the returned value or running on -- nor the final value
      of any variable but the written locals. */
  lemma ReportedWritesAreDead(body: seq<Stmt>, at: nat, objects: map<Var, VarInfo>, drop: set<Event>,
                              st: State, w: World, fuel: nat)
    requires drop <= Reports(body, at, objects) && PostsClear(body, at, false, drop)
    requires forall e | e in drop :: e.v !in Addrs(body, true)
    requires forall v | v in objects && v in st.escaped :: !(at <= objects[v].pos <= at + Len(body))
    ensures var before := Exec(body, st, w, fuel);
            var after := Exec(Drop(body, at, false, drop), st, w, fuel);
            && before.outcome == after.outcome
            && before.st.trace == after.st.trace
            && before.st.escaped == after.st.escaped
            && forall x | x !in DroppedVars(drop, drop) :: Get(before.st, x) == Get(after.st, x)
  {
    var evs, addrs := Events(body, at, false), Addrs(body, true);
    var reach := st.escaped + addrs;
    assert forall e | e in evs && e in drop :: WriteIsLost(evs, e) && e.v !in st.escaped && e.v !in addrs;
    assert Ready(evs, addrs, drop, {}, reach, st, st);
    SimBlock(body, at, false, drop, addrs, {}, reach, st, st, w, fuel);
    assert DroppedVars(evs, drop) <= DroppedVars(drop, drop);
  }

  /** `var x = 0; f(x); x.done = 1` */
  const LOST := [Declare("x", Lit(0)), Eval(Call("f", [Use("x")])), SetField("x", "done", false, Lit(1))]

  /** The plainest lost write: it is reported exactly if `x` is a variable of struct type declared in
      the body, and so neither for a parameter, nor for a field, nor for a pointer. */
  lemma LostWriteIsReported(at: nat, info: VarInfo)
    ensures Event(at + 8, "x", FieldWrite, false) in Reports(LOST, at, map["x" := info])
       <==> !info.isField && info.isStruct && at <= info.pos <= at + 12
    ensures Reports(LOST, at, map["x" := info]) <= {Event(at + 8, "x", FieldWrite, false)}
    ensures InSourceOrder([Occurrence(at + 5, "x", PassedByValue), Occurrence(at + 8, "x", FieldWrite)], Events(LOST, at, false))
  {
    var pass, write := LOST[1], LOST[2];
    var args := [Use("x")];
    assert args[1..] == [] && LOST[1..] == [pass, write] && [pass, write][1..] == [write] && [write][1..] == [];
    assert ArgsLen(args) == 2 && Len([write]) == 4 && Len([pass, write]) == 9 && Len(LOST) == 12;
    assert ArgEvents(args, at + 5, false) == {Event(at + 5, "x", PassedByValue, false)};
    assert Events([write], at + 8, false) == {Event(at + 8, "x", FieldWrite, false)};
    assert StmtEvents(pass, at + 3, false) == ExprEvents(pass.e, at + 3, false, false) == ArgEvents(args, at + 5, false);
    assert StmtLen(pass) == 5;
    assert Events([pass, write], at + 3, false) == {Event(at + 5, "x", PassedByValue, false), Event(at + 8, "x", FieldWrite, false)};
    assert ArgAddrs(args, false) == {} && Addrs([write], false) == {} && Addrs([pass, write], false) == {};
  }

  // ----- What is reported, told from the syntax -----

  /** The expression and everything in it. */
  function ExprParts(e: Expr): set<Expr> {
    match e
    case Plus(l, r) => {e} + (ExprParts(l) + ExprParts(r))
    case Call(_, args) => {e} + ArgParts(args)
    case _ => {e}
  }

  function ArgParts(args: seq<Expr>): set<Expr> {
    if args == [] then {} else ExprParts(args[0]) + ArgParts(args[1..])
  }

  /** All expressions in the statements, and the variables that the statements assign to or to whose
      fields they assign. */
  datatype Syntax = Syntax(parts: set<Expr>, targets: set<Var>)

  function Both(a: Syntax, b: Syntax): Syntax {
    Syntax(a.parts + b.parts, a.targets + b.targets)
  }

  function Of(e: Expr): Syntax {
    Syntax(ExprParts(e), {})
  }

  function SyntaxOf(stmts: seq<Stmt>): Syntax
    decreases stmts
  {
    if stmts == [] then Syntax({}, {}) else Both(StmtSyntax(stmts[0]), SyntaxOf(stmts[1..]))
  }

  function StmtSyntax(s: Stmt): Syntax
    decreases s
  {
    match s
    case Declare(_, e) => Of(e)
    case SetVar(x, e) => Both(Syntax({}, {x}), Of(e))
    case SetField(x, _, _, e) => Both(Syntax({}, {x}), Of(e))
    case Eval(e) => Of(e)
    case Return(e) => Of(e)
    case Break => Syntax({}, {})
    case Continue => Syntax({}, {})
    case Block(body) => SyntaxOf(body)
    case If(cond, thn, els) => Both(Of(cond), Both(SyntaxOf(thn), SyntaxOf(els)))
    case Switch(tag, clauses) => Both(Of(tag), ClauseSyntax(clauses))
    case For(init, cond, post, body) => Both(SyntaxOf(init), Both(Of(cond), Both(SyntaxOf(post), SyntaxOf(body))))
    case Range(_, over, body) => Both(Of(over), SyntaxOf(body))
  }

  function ClauseSyntax(clauses: seq<Clause>): Syntax
    decreases clauses
  {
    if clauses == [] then Syntax({}, {})
    else Both(Of(clauses[0].guard), Both(SyntaxOf(clauses[0].body), ClauseSyntax(clauses[1..])))
  }

  /** Some call has `x` itself as an argument. */
  predicate IsPassed(x: Var, syn: Syntax) {
    exists c | c in syn.parts :: c.Call? && Use(x) in c.args
  }

  predicate IsMentioned(x: Var, syn: Syntax) {
    || x in syn.targets
    || exists c | c in syn.parts ::
         c == Use(x) || c == AddrOf(x) || (c.Field? && c.x == x) || (c.AddrOfField? && c.x == x)
  }

  predicate HasPass(x: Var, evs: set<Event>) {
    exists p | p in evs :: p.v == x && p.kind.PassedByValue?
  }

  /** The occurrences and addresses of a piece are those of its syntax; `direct` says that the piece is
      `x` as an argument. */
  predicate Tells(x: Var, evs: set<Event>, addrs: set<Var>, syn: Syntax, direct: bool) {
    && (HasPass(x, evs) <==> direct || IsPassed(x, syn))
    && ((exists e | e in evs :: e.v == x) ==> IsMentioned(x, syn))
    && (x in addrs <==> AddrOf(x) in syn.parts)
  }

  lemma TellsBoth(x: Var, e1: set<Event>, a1: set<Var>, s1: Syntax, d1: bool, e2: set<Event>, a2: set<Var>, s2: Syntax, d2: bool)
    requires Tells(x, e1, a1, s1, d1) && Tells(x, e2, a2, s2, d2)
    ensures Tells(x, e1 + e2, a1 + a2, Both(s1, s2), d1 || d2)
  {
    assert HasPass(x, e1 + e2) <==> HasPass(x, e1) || HasPass(x, e2);
    assert IsPassed(x, Both(s1, s2)) <==> IsPassed(x, s1) || IsPassed(x, s2);
    assert IsMentioned(x, Both(s1, s2)) <==> IsMentioned(x, s1) || IsMentioned(x, s2);
  }

  lemma {:induction false} ExprTells(x: Var, e: Expr, at: nat, arg: bool, inLoop: bool)
    ensures Tells(x, ExprEvents(e, at, arg, inLoop), ExprAddrs(e, false), Of(e), arg && e == Use(x))
  {
    match e
    case Plus(l, r) =>
      ExprTells(x, l, at, false, inLoop);
      ExprTells(x, r, at + ExprLen(l) + 1, false, inLoop);
      TellsBoth(x, ExprEvents(l, at, false, inLoop), ExprAddrs(l, false), Of(l), false,
                ExprEvents(r, at + ExprLen(l) + 1, false, inLoop), ExprAddrs(r, false), Of(r), false);
      TellsWithPlus(x, e, ExprEvents(e, at, arg, inLoop), ExprAddrs(e, false), Both(Of(l), Of(r)));
    case Call(_, args) =>
      ArgsTell(x, args, at + 2, inLoop);
      TellsWithCall(x, e, ArgEvents(args, at + 2, inLoop), ArgAddrs(args, false));
    case _ => TellsLeaf(x, e, at, arg, inLoop);
  }

  lemma TellsLeaf(x: Var, e: Expr, at: nat, arg: bool, inLoop: bool)
    requires !e.Plus? && !e.Call?
    ensures Tells(x, ExprEvents(e, at, arg, inLoop), ExprAddrs(e, false), Of(e), arg && e == Use(x))
  {
    assert e in Of(e).parts;
    if arg && e.Use? {
      assert Event(at, e.x, PassedByValue, inLoop) in ExprEvents(e, at, arg, inLoop);
    }
  }

  lemma TellsWithPlus(x: Var, e: Expr, evs: set<Event>, addrs: set<Var>, syn: Syntax)
    requires e.Plus? && Tells(x, evs, addrs, syn, false) && Of(e).parts == {e} + syn.parts && syn.targets == {}
    ensures Tells(x, evs, addrs, Of(e), false)
  {
    assert forall c :: c in Of(e).parts <==> c == e || c in syn.parts;
  }

  lemma TellsWithCall(x: Var, e: Expr, evs: set<Event>, addrs: set<Var>)
    requires e.Call? && Tells(x, evs, addrs, Syntax(ArgParts(e.args), {}), Use(x) in e.args)
    ensures Tells(x, evs, addrs, Of(e), false)
  {
    assert e in Of(e).parts && forall c :: c in Of(e).parts <==> c == e || c in ArgParts(e.args);
  }

  lemma {:induction false} ArgsTell(x: Var, args: seq<Expr>, at: nat, inLoop: bool)
    ensures Tells(x, ArgEvents(args, at, inLoop), ArgAddrs(args, false), Syntax(ArgParts(args), {}), Use(x) in args)
  {
    if args != [] {
      var mid := at + ExprLen(args[0]) + 1;
      ExprTells(x, args[0], at, true, inLoop);
      ArgsTell(x, args[1..], mid, inLoop);
      TellsBoth(x, ExprEvents(args[0], at, true, inLoop), ExprAddrs(args[0], false), Of(args[0]), args[0] == Use(x),
                ArgEvents(args[1..], mid, inLoop), ArgAddrs(args[1..], false), Syntax(ArgParts(args[1..]), {}), Use(x) in args[1..]);
      hide Tells;
      assert Both(Of(args[0]), Syntax(ArgParts(args[1..]), {})) == Syntax(ArgParts(args), {});
    }
  }

  lemma {:induction false} BlockTells(x: Var, stmts: seq<Stmt>, at: nat, inLoop: bool)
    ensures Tells(x, Events(stmts, at, inLoop), Addrs(stmts, false), SyntaxOf(stmts), false)
    decreases stmts
  {
    if stmts != [] {
      var mid := at + StmtLen(stmts[0]);
      StmtTells(x, stmts[0], at, inLoop);
      BlockTells(x, stmts[1..], mid, inLoop);
      hide Tells;
      TellsBoth(x, StmtEvents(stmts[0], at, inLoop), StmtAddrs(stmts[0], false), StmtSyntax(stmts[0]), false,
                Events(stmts[1..], mid, inLoop), Addrs(stmts[1..], false), SyntaxOf(stmts[1..]), false);
    }
  }

  lemma TargetTells(x: Var, y: Var, at: nat, kind: Kind, inLoop: bool)
    requires !kind.PassedByValue?
    ensures Tells(x, {Event(at, y, kind, inLoop)}, {}, Syntax({}, {y}), false)
  {
  }

  lemma TellsNothing(x: Var)
    ensures Tells(x, {}, {}, Syntax({}, {}), false)
  {
  }

  /** An assignment to `y`, or to its field, and its right-hand side. */
  lemma AssignTells(x: Var, y: Var, kind: Kind, e: Expr, at: nat, eAt: nat, inLoop: bool)
    requires !kind.PassedByValue?
    ensures Tells(x, {Event(at, y, kind, inLoop)} + ExprEvents(e, eAt, false, inLoop), ExprAddrs(e, false),
                  Both(Syntax({}, {y}), Of(e)), false)
  {
    hide ExprEvents, ExprAddrs, ExprParts;
    ExprTells(x, e, eAt, false, inLoop);
    TargetTells(x, y, at, kind, inLoop);
    hide Tells;
    TellsBoth(x, {Event(at, y, kind, inLoop)}, {}, Syntax({}, {y}), false,
              ExprEvents(e, eAt, false, inLoop), ExprAddrs(e, false), Of(e), false);
    assert {} + ExprAddrs(e, false) == ExprAddrs(e, false);
  }

  lemma {:induction false} StmtTells(x: Var, s: Stmt, at: nat, inLoop: bool)
    ensures Tells(x, StmtEvents(s, at, inLoop), StmtAddrs(s, false), StmtSyntax(s), false)
    decreases s
  {
    hide Tells, Events, Addrs, SyntaxOf, ExprEvents, ExprAddrs, ExprParts, Len, ExprLen, ClauseEvents, ClauseAddrs, ClauseSyntax;
    match s
    case Declare(_, e) => ExprTells(x, e, at + 2, false, inLoop);
    case SetVar(y, e) => AssignTells(x, y, OtherUse, e, at, at + 2, inLoop);
    case SetField(y, _, _, e) => AssignTells(x, y, FieldWrite, e, at, at + 3, inLoop);
    case Eval(e) => ExprTells(x, e, at, false, inLoop);
    case Return(e) => ExprTells(x, e, at + 1, false, inLoop);
    case Break => TellsNothing(x);
    case Continue => TellsNothing(x);
    case Block(body) => BlockTells(x, body, at + 1, inLoop);
    case If(cond, thn, els) =>
      ExprTells(x, cond, at + 1, false, inLoop);
      BlockTells(x, thn, at + 1 + ExprLen(cond), inLoop);
      BlockTells(x, els, at + 1 + ExprLen(cond) + Len(thn) + 1, inLoop);
      IfTells(x, s, at, inLoop);
    case Switch(tag, clauses) =>
      ExprTells(x, tag, at + 1, false, inLoop);
      ClausesTell(x, clauses, at + 1 + ExprLen(tag), inLoop);
      TellsBoth(x, ExprEvents(tag, at + 1, false, inLoop), ExprAddrs(tag, false), Of(tag), false,
                ClauseEvents(clauses, at + 1 + ExprLen(tag), inLoop), ClauseAddrs(clauses, false), ClauseSyntax(clauses), false);
    case For(init, cond, post, body) =>
      BlockTells(x, init, at + 1, inLoop);
      ExprTells(x, cond, at + 1 + Len(init), false, inLoop);
      BlockTells(x, post, at + 1 + Len(init) + ExprLen(cond) + 1, inLoop);
      BlockTells(x, body, BodyAt(s, at) + 1, true);
      ForTells(x, s, at, inLoop);
    case Range(_, over, body) =>
      ExprTells(x, over, at + 2, false, inLoop);
      BlockTells(x, body, BodyAt(s, at) + 1, true);
      TellsBoth(x, ExprEvents(over, at + 2, false, inLoop), ExprAddrs(over, false), Of(over), false,
                Events(body, BodyAt(s, at) + 1, true), Addrs(body, false), SyntaxOf(body), false);
  }

  lemma IfTells(x: Var, s: Stmt, at: nat, inLoop: bool)
    requires s.If? && Tells(x, ExprEvents(s.cond, at + 1, false, inLoop), ExprAddrs(s.cond, false), Of(s.cond), false)
    requires var thnAt := at + 1 + ExprLen(s.cond);
             && Tells(x, Events(s.thn, thnAt, inLoop), Addrs(s.thn, false), SyntaxOf(s.thn), false)
             && Tells(x, Events(s.els, thnAt + Len(s.thn) + 1, inLoop), Addrs(s.els, false), SyntaxOf(s.els), false)
    ensures Tells(x, StmtEvents(s, at, inLoop), StmtAddrs(s, false), StmtSyntax(s), false)
  {
    hide Tells, Events, Addrs, SyntaxOf, ExprEvents, ExprAddrs, ExprParts, Len, ExprLen;
    var thn := Events(s.thn, at + 1 + ExprLen(s.cond), inLoop);
    var els := Events(s.els, at + 1 + ExprLen(s.cond) + Len(s.thn) + 1, inLoop);
    TellsBoth(x, thn, Addrs(s.thn, false), SyntaxOf(s.thn), false, els, Addrs(s.els, false), SyntaxOf(s.els), false);
    TellsBoth(x, ExprEvents(s.cond, at + 1, false, inLoop), ExprAddrs(s.cond, false), Of(s.cond), false,
              thn + els, Addrs(s.thn, false) + Addrs(s.els, false), Both(SyntaxOf(s.thn), SyntaxOf(s.els)), false);
    assert ExprAddrs(s.cond, false) + (Addrs(s.thn, false) + Addrs(s.els, false)) == StmtAddrs(s, false);
  }

  lemma ForTells(x: Var, s: Stmt, at: nat, inLoop: bool)
    requires s.For? && Tells(x, Events(s.init, at + 1, inLoop), Addrs(s.init, false), SyntaxOf(s.init), false)
    requires var condAt := at + 1 + Len(s.init);
             && Tells(x, ExprEvents(s.cond, condAt, false, inLoop), ExprAddrs(s.cond, false), Of(s.cond), false)
             && Tells(x, Events(s.post, condAt + ExprLen(s.cond) + 1, inLoop), Addrs(s.post, false), SyntaxOf(s.post), false)
             && Tells(x, Events(s.body, BodyAt(s, at) + 1, true), Addrs(s.body, false), SyntaxOf(s.body), false)
    ensures Tells(x, StmtEvents(s, at, inLoop), StmtAddrs(s, false), StmtSyntax(s), false)
  {
    hide Tells, Events, Addrs, SyntaxOf, ExprEvents, ExprAddrs, ExprParts, Len, ExprLen, BodyAt;
    var condAt := at + 1 + Len(s.init);
    var cond := ExprEvents(s.cond, condAt, false, inLoop);
    var post, body := Events(s.post, condAt + ExprLen(s.cond) + 1, inLoop), Events(s.body, BodyAt(s, at) + 1, true);
    TellsBoth(x, post, Addrs(s.post, false), SyntaxOf(s.post), false, body, Addrs(s.body, false), SyntaxOf(s.body), false);
    var a := Addrs(s.post, false) + Addrs(s.body, false);
    TellsBoth(x, cond, ExprAddrs(s.cond, false), Of(s.cond), false, post + body, a, Both(SyntaxOf(s.post), SyntaxOf(s.body)), false);
    TellsBoth(x, Events(s.init, at + 1, inLoop), Addrs(s.init, false), SyntaxOf(s.init), false,
              cond + (post + body), ExprAddrs(s.cond, false) + a, Both(Of(s.cond), Both(SyntaxOf(s.post), SyntaxOf(s.body))), false);
    assert Addrs(s.init, false) + (ExprAddrs(s.cond, false) + a) == StmtAddrs(s, false);
  }

  lemma {:induction false} ClausesTell(x: Var, clauses: seq<Clause>, at: nat, inLoop: bool)
    ensures Tells(x, ClauseEvents(clauses, at, inLoop), ClauseAddrs(clauses, false), ClauseSyntax(clauses), false)
    decreases clauses
  {
    hide Tells, Events, Addrs, SyntaxOf, ExprEvents, ExprAddrs, ExprParts, Len, ExprLen;
    if clauses == [] {
      TellsNothing(x);
    } else {
      var c := clauses[0];
      hide ClauseEvents, ClauseAddrs, ClauseSyntax;
      ExprTells(x, c.guard, at + 1, false, inLoop);
      BlockTells(x, c.body, at + 1 + ExprLen(c.guard), inLoop);
      ClausesTell(x, clauses[1..], at + 1 + ExprLen(c.guard) + Len(c.body), inLoop);
      FirstClauseTells(x, clauses, at, inLoop);
    }
  }

  lemma FirstClauseTells(x: Var, clauses: seq<Clause>, at: nat, inLoop: bool)
    requires clauses != []
    requires var c, bodyAt := clauses[0], at + 1 + ExprLen(clauses[0].guard);
             && Tells(x, ExprEvents(c.guard, at + 1, false, inLoop), ExprAddrs(c.guard, false), Of(c.guard), false)
             && Tells(x, Events(c.body, bodyAt, inLoop), Addrs(c.body, false), SyntaxOf(c.body), false)
             && Tells(x, ClauseEvents(clauses[1..], bodyAt + Len(c.body), inLoop), ClauseAddrs(clauses[1..], false),
                      ClauseSyntax(clauses[1..]), false)
    ensures Tells(x, ClauseEvents(clauses, at, inLoop), ClauseAddrs(clauses, false), ClauseSyntax(clauses), false)
  {
    hide Tells, Events, Addrs, SyntaxOf, ExprEvents, ExprAddrs, ExprParts, Len, ExprLen;
    var c, bodyAt, more := clauses[0], at + 1 + ExprLen(clauses[0].guard), clauses[1..];
    var guard, body := ExprEvents(c.guard, at + 1, false, inLoop), Events(c.body, bodyAt, inLoop);
    var rest := ClauseEvents(more, bodyAt + Len(c.body), inLoop);
    assert ClauseEvents(clauses, at, inLoop) == guard + (body + rest);
    assert ClauseSyntax(clauses) == Both(Of(c.guard), Both(SyntaxOf(c.body), ClauseSyntax(more)));
    assert ClauseAddrs(clauses, false) == ExprAddrs(c.guard, false) + (Addrs(c.body, false) + ClauseAddrs(more, false));
    hide ClauseEvents, ClauseAddrs, ClauseSyntax;
    TellsBoth(x, body, Addrs(c.body, false), SyntaxOf(c.body), false, rest, ClauseAddrs(more, false), ClauseSyntax(more), false);
    TellsBoth(x, guard, ExprAddrs(c.guard, false), Of(c.guard), false,
              body + rest, Addrs(c.body, false) + ClauseAddrs(more, false), Both(SyntaxOf(c.body), ClauseSyntax(more)), false);
  }

  lemma {:induction false} EventsAppend(a: seq<Stmt>, b: seq<Stmt>, at: nat, inLoop: bool)
    ensures Events(a + b, at, inLoop) == Events(a, at, inLoop) + Events(b, at + Len(a), inLoop)
    ensures SyntaxOf(a + b) == Both(SyntaxOf(a), SyntaxOf(b)) && Len(a + b) == Len(a) + Len(b)
    decreases a
  {
    if a == [] {
      assert a + b == b;
    } else {
      assert (a + b)[1..] == a[1..] + b;
      EventsAppend(a[1..], b, at + StmtLen(a[0]), inLoop);
    }
  }

  /** A write to a field is reported whenever some call before it passes the variable by value, nothing
      behind it mentions the variable, the variable's address is taken nowhere, and the variable is of
      struct type and declared in the body. */
  lemma LostWritesAreReported(before: seq<Stmt>, x: Var, f: string, compound: bool, e: Expr, after: seq<Stmt>, at: nat,
                              objects: map<Var, VarInfo>)
    requires var body := before + [SetField(x, f, compound, e)] + after;
             && IsPassed(x, SyntaxOf(before)) && !IsMentioned(x, Both(Of(e), SyntaxOf(after)))
             && AddrOf(x) !in SyntaxOf(body).parts
             && x in objects && objects[x].isStruct && !objects[x].isField && at <= objects[x].pos <= at + Len(body)
    ensures Event(at + Len(before), x, FieldWrite, false)
            in Reports(before + [SetField(x, f, compound, e)] + after, at, objects)
  {
    hide Events, Addrs, SyntaxOf, StmtLen, ExprEvents, ExprAddrs, ExprParts, Len, IsPassed, IsMentioned;
    var s := SetField(x, f, compound, e);
    var body, here := before + [s] + after, at + Len(before);
    LayoutOf(before, s, after, at);
    PassBefore(x, before, at);
    NotMentioned(x, e, after, here + 3, here + StmtLen(s));
    AddressTakenIn(x, body, at);
    hide Tells;
    assert WriteIsLost(Events(body, at, false), Event(here, x, FieldWrite, false));
  }

  lemma PassBefore(x: Var, before: seq<Stmt>, at: nat)
    requires IsPassed(x, SyntaxOf(before))
    ensures HasPass(x, Events(before, at, false))
  {
    hide Events, Addrs, SyntaxOf, IsPassed, HasPass, IsMentioned;
    BlockTells(x, before, at, false);
  }

  lemma NotMentioned(x: Var, e: Expr, after: seq<Stmt>, eAt: nat, afterAt: nat)
    requires !IsMentioned(x, Both(Of(e), SyntaxOf(after)))
    ensures forall ev | ev in ExprEvents(e, eAt, false, false) + Events(after, afterAt, false) :: ev.v != x
  {
    hide Events, Addrs, SyntaxOf, ExprEvents, ExprAddrs, ExprParts, IsPassed, HasPass;
    ExprTells(x, e, eAt, false, false);
    BlockTells(x, after, afterAt, false);
    assert !IsMentioned(x, Of(e)) && !IsMentioned(x, SyntaxOf(after));
  }

  lemma AddressTakenIn(x: Var, body: seq<Stmt>, at: nat)
    ensures x in Addrs(body, false) <==> AddrOf(x) in SyntaxOf(body).parts
  {
    hide Events, Addrs, SyntaxOf, IsPassed, HasPass, IsMentioned;
    BlockTells(x, body, at, false);
  }

  lemma EventsFirst(s: Stmt, after: seq<Stmt>, at: nat)
    requires s.SetField?
    ensures Events([s] + after, at, false)
         == {Event(at, s.x, FieldWrite, false)} + (ExprEvents(s.e, at + 3, false, false) + Events(after, at + StmtLen(s), false))
  {
    hide StmtLen, ExprEvents;
    assert ([s] + after)[1..] == after;
    assert Events([s] + after, at, false) == StmtEvents(s, at, false) + Events(after, at + StmtLen(s), false);
    assert StmtEvents(s, at, false) == {Event(at, s.x, FieldWrite, false)} + ExprEvents(s.e, at + 3, false, false);
    hide Events, StmtEvents;
  }

  /** The occurrences before the write, the write, and the occurrences behind it. */
  lemma LayoutOf(before: seq<Stmt>, s: Stmt, after: seq<Stmt>, at: nat)
    requires s.SetField?
    ensures var here := at + Len(before);
            && Events(before + [s] + after, at, false)
               == Events(before, at, false) + ({Event(here, s.x, FieldWrite, false)}
                  + (ExprEvents(s.e, here + 3, false, false) + Events(after, here + StmtLen(s), false)))
            && forall ev | ev in Events(before, at, false) :: ev.pos < here
  {
    hide StmtLen, Len, ExprEvents;
    assert before + [s] + after == before + ([s] + after);
    EventsAppend(before, [s] + after, at, false);
    BlockFits(before, at, false);
    EventsFirst(s, after, at + Len(before));
    hide Events;
  }

  // A post statement runs before the loop condition is tested again, so a write there can be read
  // although nothing after it in the source reads it.

  const TEST := Call("more", [Use("x")])
  const POST := [SetField("x", "done", false, Lit(1))]
  const LOOP := For([], TEST, POST, [])
  const WRITE := Event(6, "x", FieldWrite, false)

  /** A struct variable declared at the start of the body. */
  const LOCAL_X: map<Var, VarInfo> := map["x" := VarInfo(false, 0, true)]

  /** The calls made by `for ; more(x); x.done = 1 {}` when `more` first answers 1 and then 0, with
      and without the write in the post statement. */
  lemma {:induction false} LoopTrace(post: seq<Stmt>, st: State, w: World)
    requires post == POST || post == [Eval(Lit(1))]
    requires st == State(map[], {}, [])
    requires forall t :: w(t) == Reply(Num(if |t| <= 1 then 1 else 0), map[])
    ensures ExecFor(TEST, post, [], st, w, 3).st.trace
            == [CallEvent("more", [Num(0)], map[])]
               + [CallEvent("more", [if post == POST then Rec(map["done" := Num(1)]) else Num(0)], map[])]
  {
    var args := [Use("x")];
    assert args[1..] == [];
    var c1 := CallEvent("more", [Num(0)], map[]);
    assert forall s: State | s.escaped == {} :: Visible(s) == map[];
    assert EvalArgs(args, st, w) == ManyValued([Num(0)], st);
    var t1 := EvalExpr(TEST, st, w);
    assert t1 == Valued(Num(1), State(map[], {}, [c1]));
    assert Exec([], t1.st, w, 2) == Run(Normal, t1.st);
    var x2 := if post == POST then Rec(map["done" := Num(1)]) else Num(0);
    var st2 := ExecStmt(post[0], t1.st, w, 2).st;
    assert EvalExpr(Lit(1), t1.st, w) == Valued(Num(1), t1.st);
    assert st2 == if post == POST then Set(t1.st, "x", x2) else t1.st;
    assert post[1..] == [] && Exec([], st2, w, 2) == Run(Normal, st2);
    assert Exec(post, t1.st, w, 2) == Run(Normal, st2) && Get(st2, "x") == x2 && st2.trace == [c1] && st2.escaped == {};
    assert EvalArgs(args, st2, w) == ManyValued([x2], st2);
    var t2 := EvalExpr(TEST, st2, w);
    assert t2.v == Num(0) && t2.st.trace == [c1] + [CallEvent("more", [x2], map[])];
    assert ExecFor(TEST, post, [], st2, w, 2) == Run(Normal, t2.st);
  }

  lemma LoopEventsOf()
    ensures Events([LOOP], 0, false) == { Event(3, "x", PassedByValue, false), WRITE }
    ensures Addrs([LOOP], true) == {} == Addrs([LOOP], false)
    ensures Drop([LOOP], 0, false, {WRITE}) == [For([], TEST, [Eval(Lit(1))], [])]
    ensures !PostsClear([LOOP], 0, false, {WRITE})
  {
    assert POST[1..] == [] && [LOOP][1..] == [] && TEST.args[1..] == [];
    assert ExprEvents(TEST, 1, false, false) == ArgEvents(TEST.args, 3, false) == {Event(3, "x", PassedByValue, false)};
    assert Events(POST, 6, false) == {WRITE};
    assert StmtEvents(LOOP, 0, false) == {Event(3, "x", PassedByValue, false), WRITE};
    assert forall fields :: Addrs(POST, fields) == {} && ArgAddrs(TEST.args, fields) == {} && StmtAddrs(LOOP, fields) == {};
    assert Drop(POST, 6, false, {WRITE}) == [Eval(Lit(1))];
    assert "x" in DroppedVars(Events(POST, 6, false), {WRITE});
    assert Event(3, "x", PassedByValue, false) in ExprEvents(TEST, 1, false, false) + Events(POST, 6, false);
    assert !PostClear(LOOP, 0, false, {WRITE});
  }

  /** The write is reported, yet dropping it changes what the loop condition is called with: the
      hypothesis about post statements cannot be left out. */
  lemma PostWriteIsRead()
    ensures WRITE in Reports([LOOP], 0, LOCAL_X) && !PostsClear([LOOP], 0, false, {WRITE})
    ensures exists st: State, w: World, fuel: nat ::
              Exec([LOOP], st, w, fuel).st.trace != Exec(Drop([LOOP], 0, false, {WRITE}), st, w, fuel).st.trace
  {
    hide Exec, ExecStmt, ExecFor, Events, Drop, PostsClear;
    LoopEventsOf();
    var w: World := (t: seq<CallEvent>) => Reply(Num(if |t| <= 1 then 1 else 0), map[]);
    var st := State(map[], {}, []);
    LoopTrace(POST, st, w);
    LoopTrace([Eval(Lit(1))], st, w);
    SingleLoop(POST, st, w);
    SingleLoop([Eval(Lit(1))], st, w);
    var t1, t2 := Exec([LOOP], st, w, 3).st.trace, Exec(Drop([LOOP], 0, false, {WRITE}), st, w, 3).st.trace;
    assert t1[1] != t2[1];
  }

  lemma SingleLoop(post: seq<Stmt>, st: State, w: World)
    ensures Exec([For([], TEST, post, [])], st, w, 3).st == ExecFor(TEST, post, [], st, w, 3).st
  {
    var loop := For([], TEST, post, []);
    assert [loop][1..] == [];
    assert Exec([], st, w, 3) == Run(Normal, st);
    assert ExecStmt(loop, st, w, 3) == ExecFor(TEST, post, [], st, w, 3);
  }

  // The address of a field makes the variable reachable just as its own address does, but only the
  // latter keeps the analyzer from reporting.

  const SHARE := Eval(Call("f", [Use("x"), AddrOfField("x", "done")]))
  const LATE := SetField("x", "done", false, Lit(1))
  const LOOK := Eval(Call("h", []))
  const LATE_WRITE := Event(9, "x", FieldWrite, false)

  lemma SharedEvents()
    ensures Events([SHARE, LATE, LOOK], 0, false)
         == { Event(2, "x", PassedByValue, false), Event(5, "x", OtherUse, false), LATE_WRITE }
    ensures Addrs([SHARE, LATE, LOOK], false) == {} && Addrs([SHARE, LATE, LOOK], true) == {"x"}
    ensures Drop([SHARE, LATE, LOOK], 0, false, {LATE_WRITE}) == [SHARE, Eval(Lit(1)), LOOK]
  {
    var args := SHARE.e.args;
    assert args[1..] == [AddrOfField("x", "done")] && args[1..][1..] == [];
    assert ArgEvents(args[1..], 4, false) == {Event(5, "x", OtherUse, false)};
    assert ArgEvents(args, 2, false) == {Event(2, "x", PassedByValue, false), Event(5, "x", OtherUse, false)};
    assert ArgsLen(args[1..]) == 4 && ArgsLen(args) == 6 && StmtLen(SHARE) == 9;
    assert forall fields :: ArgAddrs(args[1..], fields) == (if fields then {"x"} else {});
    assert forall fields :: ArgAddrs(args, fields) == (if fields then {"x"} else {});
    assert [SHARE, LATE, LOOK][1..] == [LATE, LOOK] && [LATE, LOOK][1..] == [LOOK] && [LOOK][1..] == [];
    assert Events([LOOK], 13, false) == {} && Events([LATE, LOOK], 9, false) == {LATE_WRITE};
    forall fields
      ensures Addrs([LOOK], fields) == {} && Addrs([LATE, LOOK], fields) == {}
    {
      assert ArgAddrs([], fields) == {} && ExprAddrs(LOOK.e, fields) == {} && StmtAddrs(LOOK, fields) == {};
      assert Addrs([], fields) == {} && StmtAddrs(LATE, fields) == {};
    }
    assert Drop([LOOK], 13, false, {LATE_WRITE}) == [LOOK];
    assert Drop([LATE, LOOK], 9, false, {LATE_WRITE}) == [Eval(Lit(1)), LOOK];
  }

  const SHARED := State(map[], {"x"}, [CallEvent("f", [Num(0), Ref("x")], map["x" := Num(0)])])

  lemma AfterSharing(w: World)
    requires forall t :: w(t) == Reply(Num(0), map[])
    ensures EvalExpr(SHARE.e, State(map[], {}, []), w) == Valued(Num(0), SHARED)
  {
    var st, st0 := State(map[], {}, []), State(map[], {"x"}, []);
    var args := SHARE.e.args;
    assert args[1..] == [AddrOfField("x", "done")] && args[1..][1..] == [];
    assert EvalArgs([], st0, w) == ManyValued([], st0);
    assert EvalArgs(args[1..], st, w) == ManyValued([Ref("x")], st0);
    assert EvalArgs(args, st, w) == ManyValued([Num(0), Ref("x")], st0);
    assert Visible(st0) == map["x" := Num(0)];
    var nothing: map<Var, Value> := map[];
    assert nothing + nothing == nothing;
  }

  lemma AfterLooking(st: State, w: World)
    requires forall t :: w(t) == Reply(Num(0), map[])
    ensures EvalExpr(LOOK.e, st, w).st.trace == st.trace + [CallEvent("h", [], Visible(st))]
  {
    assert EvalArgs([], st, w) == ManyValued([], st);
  }

  /** What the second call can reach, with and without the write. */
  lemma SharedTrace(late: Stmt, w: World)
    requires late == LATE || late == Eval(Lit(1))
    requires forall t :: w(t) == Reply(Num(0), map[])
    ensures var trace := Exec([SHARE, late, LOOK], State(map[], {}, []), w, 0).st.trace;
            |trace| == 2 && trace[1].visible == map["x" := if late == LATE then Rec(map["done" := Num(1)]) else Num(0)]
  {
    AfterSharing(w);
    var x := if late == LATE then Rec(map["done" := Num(1)]) else Num(0);
    var st := ExecStmt(late, SHARED, w, 0).st;
    assert EvalExpr(Lit(1), SHARED, w) == Valued(Num(1), SHARED);
    assert st == if late == LATE then Set(SHARED, "x", x) else SHARED;
    assert ExecStmt(late, SHARED, w, 0) == Run(Normal, st) && Visible(st) == map["x" := x];
    AfterLooking(st, w);
    hide EvalExpr, Visible;
    var end := EvalExpr(LOOK.e, st, w).st;
    assert [SHARE, late, LOOK][1..] == [late, LOOK] && [late, LOOK][1..] == [LOOK] && [LOOK][1..] == [];
    assert Exec([], end, w, 0) == Run(Normal, end);
    assert Exec([LOOK], st, w, 0) == Run(Normal, end);
    assert Exec([late, LOOK], SHARED, w, 0) == Run(Normal, end);
  }

  /** The write after `f(x, &x.done)` is reported, yet the call that follows it can read it. */
  lemma SharedFieldIsRead()
    ensures var body := [SHARE, LATE, LOOK];
            && LATE_WRITE in Reports(body, 0, LOCAL_X) && PostsClear(body, 0, false, {LATE_WRITE})
            && exists st: State, w: World, fuel: nat ::
                 Exec(body, st, w, fuel).st.trace != Exec(Drop(body, 0, false, {LATE_WRITE}), st, w, fuel).st.trace
  {
    SharedIsReported();
    SharedEvents();
    hide Exec, Events, Drop, Addrs, Reports, PostsClear;
    var w: World := (t: seq<CallEvent>) => Reply(Num(0), map[]);
    SharedTrace(LATE, w);
    SharedTrace(Eval(Lit(1)), w);
    var st := State(map[], {}, []);
    var t1, t2 := Exec([SHARE, LATE, LOOK], st, w, 0).st.trace, Exec([SHARE, Eval(Lit(1)), LOOK], st, w, 0).st.trace;
    assert t1[1].visible["x"] != t2[1].visible["x"];
  }

  lemma SharedIsReported()
    ensures LATE_WRITE in Reports([SHARE, LATE, LOOK], 0, LOCAL_X)
    ensures PostsClear([SHARE, LATE, LOOK], 0, false, {LATE_WRITE})
  {
    SharedEvents();
    assert [SHARE, LATE, LOOK][1..] == [LATE, LOOK] && [LATE, LOOK][1..] == [LOOK] && [LOOK][1..] == [];
    assert PostsClear([LOOK], 13, false, {LATE_WRITE}) && PostsClear([LATE, LOOK], 9, false, {LATE_WRITE});
    hide Events, Addrs;
  }
}
