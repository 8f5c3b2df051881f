/** "Did you mean" suggestions: the row-by-row edit distance, the distance it computes, and the
    nearest-name searches built on it. */
module Suggest {

  type Bytes = seq<bv8>

  // ----- Edit scripts: what a distance is -----

  /** One step of an edit script, read left to right over the source. */
  datatype Edit = Change(read: bv8, written: bv8) | Insert(c: bv8) | Delete(c: bv8)

  function Reads(e: Edit): Bytes {
    if e.Change? then [e.read] else if e.Delete? then [e.c] else []
  }

  function Writes(e: Edit): Bytes {
    if e.Change? then [e.written] else if e.Insert? then [e.c] else []
  }

  function CostOf(e: Edit): nat {
    if e.Change? && e.read == e.written then 0 else 1
  }

  function Source(script: seq<Edit>): Bytes {
    if script == [] then [] else Source(script[..|script| - 1]) + Reads(script[|script| - 1])
  }

  function Target(script: seq<Edit>): Bytes {
    if script == [] then [] else Target(script[..|script| - 1]) + Writes(script[|script| - 1])
  }

  function Cost(script: seq<Edit>): nat {
    if script == [] then 0 else Cost(script[..|script| - 1]) + CostOf(script[|script| - 1])
  }

  predicate Edits(script: seq<Edit>, a: Bytes, b: Bytes) {
    Source(script) == a && Target(script) == b
  }

  // ----- The distance -----

  function Min(x: int, y: int): int {
    if x < y then x else y
  }

  function Front(a: Bytes): Bytes
    requires a != []
  {
    a[..|a| - 1]
  }

  /** The recurrence on prefixes that the rows tabulate. */
  function Distance(a: Bytes, b: Bytes): nat
    decreases |a| + |b|
  {
    if a == [] then |b|
    else if b == [] then |a|
    else
      var cost := if a[|a| - 1] == b[|b| - 1] then 0 else 1;
      Min(Distance(Front(a), b) + 1, Min(Distance(a, Front(b)) + 1, Distance(Front(a), Front(b)) + cost))
  }

  lemma Snoc(script: seq<Edit>, e: Edit)
    ensures Source(script + [e]) == Source(script) + Reads(e)
    ensures Target(script + [e]) == Target(script) + Writes(e)
    ensures Cost(script + [e]) == Cost(script) + CostOf(e)
  {
    assert (script + [e])[..|script|] == script;
  }

  lemma Append(script: seq<Edit>, e: Edit, a: Bytes, b: Bytes)
    requires Edits(script, a, b)
    ensures Edits(script + [e], a + Reads(e), b + Writes(e))
    ensures Cost(script + [e]) == Cost(script) + CostOf(e)
  {
    Snoc(script, e);
  }

  /** The distance is reached by a script ... */
  lemma {:induction false} BestScript(a: Bytes, b: Bytes) returns (script: seq<Edit>)
    ensures Edits(script, a, b) && Cost(script) == Distance(a, b)
    decreases |a| + |b|
  {
    if a == [] && b == [] {
      script := [];
    } else {
      hide Edits, Cost;
      assert a != [] ==> a == Front(a) + [a[|a| - 1]];
      assert b != [] ==> b == Front(b) + [b[|b| - 1]];
      assert a + [] == a && b + [] == b;
      var rest;
      if a == [] || (b != [] && Distance(a, b) == Distance(a, Front(b)) + 1) {
        var e := Insert(b[|b| - 1]);
        rest := BestScript(a, Front(b));
        Append(rest, e, a, Front(b));
        script := rest + [e];
      } else if b == [] || Distance(a, b) == Distance(Front(a), b) + 1 {
        var e := Delete(a[|a| - 1]);
        rest := BestScript(Front(a), b);
        Append(rest, e, Front(a), b);
        script := rest + [e];
      } else {
        var e := Change(a[|a| - 1], b[|b| - 1]);
        rest := BestScript(Front(a), Front(b));
        Append(rest, e, Front(a), Front(b));
        script := rest + [e];
      }
    }
  }

  /** ... and no script is cheaper. */
  lemma {:induction false} NoCheaperScript(script: seq<Edit>, a: Bytes, b: Bytes)
    requires Edits(script, a, b)
    ensures Distance(a, b) <= Cost(script)
  {
    if script != [] {
      var rest, last := script[..|script| - 1], script[|script| - 1];
      NoCheaperScript(rest, Source(rest), Target(rest));
      match last {
        case Change(x, y) => assert Front(a) == Source(rest) && Front(b) == Target(rest);
        case Insert(y) =>
          assert Front(b) == Target(rest) && a == Source(rest);
          OneMoreByte(a, b);
        case Delete(x) =>
          assert Front(a) == Source(rest) && b == Target(rest);
          OneMoreByte(b, a);
          Symmetric(a, b);
          Symmetric(Front(a), b);
      }
    }
  }

  lemma OneMoreByte(a: Bytes, b: Bytes)
    requires b != []
    ensures Distance(a, b) <= Distance(a, Front(b)) + 1
  {
  }

  // ----- It is a metric -----

  lemma {:induction false} Symmetric(a: Bytes, b: Bytes)
    ensures Distance(a, b) == Distance(b, a)
    decreases |a| + |b|
  {
    if a != [] && b != [] {
      Symmetric(Front(a), b);
      Symmetric(a, Front(b));
      Symmetric(Front(a), Front(b));
    }
  }

  lemma {:induction false} ZeroOnlyIfEqual(a: Bytes, b: Bytes)
    ensures Distance(a, b) == 0 <==> a == b
    decreases |a| + |b|
  {
    if a != [] && b != [] {
      ZeroOnlyIfEqual(Front(a), Front(b));
      assert a == Front(a) + [a[|a| - 1]] && b == Front(b) + [b[|b| - 1]];
    }
  }

  /** The last edits of two scripts that meet: nothing stands between them, or the first edit writes
      the byte that the second reads. */
  lemma Meet(f: seq<Edit>, x: Edit, g: seq<Edit>, y: Edit)
    requires Target(f + [x]) == Source(g + [y])
    ensures x.Delete? ==> Target(f) == Source(g + [y])
    ensures y.Insert? ==> Target(f + [x]) == Source(g)
    ensures !x.Delete? && !y.Insert? ==> Target(f) == Source(g) && Writes(x) == Reads(y)
  {
    Snoc(f, x);
    Snoc(g, y);
    hide Source, Target;
    var a, b := Target(f), Source(g);
    assert a + [] == a && b + [] == b;
    if !x.Delete? && !y.Insert? {
      var c := a + Writes(x);
      assert c == b + Reads(y) && Front(c) == a && Front(c) == b && c[|c| - 1] == Writes(x)[0] == Reads(y)[0];
    }
  }

  /** A script followed by a last deletion on its left, or a last insertion on its right. */
  lemma FuseOneEnd(rest: seq<Edit>, a: Bytes, b: Bytes, e: Edit)
    requires Edits(rest, a, b)
    ensures e.Delete? ==> Edits(rest + [e], a + Reads(e), b)
    ensures e.Insert? ==> Edits(rest + [e], a, b + Writes(e))
    ensures Cost(rest + [e]) == Cost(rest) + CostOf(e)
  {
    Snoc(rest, e);
    hide Source, Target, Cost;
    assert a + [] == a && b + [] == b;
  }

  /** Last edits, the first of which writes the byte that the second reads. */
  lemma FuseEnds(rest: seq<Edit>, a: Bytes, b: Bytes, x: Edit, y: Edit) returns (script: seq<Edit>)
    requires Edits(rest, a, b) && !x.Delete? && !y.Insert? && Writes(x) == Reads(y)
    ensures Edits(script, a + Reads(x), b + Writes(y))
    ensures Cost(script) <= Cost(rest) + CostOf(x) + CostOf(y)
  {
    hide Source, Target, Cost;
    assert a + [] == a && b + [] == b;
    assert Writes(x)[0] == Reads(y)[0];
    if x.Insert? && y.Delete? {
      script := rest;
    } else {
      var e := if x.Insert? then Insert(y.written) else if y.Delete? then Delete(x.read) else Change(x.read, y.written);
      Snoc(rest, e);
      script := rest + [e];
    }
  }

  /** Two scripts run one after the other can be fused at no extra cost. */
  lemma {:induction false} Fuse(first: seq<Edit>, second: seq<Edit>) returns (script: seq<Edit>)
    requires Target(first) == Source(second)
    ensures Edits(script, Source(first), Target(second)) && Cost(script) <= Cost(first) + Cost(second)
    decreases |first| + |second|, 1
  {
    if first == [] {
      script := second;
    } else if second == [] {
      script := first;
    } else {
      hide Source, Target, Cost, Edits;
      var f, x := first[..|first| - 1], first[|first| - 1];
      var g, y := second[..|second| - 1], second[|second| - 1];
      assert first == f + [x] && second == g + [y];
      script := FuseLast(f, x, g, y);
    }
  }

  lemma {:induction false} FuseLast(f: seq<Edit>, x: Edit, g: seq<Edit>, y: Edit) returns (script: seq<Edit>)
    requires Target(f + [x]) == Source(g + [y])
    ensures Edits(script, Source(f + [x]), Target(g + [y]))
    ensures Cost(script) <= Cost(f + [x]) + Cost(g + [y])
    decreases |f| + |g| + 2, 0
  {
    Snoc(f, x);
    Snoc(g, y);
    hide Source, Target, Cost, Edits, Reads, Writes;
    Meet(f, x, g, y);
    if x.Delete? {
      script := Fuse(f, g + [y]);
      FuseOneEnd(script, Source(f), Target(g + [y]), x);
      script := script + [x];
    } else if y.Insert? {
      script := Fuse(f + [x], g);
      FuseOneEnd(script, Source(f + [x]), Target(g), y);
      script := script + [y];
    } else {
      var rest := Fuse(f, g);
      script := FuseEnds(rest, Source(f), Target(g), x, y);
    }
  }

  lemma Triangle(a: Bytes, b: Bytes, c: Bytes)
    ensures Distance(a, c) <= Distance(a, b) + Distance(b, c)
  {
    var first := BestScript(a, b);
    var second := BestScript(b, c);
    var script := Fuse(first, second);
    NoCheaperScript(script, a, c);
  }

  // ----- The row-by-row computation -----

  /** The cell for the first i bytes of `a` and the first j bytes of `b`. */
  function Cell(a: Bytes, b: Bytes, i: int, j: int): int
    requires 0 <= i <= |a| && 0 <= j <= |b|
  {
    Distance(a[..i], b[..j])
  }

  lemma Edges(a: Bytes, b: Bytes, i: int, j: int)
    requires 0 <= i <= |a| && 0 <= j <= |b|
    ensures Cell(a, b, i, 0) == i && Cell(a, b, 0, j) == j
  {
  }

  lemma Inner(a: Bytes, b: Bytes, i: int, j: int)
    requires 1 <= i <= |a| && 1 <= j <= |b|
    ensures Cell(a, b, i, j) == Min(Cell(a, b, i - 1, j) + 1,
                                       Min(Cell(a, b, i, j - 1) + 1,
                                              Cell(a, b, i - 1, j - 1) + if a[i - 1] == b[j - 1] then 0 else 1))
  {
    assert Front(a[..i]) == a[..i - 1] && Front(b[..j]) == b[..j - 1];
  }

  /** Keeps one row of the table, over the shorter string. */
  method Levenshtein(x: Bytes, y: Bytes) returns (d: nat)
    ensures d == Distance(x, y)
  {
    if |x| == 0 {
      return |y|;
    }
    if |y| == 0 {
      return |x|;
    }
    var a, b := x, y;
    if |a| > |b| {
      a, b := b, a;
    }
    Symmetric(x, y);
    d := LastCell(a, b);
  }

  method LastCell(a: Bytes, b: Bytes) returns (d: nat)
    requires a != [] && b != []
    ensures d == Distance(a, b)
  {
    hide Cell;
    var prev := new int[|a| + 1];
    for i := 0 to prev.Length
      invariant forall k :: 0 <= k < i ==> prev[k] == Cell(a, b, k, 0)
    {
      prev[i] := i;
      Edges(a, b, i, 0);
    }
    for j := 1 to |b| + 1
      invariant prev.Length == |a| + 1
      invariant forall k :: 0 <= k <= |a| ==> prev[k] == Cell(a, b, k, j - 1)
    {
      var curr := new int[|a| + 1];
      curr[0] := j;
      Edges(a, b, 0, j);
      for i := 1 to |a| + 1
        invariant prev != curr && forall k :: 0 <= k <= |a| ==> prev[k] == Cell(a, b, k, j - 1)
        invariant forall k :: 0 <= k < i ==> curr[k] == Cell(a, b, k, j)
      {
        var cost := 1;
        if a[i - 1] == b[j - 1] {
          cost := 0;
        }
        Inner(a, b, i, j);
        curr[i] := Min(curr[i - 1] + 1, Min(prev[i] + 1, prev[i - 1] + cost));
      }
      prev := curr;
    }
    WholeTable(a, b);
    return prev[|a|];
  }

  lemma WholeTable(a: Bytes, b: Bytes)
    ensures Cell(a, b, |a|, |b|) == Distance(a, b)
  {
    assert a[..|a|] == a && b[..|b|] == b;
  }

  // ----- Searches for the nearest name -----

  datatype Command = Command(name: Bytes, aliases: seq<Bytes>, hidden: bool)

  datatype Flag = Flag(name: Bytes, hidden: bool, deprecated: Bytes)

  /** The names a search compares with, in the order in which it meets them. */
  function CommandNames(cmds: seq<Command>): seq<Bytes> {
    if cmds == [] then []
    else
      var c := cmds[|cmds| - 1];
      CommandNames(cmds[..|cmds| - 1]) + if c.hidden then [] else [c.name] + c.aliases
  }

  function FlagNames(flags: seq<Flag>): seq<Bytes> {
    if flags == [] then []
    else
      var f := flags[|flags| - 1];
      FlagNames(flags[..|flags| - 1]) + if f.hidden || f.deprecated != [] then [] else [f.name]
  }

  function Max(x: int, y: int): int {
    if x > y then x else y
  }

  function Threshold(typed: Bytes): int {
    Max(2, |typed| / 3)
  }

  predicate Near(typed: Bytes, name: Bytes) {
    Distance(typed, name) < |typed| && Distance(typed, name) <= Threshold(typed)
  }

  /** `best` is the first of the names nearest to `typed`, or nothing if no name is near. */
  ghost predicate Nearest(typed: Bytes, names: seq<Bytes>, best: Bytes) {
    && (best != [] ==> exists i :: FirstNearest(typed, names, i) && names[i] == best && Near(typed, best))
    && (best == [] ==> forall n | n in names :: !Near(typed, n))
  }

  predicate FirstNearest(typed: Bytes, names: seq<Bytes>, i: int) {
    && 0 <= i < |names|
    && (forall k | 0 <= k < |names| :: Distance(typed, names[i]) <= Distance(typed, names[k]))
    && (forall k | 0 <= k < i :: Distance(typed, names[i]) < Distance(typed, names[k]))
  }

  /** The state of a search that has met `names`. */
  ghost predicate SearchState(typed: Bytes, names: seq<Bytes>, best: Bytes, bestDist: int) {
    && bestDist <= |typed|
    && (forall n | n in names :: bestDist <= Distance(typed, n))
    && (bestDist == |typed| ==> best == [])
    && (bestDist < |typed| ==>
          best != [] && exists i :: FirstNearest(typed, names, i) && names[i] == best && Distance(typed, best) == bestDist)
  }

  lemma NoNameYet(typed: Bytes)
    ensures SearchState(typed, [], [], |typed|)
  {
  }

  /** What comparing with one more name does to the search. */
  lemma OneMoreName(typed: Bytes, name: Bytes, names: seq<Bytes>, best: Bytes, bestDist: int)
    requires SearchState(typed, names, best, bestDist)
    ensures var d := Distance(typed, name);
            SearchState(typed, names + [name], if d < bestDist then name else best, if d < bestDist then d else bestDist)
  {
    var all := names + [name];
    assert forall k | 0 <= k < |names| :: all[k] == names[k] && names[k] in names;
    if Distance(typed, name) < bestDist {
      assert FirstNearest(typed, all, |names|);
    } else if bestDist < |typed| {
      var i :| FirstNearest(typed, names, i) && names[i] == best && Distance(typed, best) == bestDist;
      assert FirstNearest(typed, all, i) && all[i] == best;
    }
  }

  lemma Conclude(typed: Bytes, names: seq<Bytes>, best: Bytes, bestDist: int)
    requires SearchState(typed, names, best, bestDist)
    ensures Nearest(typed, names, if bestDist > Threshold(typed) then [] else best)
  {
  }

  // ----- What is offered, without the lists -----

  /** Closer than the empty word, and at most two edits or a third of the word away. */
  predicate IsClose(typed: Bytes, name: Bytes) {
    var d := Distance(typed, name);
    d < |typed| && (d <= 2 || 3 * d <= |typed|)
  }

  predicate IsNameOf(c: Command, name: Bytes) {
    !c.hidden && (name == c.name || name in c.aliases)
  }

  /** `best` is the first name of the command at distance `d`, and no earlier one is nearer or as near. */
  predicate IsFirstOf(typed: Bytes, c: Command, best: Bytes) {
    || best == c.name
    || (Distance(typed, best) < Distance(typed, c.name)
        && exists k | 0 <= k < |c.aliases| :: c.aliases[k] == best
             && forall j | 0 <= j < k :: Distance(typed, best) < Distance(typed, c.aliases[j]))
  }

  /** The suggestion is a name or alias of a visible command, close to the word, nearer than all that
      come before it and as near as all others. */
  ghost predicate IsBestCommand(typed: Bytes, cmds: seq<Command>, best: Bytes) {
    && IsClose(typed, best)
    && (forall c, n | c in cmds && IsNameOf(c, n) :: Distance(typed, best) <= Distance(typed, n))
    && exists i | 0 <= i < |cmds| ::
         && IsNameOf(cmds[i], best) && IsFirstOf(typed, cmds[i], best)
         && forall k, n | 0 <= k < i && IsNameOf(cmds[k], n) :: Distance(typed, best) < Distance(typed, n)
  }

  ghost predicate IsBestFlag(typed: Bytes, flags: seq<Flag>, best: Bytes) {
    && IsClose(typed, best)
    && (forall f | f in flags && !f.hidden && f.deprecated == [] :: Distance(typed, best) <= Distance(typed, f.name))
    && exists i | 0 <= i < |flags| ::
         && flags[i].name == best && !flags[i].hidden && flags[i].deprecated == []
         && forall k | 0 <= k < i && !flags[k].hidden && flags[k].deprecated == [] ::
              Distance(typed, best) < Distance(typed, flags[k].name)
  }

  lemma {:induction false} CommandNamesExactly(cmds: seq<Command>)
    ensures forall n :: n in CommandNames(cmds) <==> exists c | c in cmds :: IsNameOf(c, n)
  {
    if cmds != [] {
      var front, c := cmds[..|cmds| - 1], cmds[|cmds| - 1];
      CommandNamesExactly(front);
      assert forall x :: x in cmds <==> x in front || x == c;
      forall n
        ensures n in CommandNames(cmds) <==> n in CommandNames(front) || IsNameOf(c, n)
      {
      }
      hide CommandNames, IsNameOf;
    }
  }

  /** The name at place `at` of the list is the k-th of the i-th command. */
  lemma {:induction false} CommandAt(cmds: seq<Command>, at: nat) returns (i: nat, k: nat)
    requires at < |CommandNames(cmds)|
    ensures i < |cmds| && !cmds[i].hidden && k <= |cmds[i].aliases|
    ensures CommandNames(cmds)[at] == ([cmds[i].name] + cmds[i].aliases)[k]
    ensures CommandNames(cmds)[..at] == CommandNames(cmds[..i]) + ([cmds[i].name] + cmds[i].aliases)[..k]
  {
    var n := |cmds| - 1;
    var front := CommandNames(cmds[..n]);
    if at < |front| {
      i, k := CommandAt(cmds[..n], at);
      assert cmds[..n][..i] == cmds[..i];
      assert CommandNames(cmds)[..at] == front[..at];
    } else {
      i, k := n, at - |front|;
    }
  }

  lemma CloseIsNear(typed: Bytes, name: Bytes)
    ensures IsClose(typed, name) <==> Near(typed, name)
  {
  }

  lemma NearestCommand(typed: Bytes, cmds: seq<Command>, best: Bytes)
    requires Nearest(typed, CommandNames(cmds), best)
    ensures best != [] ==> IsBestCommand(typed, cmds, best)
    ensures best == [] ==> forall c, n | c in cmds && IsNameOf(c, n) :: !IsClose(typed, n)
  {
    CommandNamesExactly(cmds);
    hide Distance, CommandNames;
    forall n
      ensures IsClose(typed, n) <==> Near(typed, n)
    {
      CloseIsNear(typed, n);
    }
    hide IsClose, Near, IsNameOf;
    if best != [] {
      var names := CommandNames(cmds);
      var at: nat :| FirstNearest(typed, names, at) && names[at] == best;
      assert forall n | n in names :: Distance(typed, best) <= Distance(typed, n);
      var i := FirstCommand(typed, cmds, at);
    }
  }

  lemma FirstCommand(typed: Bytes, cmds: seq<Command>, at: nat) returns (i: nat)
    requires at < |CommandNames(cmds)| && FirstNearest(typed, CommandNames(cmds), at)
    ensures var best := CommandNames(cmds)[at];
            && i < |cmds| && IsNameOf(cmds[i], best) && IsFirstOf(typed, cmds[i], best)
            && forall k, n | 0 <= k < i && IsNameOf(cmds[k], n) :: Distance(typed, best) < Distance(typed, n)
  {
    var k: nat;
    i, k := CommandAt(cmds, at);
    CommandNamesExactly(cmds[..i]);
    hide CommandNames, Distance;
    var names := CommandNames(cmds);
    var best := names[at];
    forall n | n in names[..at]
      ensures Distance(typed, best) < Distance(typed, n)
    {
      var j :| 0 <= j < at && names[j] == n;
    }
    FirstOfCommand(typed, cmds[i], k, best);
    hide FirstNearest, IsFirstOf, IsNameOf;
    forall j, n | 0 <= j < i && IsNameOf(cmds[j], n)
      ensures Distance(typed, best) < Distance(typed, n)
    {
      assert cmds[j] in cmds[..i];
    }
  }

  lemma FirstOfCommand(typed: Bytes, c: Command, k: nat, best: Bytes)
    requires k <= |c.aliases| && !c.hidden && ([c.name] + c.aliases)[k] == best
    requires forall n | n in ([c.name] + c.aliases)[..k] :: Distance(typed, best) < Distance(typed, n)
    ensures IsNameOf(c, best) && IsFirstOf(typed, c, best)
  {
    var own := [c.name] + c.aliases;
    if k > 0 {
      assert own[..k][0] == c.name;
      forall j | 0 <= j < k - 1
        ensures Distance(typed, best) < Distance(typed, c.aliases[j])
      {
        assert own[..k][j + 1] == c.aliases[j];
      }
      assert c.aliases[k - 1] == best;
    }
  }

  lemma {:induction false} FlagNamesExactly(flags: seq<Flag>)
    ensures forall n :: n in FlagNames(flags) <==> exists f | f in flags :: !f.hidden && f.deprecated == [] && f.name == n
  {
    if flags != [] {
      var front, f := flags[..|flags| - 1], flags[|flags| - 1];
      FlagNamesExactly(front);
      assert forall x :: x in flags <==> x in front || x == f;
    }
  }

  lemma {:induction false} FlagAt(flags: seq<Flag>, at: nat) returns (i: nat)
    requires at < |FlagNames(flags)|
    ensures i < |flags| && !flags[i].hidden && flags[i].deprecated == [] && flags[i].name == FlagNames(flags)[at]
    ensures FlagNames(flags)[..at] == FlagNames(flags[..i])
  {
    var n := |flags| - 1;
    var front := FlagNames(flags[..n]);
    if at < |front| {
      i := FlagAt(flags[..n], at);
      assert flags[..n][..i] == flags[..i];
      assert FlagNames(flags)[..at] == front[..at];
    } else {
      i := n;
    }
  }

  lemma NearestFlag(typed: Bytes, flags: seq<Flag>, best: Bytes)
    requires Nearest(typed, FlagNames(flags), best)
    ensures best != [] ==> IsBestFlag(typed, flags, best)
    ensures best == [] ==> forall f | f in flags && !f.hidden && f.deprecated == [] :: !IsClose(typed, f.name)
  {
    FlagNamesExactly(flags);
    hide Distance, FlagNames;
    forall n
      ensures IsClose(typed, n) <==> Near(typed, n)
    {
      CloseIsNear(typed, n);
    }
    hide IsClose, Near;
    var names := FlagNames(flags);
    assert forall f | f in flags && !f.hidden && f.deprecated == [] :: f.name in names;
    if best != [] {
      var at: nat :| FirstNearest(typed, names, at) && names[at] == best;
      assert forall n | n in names :: Distance(typed, best) <= Distance(typed, n);
      var i := FirstFlag(typed, flags, at);
    }
  }

  lemma FirstFlag(typed: Bytes, flags: seq<Flag>, at: nat) returns (i: nat)
    requires at < |FlagNames(flags)| && FirstNearest(typed, FlagNames(flags), at)
    ensures var best := FlagNames(flags)[at];
            && i < |flags| && flags[i].name == best && !flags[i].hidden && flags[i].deprecated == []
            && forall k | 0 <= k < i && !flags[k].hidden && flags[k].deprecated == [] ::
                 Distance(typed, best) < Distance(typed, flags[k].name)
  {
    i := FlagAt(flags, at);
    FlagNamesExactly(flags[..i]);
    hide FlagNames, Distance;
    var names := FlagNames(flags);
    forall k | 0 <= k < i && !flags[k].hidden && flags[k].deprecated == []
      ensures Distance(typed, names[at]) < Distance(typed, flags[k].name)
    {
      assert flags[k] in flags[..i] && flags[k].name in names[..at];
      var j :| 0 <= j < at && names[j] == flags[k].name;
    }
  }

  /** Suggests nothing for an exact match on a visible command's name; otherwise the first nearest
      visible name or alias, if it is near enough. */
  method SuggestCommand(typed: Bytes, cmds: seq<Command>) returns (best: Bytes)
    ensures (exists c | c in cmds :: !c.hidden && c.name == typed) ==> best == []
    ensures best != [] ==> IsBestCommand(typed, cmds, best)
    ensures best == [] && !(exists c | c in cmds :: !c.hidden && c.name == typed) ==>
      forall c, n | c in cmds && IsNameOf(c, n) :: !IsClose(typed, n)
  {
    hide SearchState, Nearest, Distance;
    best := [];
    var bestDist := |typed|;
    NoNameYet(typed);
    for i := 0 to |cmds|
      invariant forall k | 0 <= k < i :: !cmds[k].hidden ==> cmds[k].name != typed
      invariant SearchState(typed, CommandNames(cmds[..i]), best, bestDist)
    {
      var cmd := cmds[i];
      assert cmds[..i + 1][..i] == cmds[..i];
      ghost var before := CommandNames(cmds[..i]);
      if cmd.hidden {
        assert CommandNames(cmds[..i + 1]) == before;
        continue;
      }
      if cmd.name == typed {
        return [];
      }
      OneMoreName(typed, cmd.name, before, best, bestDist);
      var d := Levenshtein(typed, cmd.name);
      if d < bestDist {
        bestDist, best := d, cmd.name;
      }
      assert before + [cmd.name] + cmd.aliases[..0] == before + [cmd.name];
      for k := 0 to |cmd.aliases|
        invariant SearchState(typed, before + [cmd.name] + cmd.aliases[..k], best, bestDist)
      {
        OneMoreName(typed, cmd.aliases[k], before + [cmd.name] + cmd.aliases[..k], best, bestDist);
        d := Levenshtein(typed, cmd.aliases[k]);
        if d < bestDist {
          bestDist, best := d, cmd.aliases[k];
        }
        assert before + [cmd.name] + cmd.aliases[..k] + [cmd.aliases[k]] == before + [cmd.name] + cmd.aliases[..k + 1];
      }
      assert CommandNames(cmds[..i + 1]) == before + [cmd.name] + cmd.aliases[..|cmd.aliases|];
    }
    assert cmds[..|cmds|] == cmds;
    Conclude(typed, CommandNames(cmds), best, bestDist);
    NearestCommand(typed, cmds, if bestDist > Threshold(typed) then [] else best);
    hide IsBestCommand, IsClose, IsNameOf, CommandNames;
    if bestDist > Max(2, |typed| / 3) {
      return [];
    }
  }

  predicate Offered(f: Flag) {
    !f.hidden && f.deprecated == []
  }

  /** The same for flags, except that an exact match is remembered and the visit goes on. */
  method SuggestFlag(typed: Bytes, flags: seq<Flag>) returns (best: Bytes)
    ensures (exists f | f in flags :: !f.hidden && f.deprecated == [] && f.name == typed) ==> best == []
    ensures best != [] ==> IsBestFlag(typed, flags, best)
    ensures best == [] && !(exists f | f in flags :: !f.hidden && f.deprecated == [] && f.name == typed) ==>
      forall f | f in flags && !f.hidden && f.deprecated == [] :: !IsClose(typed, f.name)
  {
    hide SearchState, Nearest, Distance;
    best := [];
    var bestDist := |typed|;
    NoNameYet(typed);
    for i := 0 to |flags|
      invariant (exists k :: 0 <= k < i && Offered(flags[k]) && flags[k].name == typed) ==> best == [] && bestDist == 0
      invariant !(exists k :: 0 <= k < i && Offered(flags[k]) && flags[k].name == typed) ==>
          SearchState(typed, FlagNames(flags[..i]), best, bestDist)
    {
      var f := flags[i];
      assert flags[..i + 1][..i] == flags[..i];
      if f.hidden || f.deprecated != [] {
        assert FlagNames(flags[..i + 1]) == FlagNames(flags[..i]);
        continue;
      }
      if f.name == typed {
        best, bestDist := [], 0;
        continue;
      }
      if !(exists k :: 0 <= k < i && Offered(flags[k]) && flags[k].name == typed) {
        OneMoreName(typed, f.name, FlagNames(flags[..i]), best, bestDist);
      }
      var d := Levenshtein(typed, f.name);
      if d < bestDist {
        bestDist, best := d, f.name;
      }
    }
    assert flags[..|flags|] == flags;
    if !(exists f | f in flags :: Offered(f) && f.name == typed) {
      Conclude(typed, FlagNames(flags), best, bestDist);
      NearestFlag(typed, flags, if bestDist > Threshold(typed) then [] else best);
    }
    hide IsBestFlag, IsClose, FlagNames;
    if bestDist > Max(2, |typed| / 3) {
      return [];
    }
  }
}
