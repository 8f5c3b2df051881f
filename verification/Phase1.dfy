// The first analysis phase: one call per chunk, in sequence or in parallel, and the union of the
// mistakes that the replies report.
module Phase1 {
  import opened Options
  import opened Orders
  import opened Strings

  datatype Mistake = Mistake(category: string, summary: string, excerpt: string, confidence: real)

  // Mistakes by category. A category without mistakes is left out.
  type Grouped = map<string, seq<Mistake>>

  function Get(m: Grouped, c: string): seq<Mistake> {
    if c in m then m[c] else []
  }

  // ----- Parsing one reply -----

  datatype Pack = Pack(category: string, enabled: bool, threshold: real)

  function Normalized(mistakes: seq<Mistake>, category: string): seq<Mistake> {
    if mistakes == [] then []
    else
      var n := |mistakes| - 1;
      Normalized(mistakes[..n], category) +
        (if TrimSpace(mistakes[n].summary) == "" then [] else [Cleaned(mistakes[n], category)])
  }

  function AboveThreshold(mistakes: seq<Mistake>, threshold: real): seq<Mistake> {
    if threshold <= 0.0 || mistakes == [] then mistakes
    else
      var n := |mistakes| - 1;
      AboveThreshold(mistakes[..n], threshold) + (if mistakes[n].confidence < threshold then [] else [mistakes[n]])
  }

  // The pack of a category; a later pack hides an earlier one.
  function PackOf(packs: seq<Pack>, category: string): Option<Pack> {
    if packs == [] then None
    else if packs[|packs| - 1].category == category then Some(packs[|packs| - 1])
    else PackOf(packs[..|packs| - 1], category)
  }

  predicate IsAccepted(packs: seq<Pack>, category: string) {
    PackOf(packs, category).Some? && PackOf(packs, category).value.enabled
  }

  function Admitted(packs: seq<Pack>, category: string, reported: seq<Mistake>): seq<Mistake> {
    if !IsAccepted(packs, category) then []
    else AboveThreshold(Normalized(reported, category), PackOf(packs, category).value.threshold)
  }

  // What is kept of a reply: the admitted mistakes of the enabled categories.
  function Kept(packs: seq<Pack>, reported: Grouped): Grouped {
    map c | c in reported && Admitted(packs, c, reported[c]) != [] :: Admitted(packs, c, reported[c])
  }

  // A reported mistake with its text trimmed, under its own category or else that of the list.
  function Cleaned(m: Mistake, category: string): Mistake {
    var own := TrimSpace(m.category);
    Mistake(if own == "" then category else own, TrimSpace(m.summary), TrimSpace(m.excerpt), m.confidence)
  }

  // The i-th pack is the one that counts for the category: the last of it.
  predicate Governs(packs: seq<Pack>, i: nat, category: string) {
    && i < |packs| && packs[i].category == category
    && forall j | i < j < |packs| :: packs[j].category != category
  }

  lemma {:induction false} PackOfExactly(packs: seq<Pack>, category: string)
    ensures forall i: nat | Governs(packs, i, category) :: PackOf(packs, category) == Some(packs[i])
    ensures PackOf(packs, category).Some? ==> exists i: nat :: Governs(packs, i, category)
  {
    if packs != [] {
      var n := |packs| - 1;
      PackOfExactly(packs[..n], category);
      if packs[n].category == category {
        assert Governs(packs, n, category);
      } else {
        forall i: nat
          ensures Governs(packs, i, category) <==> Governs(packs[..n], i, category)
        {
        }
      }
    }
  }

  predicate IsAdmissible(m: Mistake, threshold: real) {
    TrimSpace(m.summary) != "" && (threshold <= 0.0 || m.confidence >= threshold)
  }

  // A reported mistake as it is kept: text trimmed, and under its own category if it has one.
  predicate IsKeptAs(r: Mistake, category: string, m: Mistake) {
    && m.category == (if TrimSpace(r.category) != "" then TrimSpace(r.category) else category)
    && m.summary == TrimSpace(r.summary) && m.excerpt == TrimSpace(r.excerpt) && m.confidence == r.confidence
  }

  // Nothing is kept under a category without an enabled governing pack.
  lemma KeptOnlyIfEnabled(packs: seq<Pack>, reported: Grouped, c: string)
    ensures c in Kept(packs, reported) ==> c in reported && exists p: nat :: Governs(packs, p, c) && packs[p].enabled
    ensures c in Kept(packs, reported) <==> Get(Kept(packs, reported), c) != []
  {
    PackOfExactly(packs, c);
  }

  // What is kept under any other: the reported mistakes that have a summary and reach the threshold of
  // its governing pack, one by one and in order.
  lemma KeptExactly(packs: seq<Pack>, p: nat, reported: Grouped, c: string, before: seq<Mistake>, r: Mistake)
      returns (m: Mistake)
    requires Governs(packs, p, c) && packs[p].enabled
    ensures IsKeptAs(r, c, m)
    ensures Get(Kept(packs, reported[c := []]), c) == []
    ensures Get(Kept(packs, reported[c := before + [r]]), c)
         == Get(Kept(packs, reported[c := before]), c) + (if IsAdmissible(r, packs[p].threshold) then [m] else [])
  {
    PackOfExactly(packs, c);
    m := Cleaned(r, c);
    NormalizedSnoc(before, r, c);
    var normal := Normalized(before, c);
    AboveThresholdSnoc(normal, m, packs[p].threshold);
    assert normal + [] == normal;
    hide Normalized, AboveThreshold, PackOf, Governs, Cleaned, TrimSpace;
  }

  lemma NormalizedSnoc(mistakes: seq<Mistake>, r: Mistake, c: string)
    ensures Normalized([], c) == []
    ensures Normalized(mistakes + [r], c)
         == Normalized(mistakes, c) + (if TrimSpace(r.summary) == "" then [] else [Cleaned(r, c)])
  {
    assert (mistakes + [r])[..|mistakes|] == mistakes;
  }

  lemma AboveThresholdSnoc(mistakes: seq<Mistake>, m: Mistake, threshold: real)
    ensures AboveThreshold([], threshold) == []
    ensures AboveThreshold(mistakes + [m], threshold)
         == AboveThreshold(mistakes, threshold) + (if threshold > 0.0 && m.confidence < threshold then [] else [m])
  {
    assert (mistakes + [m])[..|mistakes|] == mistakes;
  }

  lemma {:induction false} PackOfHasCategory(packs: seq<Pack>, category: string)
    ensures PackOf(packs, category).Some? ==> PackOf(packs, category).value.category == category
  {
    if packs != [] && packs[|packs| - 1].category != category {
      PackOfHasCategory(packs[..|packs| - 1], category);
    }
  }

  // The result does not depend on the order in which the reply's categories are visited; the
  // rejected categories are warned about once each, in that order.
  method ParsePhase1Response(packs: seq<Pack>, reported: Grouped, order: seq<string>)
      returns (out: Grouped, rejected: seq<string>)
    requires Enumerates(order, reported.Keys)
    ensures out == Kept(packs, reported)
    ensures NoRepeats(rejected)
    ensures forall c :: c in rejected <==> c in reported && !exists i: nat :: Governs(packs, i, c) && packs[i].enabled
  {
    out := map[];
    rejected := [];
    assert Visited(reported, order[..0]) == map[];
    assert Kept(packs, map[]) == map[] && Rejected(packs, order[..0]) == [];
    hide Kept;
    hide Visited;
    hide Enumerates;
    hide NoRepeats;
    hide Rejected;
    hide Governs;
    hide PackOf;
    hide Normalized;
    hide AboveThreshold;
    for i := 0 to |order|
      invariant out == Kept(packs, Visited(reported, order[..i]))
      invariant rejected == Rejected(packs, order[..i])
    {
      var category := order[i];
      EachOnce(order, reported.Keys, i);
      VisitOne(packs, reported, order, i);
      RejectOne(packs, order, i);
      var pack := PackOf(packs, category);
      if pack.None? || !pack.value.enabled {
        rejected := rejected + [category];
        continue;
      }
      PackOfHasCategory(packs, category);
      var mistakes := Normalized(reported[category], pack.value.category);
      mistakes := AboveThreshold(mistakes, pack.value.threshold);
      assert mistakes == Admitted(packs, category, reported[category]);
      if |mistakes| > 0 {
        assert Get(out, category) + mistakes == mistakes;
        out := out[pack.value.category := Get(out, pack.value.category) + mistakes];
      }
    }
    assert order[..|order|] == order;
    VisitAll(reported, order);
    RejectedExact(packs, order, reported.Keys);
  }

  // The categories that are not accepted, in the order in which they are visited.
  function Rejected(packs: seq<Pack>, order: seq<string>): seq<string> {
    if order == [] then []
    else
      var last := order[|order| - 1];
      Rejected(packs, order[..|order| - 1]) + (if IsAccepted(packs, last) then [] else [last])
  }

  lemma RejectOne(packs: seq<Pack>, order: seq<string>, i: nat)
    requires i < |order|
    ensures Rejected(packs, order[..i + 1])
         == Rejected(packs, order[..i]) + (if IsAccepted(packs, order[i]) then [] else [order[i]])
  {
    assert order[..i + 1][..i] == order[..i];
  }

  lemma RejectedExact(packs: seq<Pack>, order: seq<string>, keys: set<string>)
    requires Enumerates(order, keys)
    ensures NoRepeats(Rejected(packs, order))
    ensures forall c :: c in Rejected(packs, order) <==> c in keys && !exists i: nat :: Governs(packs, i, c) && packs[i].enabled
  {
    RejectedOnce(packs, order);
    forall c
      ensures IsAccepted(packs, c) <==> exists i: nat :: Governs(packs, i, c) && packs[i].enabled
    {
      PackOfExactly(packs, c);
    }
    hide IsAccepted, Governs, Rejected;
  }

  lemma {:induction false} RejectedOnce(packs: seq<Pack>, order: seq<string>)
    requires NoRepeats(order)
    ensures NoRepeats(Rejected(packs, order))
    ensures forall c :: c in Rejected(packs, order) <==> c in order && !IsAccepted(packs, c)
  {
    if order != [] {
      var n := |order| - 1;
      RejectedOnce(packs, order[..n]);
      assert order == order[..n] + [order[n]];
      assert order[n] !in order[..n];
    }
  }

  lemma VisitAll(reported: Grouped, order: seq<string>)
    requires Enumerates(order, reported.Keys)
    ensures Visited(reported, order) == reported
  {
  }

  function Visited(reported: Grouped, order: seq<string>): Grouped {
    map c | c in reported && c in order :: reported[c]
  }

  lemma VisitOne(packs: seq<Pack>, reported: Grouped, order: seq<string>, i: nat)
    requires i < |order| && order[i] in reported && order[i] !in order[..i]
    ensures var before := Kept(packs, Visited(reported, order[..i]));
            var admitted := Admitted(packs, order[i], reported[order[i]]);
            && order[i] !in before
            && Kept(packs, Visited(reported, order[..i + 1]))
               == if admitted == [] then before else before[order[i] := admitted]
  {
    hide Admitted;
    assert order[..i + 1] == order[..i] + [order[i]];
  }

  // ----- The union -----

  function Merge(dst: Grouped, src: Grouped): Grouped {
    map c | c in dst.Keys + src.Keys :: Get(dst, c) + Get(src, c)
  }

  method MergeMistakes(dst: Grouped, src: Grouped, order: seq<string>) returns (merged: Grouped)
    requires Enumerates(order, src.Keys)
    ensures merged == Merge(dst, src)
  {
    merged := dst;
    MergeNothing(dst, src);
    hide Merge;
    hide Visited;
    for i := 0 to |order|
      invariant merged == Merge(dst, Visited(src, order[..i]))
    {
      var category := order[i];
      EachOnce(order, src.Keys, i);
      MergeOne(dst, src, order, i);
      merged := merged[category := Get(merged, category) + src[category]];
    }
    assert order[..|order|] == order;
    VisitAll(src, order);
  }

  lemma MergeNothing(dst: Grouped, src: Grouped)
    ensures Merge(dst, Visited(src, [])) == dst
  {
    forall c | c in dst
      ensures Merge(dst, Visited(src, []))[c] == dst[c]
    {
      assert dst[c] + [] == dst[c];
    }
  }

  lemma MergeOne(dst: Grouped, src: Grouped, order: seq<string>, i: nat)
    requires i < |order| && order[i] in src && order[i] !in order[..i]
    ensures var before := Merge(dst, Visited(src, order[..i]));
            Merge(dst, Visited(src, order[..i + 1])) == before[order[i] := Get(before, order[i]) + src[order[i]]]
  {
    assert order[..i + 1] == order[..i] + [order[i]];
    var before, after := Visited(src, order[..i]), Visited(src, order[..i + 1]);
    assert after == before[order[i] := src[order[i]]];
    hide Visited;
    MergeAdded(dst, before, order[i], src[order[i]]);
  }

  lemma MergeAdded(dst: Grouped, before: Grouped, category: string, added: seq<Mistake>)
    requires category !in before
    ensures Merge(dst, before[category := added])
         == Merge(dst, before)[category := Get(Merge(dst, before), category) + added]
  {
    var left := Merge(dst, before[category := added]);
    var right := Merge(dst, before)[category := Get(Merge(dst, before), category) + added];
    assert left.Keys == right.Keys;
    assert Get(dst, category) + [] == Get(dst, category) && Get(Merge(dst, before), category) == Get(dst, category);
    assert forall c | c in left :: left[c] == right[c];
  }

  // ----- Calls -----

  // What became of the call for a chunk.
  datatype Reply =
    | RunError(rateLimit: bool)
    | Unparsable
    | Parsed(mistakes: Grouped, summary: string, warnings: seq<string>)

  datatype Warning =
    | FromReply(text: string)
    | ChunkFailed(chunk: nat)
    | Aborted(chunk: nat)
    | ParseFailed(chunk: nat)
    | MissingSummary(chunk: nat)
    | EmptySummary(chunk: nat)

  datatype Error = RateLimit | CallFailed | SchemaViolation

  datatype Result = Result(mistakes: Grouped, completed: nat, warnings: seq<Warning>, error: Option<Error>)

  const EMPTY := Result(map[], 0, [], None)

  function FromReplies(texts: seq<string>): seq<Warning> {
    seq(|texts|, i requires 0 <= i < |texts| => FromReply(texts[i]))
  }

  // ----- In sequence -----

  // `ask(i, prior)` is the reply for chunk i when the prompt carries the summary of the chunk before.
  function Sequential(ask: (nat, string) -> Reply, n: nat, i: nat, prior: string, acc: Result): Result
    requires i <= n
    decreases n - i
  {
    if i == n then acc
    else
      match ask(i, prior)
      case RunError(rateLimit) =>
        if rateLimit then acc.(error := Some(RateLimit))
        else acc.(error := Some(CallFailed), warnings := acc.warnings + [Aborted(i)])
      case Unparsable => Sequential(ask, n, i + 1, "", acc.(warnings := acc.warnings + [ParseFailed(i)]))
      case Parsed(mistakes, summary, warnings) =>
        var warned := acc.(warnings := acc.warnings + FromReplies(warnings));
        if i < n - 1 && summary == "" then
          warned.(error := Some(SchemaViolation), warnings := warned.warnings + [MissingSummary(i)])
        else
          Sequential(ask, n, i + 1, summary, warned.(mistakes := Merge(acc.mistakes, mistakes), completed := acc.completed + 1))
  }

  method RunPhase1Sequential(ask: (nat, string) -> Reply, n: nat, visit: Grouped -> seq<string>) returns (r: Result)
    requires forall m: Grouped :: Enumerates(visit(m), m.Keys)
    ensures r == Sequential(ask, n, 0, "", EMPTY)
  {
    var mistakes: Grouped := map[];
    var warnings: seq<Warning> := [];
    var priorSummary := "";
    var completed := 0;
    for i := 0 to n
      invariant Sequential(ask, n, i, priorSummary, Result(mistakes, completed, warnings, None))
             == Sequential(ask, n, 0, "", EMPTY)
    {
      var reply := ask(i, priorSummary);
      if reply.RunError? {
        if reply.rateLimit {
          return Result(mistakes, completed, warnings, Some(RateLimit));
        }
        warnings := warnings + [Aborted(i)];
        return Result(mistakes, completed, warnings, Some(CallFailed));
      }
      if reply.Unparsable? {
        warnings := warnings + [ParseFailed(i)];
        priorSummary := "";
        continue;
      }
      warnings := warnings + FromReplies(reply.warnings);
      var final := i == n - 1;
      if !final && reply.summary == "" {
        warnings := warnings + [MissingSummary(i)];
        return Result(mistakes, completed, warnings, Some(SchemaViolation));
      }
      mistakes := MergeMistakes(mistakes, reply.mistakes, visit(reply.mistakes));
      priorSummary := reply.summary;
      completed := completed + 1;
    }
    return Result(mistakes, completed, warnings, None);
  }

  // ----- In parallel -----

  predicate IsRateLimit(reply: Reply) {
    reply.RunError? && reply.rateLimit
  }

  // An order in which the n goroutines may finish.
  ghost predicate IsSchedule(order: seq<nat>, n: nat) {
    && |order| == n
    && (forall k | 0 <= k < n :: order[k] < n)
    && (forall j, k | 0 <= j < k < n :: order[j] != order[k])
    && (forall i | 0 <= i < n :: i in order)
  }

  // Whether a rate limit has cancelled the group before the k-th goroutine finishes.
  predicate Cancelled(ask: (nat, string) -> Reply, late: nat -> Reply, order: seq<nat>, k: nat)
    requires k <= |order|
    decreases k, 0
  {
    k > 0 && (Cancelled(ask, late, order, k - 1) || IsRateLimit(ReplyAt(ask, late, order, k - 1)))
  }

  // The reply of the k-th goroutine to finish: after a cancellation it may be anything.
  function ReplyAt(ask: (nat, string) -> Reply, late: nat -> Reply, order: seq<nat>, k: nat): Reply
    requires k < |order|
    decreases k, 1
  {
    if Cancelled(ask, late, order, k) then late(order[k]) else ask(order[k], "")
  }

  function Position(order: seq<nat>, i: nat): (k: nat)
    requires i in order
    ensures k < |order| && order[k] == i
  {
    if order[0] == i then 0 else 1 + Position(order[1..], i)
  }

  // The replies by chunk, once all goroutines have finished.
  ghost function Replies(ask: (nat, string) -> Reply, late: nat -> Reply, order: seq<nat>, n: nat): (rs: seq<Reply>)
    requires IsSchedule(order, n)
    ensures |rs| == n
  {
    seq(n, i requires 0 <= i < n => ReplyAt(ask, late, order, Position(order, i)))
  }

  // The results in the order of the chunks.
  function Collect(replies: seq<Reply>): Result {
    if replies == [] then EMPTY
    else
      var i := |replies| - 1;
      var acc := Collect(replies[..i]);
      match replies[i]
      case RunError(rateLimit) =>
        acc.(warnings := acc.warnings + [ChunkFailed(i)], error := if rateLimit then Some(RateLimit) else acc.error)
      case Unparsable => acc.(warnings := acc.warnings + [ParseFailed(i)])
      case Parsed(mistakes, summary, warnings) =>
        acc.(mistakes := Merge(acc.mistakes, mistakes),
             completed := acc.completed + 1,
             warnings := acc.warnings + FromReplies(warnings) + (if TrimSpace(summary) == "" then [EmptySummary(i)] else []))
  }

  // The goroutines, each writing its own slot, and then the collection of the slots.
  method RunPhase1Parallel(ask: (nat, string) -> Reply, late: nat -> Reply, n: nat, order: seq<nat>,
      visit: Grouped -> seq<string>) returns (r: Result)
    requires forall m: Grouped :: Enumerates(visit(m), m.Keys)
    requires IsSchedule(order, n)
    ensures r == Collect(Replies(ask, late, order, n))
    ensures (forall i | 0 <= i < n :: !IsRateLimit(ask(i, ""))) ==> r == Collect(seq(n, i requires 0 <= i < n => ask(i, "")))
  {
    var results := new Reply[n](_ => Unparsable);
    var limited := false;
    for k := 0 to n
      invariant limited == Cancelled(ask, late, order, k)
      invariant forall j | 0 <= j < k :: results[order[j]] == ReplyAt(ask, late, order, j)
    {
      var i := order[k];
      var reply := if limited then late(i) else ask(i, "");
      results[i] := reply;
      limited := limited || IsRateLimit(reply);
    }
    ghost var replies := Replies(ask, late, order, n);
    forall i | 0 <= i < n
      ensures results[i] == replies[i]
    {
      assert order[Position(order, i)] == i;
    }
    LimitIsSeen(ask, late, order, n);
    if forall i | 0 <= i < n :: !IsRateLimit(ask(i, "")) {
      OrderIrrelevant(ask, late, order, n);
    }
    assert results[..] == replies;
    hide Cancelled;
    hide ReplyAt;
    r := CollectResults(results, limited, visit);
  }

  method CollectResults(results: array<Reply>, limited: bool, visit: Grouped -> seq<string>) returns (r: Result)
    requires forall m: Grouped :: Enumerates(visit(m), m.Keys)
    requires limited <==> exists reply | reply in results[..] :: IsRateLimit(reply)
    ensures r == Collect(results[..])
  {
    ghost var replies := results[..];
    var mistakes: Grouped := map[];
    var warnings: seq<Warning> := [];
    var completed := 0;
    for i := 0 to results.Length
      invariant results[..] == replies
      invariant mistakes == Collect(replies[..i]).mistakes
      invariant completed == Collect(replies[..i]).completed
      invariant warnings == Collect(replies[..i]).warnings
    {
      assert replies[..i + 1][..i] == replies[..i];
      var chunk := results[i];
      if chunk.Parsed? {
        warnings := warnings + FromReplies(chunk.warnings);
      }
      if chunk.Unparsable? {
        warnings := warnings + [ParseFailed(i)];
      }
      if chunk.RunError? {
        warnings := warnings + [ChunkFailed(i)];
        continue;
      }
      if chunk.Unparsable? {
        continue;
      }
      if TrimSpace(chunk.summary) == "" {
        warnings := warnings + [EmptySummary(i)];
      }
      mistakes := MergeMistakes(mistakes, chunk.mistakes, visit(chunk.mistakes));
      completed := completed + 1;
    }
    assert replies[..results.Length] == replies;
    CollectError(replies);
    return Result(mistakes, completed, warnings, if limited then Some(RateLimit) else None);
  }

  lemma {:induction false} CollectError(replies: seq<Reply>)
    ensures Collect(replies).error == if exists r | r in replies :: IsRateLimit(r) then Some(RateLimit) else None
  {
    if replies != [] {
      var i := |replies| - 1;
      CollectError(replies[..i]);
      assert replies[i] in replies;
      assert forall r :: r in replies <==> r in replies[..i] || r == replies[i];
      assert Collect(replies).error == if IsRateLimit(replies[i]) then Some(RateLimit) else Collect(replies[..i]).error;
    }
  }

  ghost predicate LimitedBefore(ask: (nat, string) -> Reply, late: nat -> Reply, order: seq<nat>, k: nat)
    requires k <= |order|
  {
    exists j | 0 <= j < k :: IsRateLimit(ReplyAt(ask, late, order, j))
  }

  lemma {:induction false} CancelledExactly(ask: (nat, string) -> Reply, late: nat -> Reply, order: seq<nat>, k: nat)
    requires k <= |order|
    ensures Cancelled(ask, late, order, k) <==> LimitedBefore(ask, late, order, k)
  {
    if k > 0 {
      CancelledExactly(ask, late, order, k - 1);
      assert Cancelled(ask, late, order, k)
         == (Cancelled(ask, late, order, k - 1) || IsRateLimit(ReplyAt(ask, late, order, k - 1)));
      hide Cancelled;
      hide ReplyAt;
      hide IsRateLimit;
      if LimitedBefore(ask, late, order, k) {
        var j :| 0 <= j < k && IsRateLimit(ReplyAt(ask, late, order, j));
        assert j == k - 1 || LimitedBefore(ask, late, order, k - 1);
      }
      if LimitedBefore(ask, late, order, k - 1) {
        var j :| 0 <= j < k - 1 && IsRateLimit(ReplyAt(ask, late, order, j));
        assert LimitedBefore(ask, late, order, k);
      }
    }
  }

  lemma LimitIsSeen(ask: (nat, string) -> Reply, late: nat -> Reply, order: seq<nat>, n: nat)
    requires IsSchedule(order, n)
    ensures Cancelled(ask, late, order, n) <==> exists r | r in Replies(ask, late, order, n) :: IsRateLimit(r)
  {
    CancelledExactly(ask, late, order, n);
    var replies := Replies(ask, late, order, n);
    forall i | 0 <= i < n
      ensures replies[i] == ReplyAt(ask, late, order, Position(order, i))
    {
    }
    hide Cancelled;
    hide ReplyAt;
    hide Replies;
    if LimitedBefore(ask, late, order, n) {
      var j :| 0 <= j < n && IsRateLimit(ReplyAt(ask, late, order, j));
      assert Position(order, order[j]) == j;
      assert replies[order[j]] == ReplyAt(ask, late, order, j);
      assert replies[order[j]] in replies;
    }
    if r :| r in replies && IsRateLimit(r) {
      var i :| 0 <= i < n && replies[i] == r;
      assert IsRateLimit(ReplyAt(ask, late, order, Position(order, i)));
    }
  }

  // What every goroutine finds when it finishes: its own reply, or anything at all once a rate limit
  // has been met by one that finished before it.
  lemma RepliesByFinish(ask: (nat, string) -> Reply, late: nat -> Reply, order: seq<nat>, n: nat, k: nat)
    requires IsSchedule(order, n) && k < n
    ensures var rs := Replies(ask, late, order, n);
            rs[order[k]] == if exists j | 0 <= j < k :: rs[order[j]].RunError? && rs[order[j]].rateLimit
                            then late(order[k]) else ask(order[k], "")
  {
    CancelledExactly(ask, late, order, k);
    var rs := Replies(ask, late, order, n);
    forall j | 0 <= j <= k
      ensures rs[order[j]] == ReplyAt(ask, late, order, j)
    {
      assert Position(order, order[j]) == j;
    }
  }

  // The orders in which each of them finishes once are the schedules, for example that of the chunks.
  lemma SchedulesArePermutations(order: seq<nat>, n: nat, chunks: set<nat>)
    requires forall i: nat :: i in chunks <==> i < n
    ensures IsSchedule(order, n) <==> |order| == n && Enumerates(order, chunks)
    ensures IsSchedule(seq(n, i => i), n)
  {
    if Enumerates(order, chunks) {
      assert forall k | 0 <= k < |order| :: order[k] in order;
    }
    var identity: seq<nat> := seq(n, i => i);
    forall i: nat | i < n
      ensures i in identity
    {
      assert identity[i] == i;
    }
  }

  // The warnings of the parallel mode: one for each chunk that failed, could not be parsed or had a
  // blank summary, and those of the parsed replies.
  lemma {:induction false} WarningsAreExact(replies: seq<Reply>, w: Warning)
    ensures w in Collect(replies).warnings <==>
      match w
      case ChunkFailed(i) => i < |replies| && replies[i].RunError?
      case ParseFailed(i) => i < |replies| && replies[i].Unparsable?
      case EmptySummary(i) => i < |replies| && replies[i].Parsed? && TrimSpace(replies[i].summary) == ""
      case FromReply(text) => exists r | r in replies :: r.Parsed? && text in r.warnings
      case _ => false
  {
    if replies != [] {
      var n := |replies| - 1;
      WarningsAreExact(replies[..n], w);
      hide TrimSpace;
      assert forall r :: r in replies <==> r in replies[..n] || r == replies[n];
      if replies[n].Parsed? {
        FromRepliesExactly(replies[n].warnings, w);
      }
    }
  }

  lemma FromRepliesExactly(texts: seq<string>, w: Warning)
    ensures w in FromReplies(texts) <==> w.FromReply? && w.text in texts
  {
    if w.FromReply? && w.text in texts {
      var i :| 0 <= i < |texts| && texts[i] == w.text;
      assert FromReplies(texts)[i] == w;
    }
  }

  // ----- Main results -----

  // Without a rate limit the replies, and so the union, the count and the warnings, do not depend on
  // the order in which the goroutines finish.
  lemma OrderIrrelevant(ask: (nat, string) -> Reply, late: nat -> Reply, order: seq<nat>, n: nat)
    requires IsSchedule(order, n) && forall i | 0 <= i < n :: !IsRateLimit(ask(i, ""))
    ensures Replies(ask, late, order, n) == seq(n, i requires 0 <= i < n => ask(i, ""))
  {
    var replies := Replies(ask, late, order, n);
    forall i | 0 <= i < n
      ensures replies[i] == ask(i, "")
    {
      NeverCancelled(ask, late, order, n, Position(order, i));
    }
  }

  lemma {:induction false} NeverCancelled(ask: (nat, string) -> Reply, late: nat -> Reply, order: seq<nat>, n: nat, k: nat)
    requires IsSchedule(order, n) && k <= n && forall i | 0 <= i < n :: !IsRateLimit(ask(i, ""))
    ensures !Cancelled(ask, late, order, k)
  {
    if k > 0 {
      NeverCancelled(ask, late, order, n, k - 1);
    }
  }

  // The mistakes of one category, chunk by chunk.
  function InOrder(replies: seq<Reply>, c: string): seq<Mistake> {
    if replies == [] then []
    else
      var last := replies[|replies| - 1];
      InOrder(replies[..|replies| - 1], c) + (if last.Parsed? then Get(last.mistakes, c) else [])
  }

  function ParsedCount(replies: seq<Reply>): nat {
    if replies == [] then 0
    else ParsedCount(replies[..|replies| - 1]) + (if replies[|replies| - 1].Parsed? then 1 else 0)
  }

  predicate AllParsed(replies: seq<Reply>) {
    forall r | r in replies :: r.Parsed?
  }

  lemma {:induction false} ParsedCountExact(replies: seq<Reply>)
    ensures ParsedCount(replies) <= |replies|
    ensures ParsedCount(replies) == |replies| <==> AllParsed(replies)
  {
    if replies != [] {
      var i := |replies| - 1;
      ParsedCountExact(replies[..i]);
      assert replies == replies[..i] + [replies[i]];
    }
  }

  // The union holds every category's mistakes in the order of the chunks, whatever failed in
  // between; the count is that of the chunks that ran and parsed, so it is full exactly when all did.
  lemma {:induction false} UnionIsExact(replies: seq<Reply>, c: string)
    ensures Get(Collect(replies).mistakes, c) == InOrder(replies, c)
    ensures Collect(replies).completed == ParsedCount(replies)
    ensures Collect(replies).completed == |replies| <==> AllParsed(replies)
  {
    ParsedCountExact(replies);
    if replies != [] {
      UnionIsExact(replies[..|replies| - 1], c);
    }
  }

  // When replies depend on the chunk alone and no call fails, the two modes agree -- the same mistakes,
  // the same count, no error -- if and only if no parsed reply but the last lacks a summary.
  predicate HaveSummaries(replies: seq<Reply>) {
    forall i | 0 <= i < |replies| - 1 :: replies[i].Parsed? ==> replies[i].summary != ""
  }

  lemma ModesAgree(ask: (nat, string) -> Reply, late: nat -> Reply, order: seq<nat>, n: nat)
    requires IsSchedule(order, n)
    requires forall i, s | 0 <= i < n :: ask(i, s) == ask(i, "")
    requires forall i | 0 <= i < n :: !ask(i, "").RunError?
    ensures var s := Sequential(ask, n, 0, "", EMPTY);
            var p := Collect(Replies(ask, late, order, n));
            && p.error == None
            && ((s.mistakes == p.mistakes && s.completed == p.completed && s.error == None)
                <==> HaveSummaries(Replies(ask, late, order, n)))
  {
    OrderIrrelevant(ask, late, order, n);
    var replies := Replies(ask, late, order, n);
    assert replies[..0] == [];
    SequentialFrom(ask, n, replies, 0, "", EMPTY);
    CollectError(replies);
    hide Collect;
    hide Sequential;
  }

  // From chunk i on, when everything before has been collected.
  lemma {:induction false} SequentialFrom(ask: (nat, string) -> Reply, n: nat, replies: seq<Reply>, i: nat, prior: string,
      acc: Result)
    requires i <= n == |replies| && forall j, s | 0 <= j < n :: ask(j, s) == replies[j]
    requires forall j | 0 <= j < n :: !replies[j].RunError?
    requires acc.error == None
    requires acc.mistakes == Collect(replies[..i]).mistakes && acc.completed == Collect(replies[..i]).completed
    ensures var s := Sequential(ask, n, i, prior, acc);
            if forall j | i <= j < n - 1 :: replies[j].Parsed? ==> replies[j].summary != ""
            then s.error == None && s.mistakes == Collect(replies).mistakes && s.completed == Collect(replies).completed
            else s.error == Some(SchemaViolation)
    decreases n - i
  {
    hide Merge;
    hide FromReplies;
    if i == n {
      assert replies[..n] == replies;
    } else {
      assert replies[..i + 1][..i] == replies[..i];
      assert ask(i, prior) == replies[i];
      match replies[i]
      case Unparsable =>
        SequentialFrom(ask, n, replies, i + 1, "", acc.(warnings := acc.warnings + [ParseFailed(i)]));
      case Parsed(mistakes, summary, warnings) =>
        if i == n - 1 || summary != "" {
          var warned := acc.(warnings := acc.warnings + FromReplies(warnings));
          SequentialFrom(ask, n, replies, i + 1, summary,
            warned.(mistakes := Merge(acc.mistakes, mistakes), completed := acc.completed + 1));
        }
    }
  }

  // ----- Completeness -----

  // The replies that the sequential mode gets while nothing aborts it.
  function Chain(ask: (nat, string) -> Reply, i: nat): (Reply, string) {
    var prior := if i == 0 then "" else Chain(ask, i - 1).1;
    var reply := ask(i, prior);
    (reply, if reply.Parsed? then reply.summary else "")
  }

  predicate HandsOn(ask: (nat, string) -> Reply, n: nat, i: nat) {
    Chain(ask, i).0.Parsed? && (i < n - 1 ==> Chain(ask, i).0.summary != "")
  }

  // RunChunks: an error leaves the flag unset, and otherwise it compares the count.
  predicate Phase1Complete(r: Result, n: nat) {
    r.error.None? && r.completed == n
  }

  // The flag is set exactly when every chunk ran and parsed -- and, in sequence, had a summary to
  // hand on.
  lemma ParallelComplete(replies: seq<Reply>)
    ensures Phase1Complete(Collect(replies), |replies|) <==> AllParsed(replies)
  {
    UnionIsExact(replies, "");
    CollectError(replies);
  }

  lemma SequentialComplete(ask: (nat, string) -> Reply, n: nat)
    ensures Phase1Complete(Sequential(ask, n, 0, "", EMPTY), n) <==>
      forall i: nat | i < n :: HandsOn(ask, n, i)
  {
    CompleteFrom(ask, n, 0, "", EMPTY);
  }

  lemma {:induction false} CompleteFrom(ask: (nat, string) -> Reply, n: nat, i: nat, prior: string, acc: Result)
    requires i <= n && acc.error == None && acc.completed <= i
    requires prior == if i == 0 then "" else Chain(ask, i - 1).1
    ensures Sequential(ask, n, i, prior, acc).completed <= n
    ensures Phase1Complete(Sequential(ask, n, i, prior, acc), n) <==>
      acc.completed == i &&
      forall j: nat | i <= j < n :: HandsOn(ask, n, j)
    decreases n - i
  {
    if i < n {
      assert Chain(ask, i).0 == ask(i, prior);
      hide Chain;
      assert HandsOn(ask, n, i) <==> ask(i, prior).Parsed? && (i < n - 1 ==> ask(i, prior).summary != "");
      match ask(i, prior)
      case RunError(_) =>
      case Unparsable =>
        CompleteFrom(ask, n, i + 1, "", acc.(warnings := acc.warnings + [ParseFailed(i)]));
      case Parsed(mistakes, summary, warnings) =>
        if i == n - 1 || summary != "" {
          var warned := acc.(warnings := acc.warnings + FromReplies(warnings));
          CompleteFrom(ask, n, i + 1, summary,
            warned.(mistakes := Merge(acc.mistakes, mistakes), completed := acc.completed + 1));
        }
    }
  }

  // ----- Where the sequential mode stops -----

  // The replies the sequential mode gets for the first k chunks.
  function FirstReplies(ask: (nat, string) -> Reply, k: nat): seq<Reply> {
    seq(k, i requires 0 <= i < k => Chain(ask, i).0)
  }

  predicate Stops(ask: (nat, string) -> Reply, n: nat, i: nat) {
    var reply := Chain(ask, i).0;
    reply.RunError? || (reply.Parsed? && i + 1 < n && reply.summary == "")
  }

  // The warnings of a run of chunks none of which stops it.
  function Notes(replies: seq<Reply>): seq<Warning> {
    if replies == [] then []
    else
      var i := |replies| - 1;
      Notes(replies[..i]) + (match replies[i]
        case RunError(_) => []
        case Unparsable => [ParseFailed(i)]
        case Parsed(_, _, warnings) => FromReplies(warnings))
  }

  // The first chunk that stops the sequential mode, if there is one, decides its error and its last
  // warnings; the mistakes, the count and the other warnings are those of the chunks before it.
  lemma SequentialExactly(ask: (nat, string) -> Reply, n: nat, k: nat)
    requires k <= n && (k < n ==> Stops(ask, n, k)) && forall i: nat | i < k :: !Stops(ask, n, i)
    ensures var r, before := Sequential(ask, n, 0, "", EMPTY), FirstReplies(ask, k);
            && (forall c :: Get(r.mistakes, c) == InOrder(before, c))
            && r.completed == ParsedCount(before)
            && (if k == n then r.error == None && r.warnings == Notes(before)
                else match Chain(ask, k).0
                     case RunError(true) => r.error == Some(RateLimit) && r.warnings == Notes(before)
                     case RunError(false) => r.error == Some(CallFailed) && r.warnings == Notes(before) + [Aborted(k)]
                     case Parsed(_, _, texts) =>
                       r.error == Some(SchemaViolation) && r.warnings == Notes(before) + FromReplies(texts) + [MissingSummary(k)]
                     case Unparsable => false)
  {
    hide Sequential, FirstReplies, Chain, Collect, Notes, InOrder, ParsedCount, FromReplies;
    var acc := UpTo(ask, n, k);
    var before := FirstReplies(ask, k);
    forall c
      ensures Get(acc.mistakes, c) == InOrder(before, c)
    {
      UnionIsExact(before, c);
    }
    UnionIsExact(before, "");
    var prior := if k == 0 then "" else Chain(ask, k - 1).1;
    if k < n {
      LastReply(ask, k + 1);
      StopHere(ask, n, k, prior, acc);
    } else {
      EndHere(ask, n, prior, acc);
    }
  }

  lemma StopHere(ask: (nat, string) -> Reply, n: nat, k: nat, prior: string, acc: Result)
    requires k < n
    requires var reply := ask(k, prior); reply.RunError? || (reply.Parsed? && k + 1 < n && reply.summary == "")
    ensures Sequential(ask, n, k, prior, acc) ==
      match ask(k, prior)
      case RunError(true) => acc.(error := Some(RateLimit))
      case RunError(false) => acc.(error := Some(CallFailed), warnings := acc.warnings + [Aborted(k)])
      case Parsed(_, _, texts) =>
        acc.(error := Some(SchemaViolation), warnings := acc.warnings + FromReplies(texts) + [MissingSummary(k)])
      case Unparsable => acc
  {
    hide FromReplies;
  }

  lemma EndHere(ask: (nat, string) -> Reply, n: nat, prior: string, acc: Result)
    ensures Sequential(ask, n, n, prior, acc) == acc
  {
  }

  lemma {:induction false} UpTo(ask: (nat, string) -> Reply, n: nat, k: nat) returns (acc: Result)
    requires k <= n && forall i: nat | i < k :: !Stops(ask, n, i)
    ensures acc == Result(Collect(FirstReplies(ask, k)).mistakes, Collect(FirstReplies(ask, k)).completed,
                          Notes(FirstReplies(ask, k)), None)
    ensures Sequential(ask, n, 0, "", EMPTY)
         == Sequential(ask, n, k, if k == 0 then "" else Chain(ask, k - 1).1, acc)
  {
    hide Sequential, FirstReplies, Chain, Stops, Collect, Notes;
    acc := EMPTY;
    if k == 0 {
      NoReplies(ask);
    } else {
      var before := UpTo(ask, n, k - 1);
      acc := OneMore(ask, n, k, before);
    }
  }

  lemma NoReplies(ask: (nat, string) -> Reply)
    ensures FirstReplies(ask, 0) == [] && Collect([]) == EMPTY && Notes([]) == []
  {
  }

  lemma OneMore(ask: (nat, string) -> Reply, n: nat, k: nat, before: Result) returns (acc: Result)
    requires 0 < k <= n && !Stops(ask, n, k - 1)
    requires before == Result(Collect(FirstReplies(ask, k - 1)).mistakes, Collect(FirstReplies(ask, k - 1)).completed,
                              Notes(FirstReplies(ask, k - 1)), None)
    ensures acc == Result(Collect(FirstReplies(ask, k)).mistakes, Collect(FirstReplies(ask, k)).completed,
                          Notes(FirstReplies(ask, k)), None)
    ensures Sequential(ask, n, k - 1, if k == 1 then "" else Chain(ask, k - 2).1, before)
         == Sequential(ask, n, k, Chain(ask, k - 1).1, acc)
  {
    hide Sequential, Collect, Notes, FirstReplies, Chain;
    var replies := FirstReplies(ask, k);
    LastReply(ask, k);
    acc := OneMoreReply(replies, before);
    StepOn(ask, n, k - 1, if k == 1 then "" else Chain(ask, k - 2).1, before);
  }

  lemma LastReply(ask: (nat, string) -> Reply, k: nat)
    requires k > 0
    ensures var replies := FirstReplies(ask, k);
            && |replies| == k && replies[..k - 1] == FirstReplies(ask, k - 1) && replies[k - 1] == Chain(ask, k - 1).0
    ensures Chain(ask, k - 1).0 == ask(k - 1, if k == 1 then "" else Chain(ask, k - 2).1)
    ensures Chain(ask, k - 1).1 == if Chain(ask, k - 1).0.Parsed? then Chain(ask, k - 1).0.summary else ""
  {
  }

  lemma OneMoreReply(replies: seq<Reply>, before: Result) returns (acc: Result)
    requires replies != [] && !replies[|replies| - 1].RunError?
    requires var front := replies[..|replies| - 1];
             before == Result(Collect(front).mistakes, Collect(front).completed, Notes(front), None)
    ensures acc == Result(Collect(replies).mistakes, Collect(replies).completed, Notes(replies), None)
    ensures acc == Taken(before, replies[|replies| - 1], |replies| - 1)
  {
    hide Merge, FromReplies, TrimSpace;
    acc := Taken(before, replies[|replies| - 1], |replies| - 1);
  }

  // The result after one more reply that does not stop the mode.
  function Taken(before: Result, reply: Reply, i: nat): Result {
    match reply
    case RunError(_) => before
    case Unparsable => before.(warnings := before.warnings + [ParseFailed(i)])
    case Parsed(mistakes, _, warnings) =>
      before.(warnings := before.warnings + FromReplies(warnings), mistakes := Merge(before.mistakes, mistakes),
              completed := before.completed + 1)
  }

  lemma StepOn(ask: (nat, string) -> Reply, n: nat, i: nat, prior: string, before: Result)
    requires i < n && !ask(i, prior).RunError? && (ask(i, prior).Parsed? && i < n - 1 ==> ask(i, prior).summary != "")
    ensures var reply := ask(i, prior);
            Sequential(ask, n, i, prior, before)
            == Sequential(ask, n, i + 1, if reply.Parsed? then reply.summary else "", Taken(before, reply, i))
  {
    hide Merge, FromReplies;
  }

  // ----- The ordered result -----

  function Ordered(m: Grouped, order: seq<string>): seq<Mistake> {
    if order == [] then [] else Ordered(m, order[..|order| - 1]) + Get(m, order[|order| - 1])
  }

  method OrderedByCategory(m: Grouped, order: seq<string>) returns (out: seq<Mistake>)
    ensures out == Ordered(m, order)
  {
    out := [];
    for i := 0 to |order|
      invariant out == Ordered(m, order[..i])
    {
      assert order[..i + 1][..i] == order[..i];
      out := out + Get(m, order[i]);
    }
    assert order[..|order|] == order;
  }

  // The mistakes of each category follow those of the categories before it.
  lemma {:induction false} OrderedExactly(m: Grouped, before: seq<string>, c: string, after: seq<string>)
    ensures Ordered(m, before + [c] + after) == Ordered(m, before) + (if c in m then m[c] else []) + Ordered(m, after)
  {
    var order := before + [c] + after;
    if after == [] {
      assert order[..|order| - 1] == before;
    } else {
      var n := |after| - 1;
      assert order[..|order| - 1] == before + [c] + after[..n];
      OrderedExactly(m, before, c, after[..n]);
    }
  }

  lemma {:induction false} OrderedMerge(a: Grouped, b: Grouped, order: seq<string>)
    ensures multiset(Ordered(Merge(a, b), order)) == multiset(Ordered(a, order)) + multiset(Ordered(b, order))
  {
    if order != [] {
      OrderedMerge(a, b, order[..|order| - 1]);
    }
  }

  function AllReported(replies: seq<Reply>, order: seq<string>): multiset<Mistake> {
    if replies == [] then multiset{}
    else
      var last := replies[|replies| - 1];
      AllReported(replies[..|replies| - 1], order) + (if last.Parsed? then multiset(Ordered(last.mistakes, order)) else multiset{})
  }

  lemma {:induction false} OrderedOfNothing(order: seq<string>)
    ensures Ordered(map[], order) == []
  {
    if order != [] {
      OrderedOfNothing(order[..|order| - 1]);
    }
  }

  lemma CollectOne(replies: seq<Reply>)
    requires replies != []
    ensures var before := Collect(replies[..|replies| - 1]).mistakes;
            var last := replies[|replies| - 1];
            Collect(replies).mistakes == if last.Parsed? then Merge(before, last.mistakes) else before
  {
  }

  // The final list holds exactly the mistakes of the replies that parsed, each as often as reported.
  lemma {:induction false} NothingLost(replies: seq<Reply>, order: seq<string>)
    ensures multiset(Ordered(Collect(replies).mistakes, order)) == AllReported(replies, order)
  {
    if replies == [] {
      OrderedOfNothing(order);
    } else {
      var i := |replies| - 1;
      NothingLost(replies[..i], order);
      CollectOne(replies);
      hide Collect;
      hide Ordered;
      hide Merge;
      if replies[i].Parsed? {
        OrderedMerge(Collect(replies[..i]).mistakes, replies[i].mistakes, order);
      }
    }
  }
}
