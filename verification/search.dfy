/**
 * The node-local decisions of the alpha-beta search and the controller
 * that counts running searches and tells them when to stop.
 *
 * The recursion itself is not modelled; each step below is a pure function
 * of what the search has at hand at that point.
 */
module Search {
  import opened Words
  import opened Pieces
  import opened Positions
  import opened Moves
  import opened HashTables
  import opened Evaluation
  import opened Oracles

  /** `MATE`: the score of being checkmated, seen from the mated side, is its negation. */
  const MATE: int := 1000000

  // ---------------------------------------------------------------------
  // calculationController
  // ---------------------------------------------------------------------

  /**
   * `calculationController` without its lock. `timer` is the clock reading,
   * in milliseconds, at which the current budget started; elapsed time is
   * passed to `NeedToStop` by the caller.
   */
  datatype Controller = Controller(calculators: int, stop: bool, timeForMove: int, timer: int)

  const Idle: Controller := Controller(0, false, 0, 0)

  /** `calculating()`: some search is running. */
  function Calculating(cc: Controller): (r: bool)
    ensures r <==> cc.calculators > 0
  {
    if cc.calculators > 0 then true else false
  }

  /**
   * `needToStop()`: stop was requested, or a budget is set and fewer than
   * 10 ms of it remain after elapsedMs.
   */
  function NeedToStop(cc: Controller, elapsedMs: int): (r: bool)
    ensures cc.stop ==> r
    ensures cc.timeForMove == 0 ==> (r <==> cc.stop)
    ensures cc.timeForMove != 0 && elapsedMs > cc.timeForMove - 10 ==> r
    ensures !cc.stop && elapsedMs <= cc.timeForMove - 10 ==> !r
  {
    cc.stop || (cc.timeForMove != 0 && cc.timeForMove - elapsedMs < 10)
  }

  /** `stopCalculators()`. */
  function StopCalculators(cc: Controller): (r: Controller)
    ensures r.stop
    ensures r.calculators == cc.calculators && r.timeForMove == cc.timeForMove && r.timer == cc.timer
  {
    cc.(stop := true)
  }

  /**
   * `beginCalculating()` at clock reading now: one more search; the budget
   * timer restarts only when the first search starts with a budget set.
   */
  function BeginCalculating(cc: Controller, now: int): (r: Controller)
    ensures r.calculators == cc.calculators + 1
    ensures r.stop == cc.stop && r.timeForMove == cc.timeForMove
    ensures r.timer == now <== cc.calculators == 0 && cc.timeForMove != 0
    ensures r.timer == cc.timer <== !(cc.calculators == 0 && cc.timeForMove != 0)
  {
    var cc := if cc.calculators == 0 && cc.timeForMove != 0 then cc.(timer := now) else cc;
    cc.(calculators := cc.calculators + 1)
  }

  /**
   * `doneCalculating()`: one search fewer; when the last one ends, the stop
   * request and the budget are cleared.
   */
  function DoneCalculating(cc: Controller): (r: Controller)
    ensures r.calculators == cc.calculators - 1 && r.timer == cc.timer
    ensures r.calculators == 0 ==> !r.stop && r.timeForMove == 0
    ensures r.calculators != 0 ==> r.stop == cc.stop && r.timeForMove == cc.timeForMove
  {
    var cc := cc.(calculators := cc.calculators - 1);
    if cc.calculators == 0 then cc.(stop := false, timeForMove := 0) else cc
  }

  /**
   * A budget set before the first search starts is enforced: the timer
   * restarts at the start, and once fewer than 10 ms of the budget remain the
   * search is told to stop, while before that it runs on.
   */
  lemma BudgetIsSeen(cc: Controller, ms: int, now: int, elapsedMs: int)
    requires cc.calculators == 0 && !cc.stop && ms != 0
    ensures var r := Run(cc, [Budget(ms), Begin(now)]);
            r.timer == now && r.calculators == 1
            && (NeedToStop(r, elapsedMs) <==> elapsedMs > ms - 10)
  {
    var calls := [Budget(ms), Begin(now)];
    var c1 := cc.(timeForMove := ms);
    assert Apply(cc, calls[0]) == c1;
    assert calls[1..] == [Begin(now)] && [Begin(now)][1..] == [];
    var c2 := BeginCalculating(c1, now);
    assert Apply(c1, Begin(now)) == c2;
    assert Run(c1, [Begin(now)]) == Run(c2, []) == c2;
    assert Run(cc, calls) == c2;
  }

  /** Once the last search is done, a new one is never told to stop, however long it runs. */
  lemma LastDoneClearsStop(cc: Controller, now: int, elapsedMs: int)
    requires cc.calculators == 1
    ensures !Calculating(DoneCalculating(cc))
    ensures !NeedToStop(BeginCalculating(DoneCalculating(cc), now), elapsedMs)
  {
  }

  /** A stop request reaches every running search, whatever the clock says. */
  lemma StopIsSeen(cc: Controller, elapsedMs: int)
    ensures NeedToStop(StopCalculators(cc), elapsedMs)
  {
  }

  /**
   * The calls a controller receives. `Budget(ms)` is the front end's
   * assignment of a time budget before it starts a timed search.
   */
  datatype Call = Begin(now: int) | Done | Stop | Budget(ms: int)

  function Apply(cc: Controller, call: Call): Controller
  {
    match call
    case Begin(now) => BeginCalculating(cc, now)
    case Done => DoneCalculating(cc)
    case Stop => StopCalculators(cc)
    case Budget(ms) => cc.(timeForMove := ms)
  }

  function Run(cc: Controller, calls: seq<Call>): Controller
    decreases |calls|
  {
    if calls == [] then cc else Run(Apply(cc, calls[0]), calls[1..])
  }

  function Begins(calls: seq<Call>): nat
  {
    if calls == [] then 0 else (if calls[0].Begin? then 1 else 0) + Begins(calls[1..])
  }

  function Dones(calls: seq<Call>): nat
  {
    if calls == [] then 0 else (if calls[0].Done? then 1 else 0) + Dones(calls[1..])
  }

  /**
   * The counter is the number of searches begun less the number done, so it
   * never goes negative as long as no search reports done before it begins.
   */
  lemma {:induction false} RunCounts(cc: Controller, calls: seq<Call>)
    ensures Run(cc, calls).calculators == cc.calculators + Begins(calls) - Dones(calls)
    decreases |calls|
  {
    if calls != [] {
      RunCounts(Apply(cc, calls[0]), calls[1..]);
    }
  }

  /**
   * From a controller with no search running, whatever stop request or
   * budget it holds: once every search that began has finished, the
   * controller is idle, with no stop request and no budget left over.
   */
  lemma {:induction false} BalancedRunEndsIdle(cc: Controller, calls: seq<Call>)
    requires cc.calculators == 0
    requires calls != [] && calls[|calls| - 1] == Done
    requires Begins(calls) == Dones(calls)
    ensures var r := Run(cc, calls);
            r.calculators == 0 && !r.stop && r.timeForMove == 0
  {
    RunCounts(cc, calls);
    RunSplits(cc, calls[..|calls| - 1], [Done]);
    assert calls == calls[..|calls| - 1] + [Done];
  }

  lemma {:induction false} RunSplits(cc: Controller, first: seq<Call>, rest: seq<Call>)
    ensures Run(cc, first + rest) == Run(Run(cc, first), rest)
    decreases |first|
  {
    if first != [] {
      assert (first + rest)[1..] == first[1..] + rest;
      assert (first + rest)[0] == first[0];
      RunSplits(Apply(cc, first[0]), first[1..], rest);
      assert Run(cc, first + rest) == Run(Apply(cc, first[0]), first[1..] + rest);
    } else {
      assert first + rest == rest;
    }
  }

  // ---------------------------------------------------------------------
  // Node outcomes
  // ---------------------------------------------------------------------

  /** The score, node count and result a search node returns. */
  datatype Outcome = Outcome(score: int, nodes: int, result: GameResult)

  /**
   * A node with no moves: checkmate at -MATE when the own king is attacked,
   * otherwise stalemate at 0; either way one node.
   */
  function Terminal(o: Oracle, pos: Position): (r: Outcome)
    ensures r.nodes == 1
    ensures r.result == Checkmate <==> InCheck(o, pos)
    ensures r.result != Checkmate ==> r.result == Stalemate && r.score == 0
    ensures r.result == Checkmate ==> r.score == -MATE
  {
    if InCheck(o, pos) then Outcome(-MATE, 1, Checkmate) else Outcome(0, 1, Stalemate)
  }

  /** Being mated scores below, and mating above, every material evaluation. */
  lemma MateBeyondMaterial(o: Oracle, pos: Position, other: Position)
    requires InCheck(o, pos)
    ensures Terminal(o, pos).score < ScoreModifier[other.toMove] * Balance(other, 5)
    ensures -Terminal(o, pos).score > ScoreModifier[other.toMove] * Balance(other, 5)
  {
    EvalBound(other);
  }

  // ---------------------------------------------------------------------
  // Transposition-table probe
  // ---------------------------------------------------------------------

  /**
   * The kind of bound a stored score is. The table entries carry no such
   * field, so the probe is given the tag of the stored score as a parameter.
   */
  datatype Bound = Exact | Lower | Upper

  /** What the probe leaves the node with: a final answer, or a candidate and alpha. */
  datatype Probe =
    | Cutoff(outcome: Outcome, variation: seq<Move>)
    | Proceed(candidate: Move, alpha: int)

  /**
   * The probe at the top of `search`: a hit at least as deep as depth ends
   * the node when the stored score is exact, or is a lower bound that reaches
   * beta. A lower bound otherwise becomes alpha. A hit's move is the candidate.
   */
  function ProbeTable(ht: HashTable, hash: nat, tag: Bound, depth: int, alpha: int, beta: int,
                      variation: seq<Move>): (r: Probe)
    requires Usable(ht)
    ensures var (entry, ok) := Load(ht, hash);
            r.Cutoff? <==> ok && entry.depth >= depth && (tag == Exact || (tag == Lower && entry.score >= beta))
    ensures var (entry, ok) := Load(ht, hash);
            r.Cutoff? ==> r.outcome == Outcome(entry.score, 1, entry.result)
                          && r.variation == variation + [entry.bestMove]
    ensures var (entry, ok) := Load(ht, hash);
            r.Proceed? ==> r.candidate == (if ok then entry.bestMove else Zero())
                           && r.alpha == (if ok && entry.depth >= depth && tag == Lower then entry.score else alpha)
  {
    var (entry, ok) := Load(ht, hash);
    if !ok then Proceed(Zero(), alpha)
    else if entry.depth >= depth && tag == Exact then
      Cutoff(Outcome(entry.score, 1, entry.result), variation + [entry.bestMove])
    else if entry.depth >= depth && tag == Lower then
      if entry.score >= beta then Cutoff(Outcome(entry.score, 1, entry.result), variation + [entry.bestMove])
      else Proceed(entry.bestMove, entry.score)
    else Proceed(entry.bestMove, alpha)
  }

  // ---------------------------------------------------------------------
  // Horizon
  // ---------------------------------------------------------------------

  /** The node either returns its static score or goes on searching, maybe captures only. */
  datatype Horizon = Leaf(score: int) | Expand(alpha: int, quiesce: bool)

  /**
   * At depth <= 0 with no captures, or with the static score stand above
   * beta, the node returns stand; otherwise it searches captures only with
   * alpha raised to stand. Above the horizon it searches everything.
   */
  function HorizonStep(depth: int, numCaptures: int, stand: int, alpha: int, beta: int): (r: Horizon)
    ensures depth > 0 ==> r == Expand(alpha, false)
    ensures depth <= 0 ==> (r.Leaf? <==> numCaptures == 0 || stand > beta)
    ensures r.Leaf? ==> r.score == stand
    ensures depth <= 0 && r.Expand? ==>
              r.quiesce && r.alpha >= alpha && r.alpha >= stand && (r.alpha == alpha || r.alpha == stand)
  {
    if depth > 0 then Expand(alpha, false)
    else if numCaptures == 0 then Leaf(stand)
    else if stand > beta then Leaf(stand)
    else Expand(if stand > alpha then stand else alpha, true)
  }

  // ---------------------------------------------------------------------
  // Candidate reordering
  // ---------------------------------------------------------------------

  /** The index `range` stops at: the first occurrence of m, or -1. */
  function FindMove(moves: seq<Move>, m: Move): (i: int)
    ensures -1 <= i < |moves|
    ensures i == -1 <==> m !in moves
    ensures i >= 0 ==> moves[i] == m && m !in moves[..i]
  {
    if moves == [] then -1
    else if moves[0] == m then 0
    else
      var j := FindMove(moves[1..], m);
      assert moves[1..][..if j < 0 then 0 else j] == moves[1..1 + if j < 0 then 0 else j];
      if j == -1 then -1 else j + 1
  }

  /** Exchange the moves at i and j. */
  function Swap(s: seq<Move>, i: nat, j: nat): (r: seq<Move>)
    requires i < |s| && j < |s|
    ensures |r| == |s| && r[i] == s[j] && r[j] == s[i]
    ensures forall k | 0 <= k < |s| && k != i && k != j :: r[k] == s[k]
    ensures multiset(r) == multiset(s)
  {
    if i == j then s
    else
      var r := s[i := s[j]][j := s[i]];
      assert multiset(s[i := s[j]]) == multiset(s) - multiset{s[i]} + multiset{s[j]};
      r
  }

  /**
   * Moving the candidate to the front: it trades places with the first
   * move, and if the move it displaces is a capture landing beyond the
   * first numCaptures places, that capture trades places once more with
   * the move at numCaptures.
   */
  function Reorder(moves: seq<Move>, candidate: Move, numCaptures: int): (r: seq<Move>)
    requires numCaptures >= 0
    ensures |r| == |moves| && multiset(r) == multiset(moves)
    ensures candidate == Zero() || candidate !in moves || moves[0] == candidate ==> r == moves
    ensures candidate != Zero() && candidate in moves ==>
              r[0] == candidate || (numCaptures == 0 && Capture(moves[0]) && r == moves)
  {
    if candidate == Zero() then moves
    else
      var i := FindMove(moves, candidate);
      if i <= 0 then moves
      else
        var front := Swap(moves, 0, i);
        if Capture(front[i]) && i > numCaptures then Swap(front, numCaptures, i)
        else front
  }

  /** The move list's captures come first: exactly the first numCaptures moves capture. */
  predicate CapturesFirst(moves: seq<Move>, numCaptures: int)
  {
    forall k | 0 <= k < |moves| :: Capture(moves[k]) <==> k < numCaptures
  }

  /**
   * On a list whose captures come first, the candidate always ends in front
   * and, behind it, the captures still precede every quiet move.
   */
  lemma ReorderKeepsCapturesAhead(moves: seq<Move>, candidate: Move, numCaptures: int)
    requires numCaptures >= 0 && CapturesFirst(moves, numCaptures)
    requires candidate != Zero() && candidate in moves
    ensures var r := Reorder(moves, candidate, numCaptures);
            r[0] == candidate
            && forall k | 1 <= k < |r| && Capture(r[k]) :: forall j | 1 <= j < k :: Capture(r[j])
  {
    var r := Reorder(moves, candidate, numCaptures);
    var i := FindMove(moves, candidate);
    if i > 0 {
      assert Capture(moves[0]) ==> numCaptures > 0;
    }
  }

  /**
   * Without captures first, the candidate can stay behind: with no captures
   * counted and a capture in front, the two exchanges cancel out.
   */
  lemma CandidateCanStayBehind(capture: Move, candidate: Move)
    requires Capture(capture) && candidate != Zero() && candidate != capture
    ensures Reorder([capture, candidate], candidate, 0) == [capture, candidate]
  {
    assert FindMove([capture, candidate], candidate) == 1;
  }

  // ---------------------------------------------------------------------
  // Storing the node's result
  // ---------------------------------------------------------------------

  /** The move and tag `search` stores for a node. */
  datatype Decision = Decision(move: Move, tag: Bound)

  /**
   * With a continuation, its first move is stored as a lower bound after a
   * beta cutoff and as exact otherwise; with none, the null move as an
   * upper bound.
   */
  function StoreDecision(continuation: seq<Move>, alpha: int, beta: int): (d: Decision)
    ensures d.tag == Upper <==> continuation == []
    ensures d.tag == Upper ==> d.move == Zero()
    ensures d.tag != Upper ==> d.move == continuation[0] && (d.tag == Lower <==> alpha >= beta)
  {
    if continuation != [] then
      if alpha >= beta then Decision(continuation[0], Lower) else Decision(continuation[0], Exact)
    else Decision(Zero(), Upper)
  }

  /**
   * What a later probe of the same position at no greater depth finds after
   * the node stored its result (into a slot not already holding that position
   * at greater or equal depth): an exact score answers at once, a lower bound
   * answers when it reaches the new beta and otherwise sets alpha to it,
   * and an upper bound only passes on the null move.
   */
  lemma StoredResultAnswersProbe(ht: HashTable, hash: nat, depth: int, continuation: seq<Move>,
                                 score: int, result: GameResult, alpha: int, beta: int,
                                 laterDepth: int, laterAlpha: int, laterBeta: int, variation: seq<Move>)
    requires Usable(ht) && IsHash(hash) && ht.enabled && hash != 0
    requires ht.table[Slot(ht, hash)].hash == hash ==> ht.table[Slot(ht, hash)].depth < depth
    requires laterDepth <= depth
    ensures var d := StoreDecision(continuation, alpha, beta);
            var stored := Store(ht, hash, depth, d.move, score, result);
            var p := ProbeTable(stored, hash, d.tag, laterDepth, laterAlpha, laterBeta, variation);
            match d.tag
            case Exact => p == Cutoff(Outcome(score, 1, result), variation + [continuation[0]])
            case Lower => p == if score >= laterBeta then Cutoff(Outcome(score, 1, result), variation + [continuation[0]])
                               else Proceed(continuation[0], score)
            case Upper => p == Proceed(Zero(), laterAlpha)
  {
    var d := StoreDecision(continuation, alpha, beta);
    StoreThenLoad(ht, hash, depth, d.move, score, result);
  }
}
