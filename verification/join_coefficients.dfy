/**
 The fixed-weight join-coefficients mediator: chooses the physical join
 operator with the lowest weighted, limit-adjusted cost.
 */
module JoinCoefficients {
  import opened Results
  import opened Mediators

  /** The cost vector a join actor's `test` reports. */
  datatype Coefficients = Coefficients(iterations: nat, persistedItems: nat, blockingItems: nat, requestTime: nat)

  /** The mediator's four configured weights. */
  datatype Weights = Weights(cpuWeight: int, memoryWeight: int, timeWeight: int, ioWeight: int)

  /** A join actor as the mediator sees it. */
  datatype JoinActor = JoinActor(id: int, logicalType: string, physicalName: string, includeInLogs: bool)

  type Positive = n: int | n > 0 witness 1

  /** What the mediator reads from the action's context: the optional limit
      indicator and whether a logger is present. */
  datatype Context = Context(limitIndicator: Option<Positive>, hasLogger: bool)

  /** The debug record: its message and the per-label coefficient and cost
      tables (the `entries`/`variables` parts are not modelled). */
  datatype LogRecord = LogRecord(message: string, coefficients: map<string, Coefficients>, costs: map<string, int>)

  /** The strategy's outcome together with the debug record it emitted. */
  datatype Mediation = Mediation(outcome: TestResult<JoinActor>, log: Option<LogRecord>)

  type JoinReply = Reply<JoinActor, Coefficients>

  /** The label under which an entry appears in logs: the logical type, a
      hyphen, then the physical name. */
  function Label(actor: JoinActor): (l: string)
    ensures |l| == |actor.logicalType| + 1 + |actor.physicalName|
    ensures l[..|actor.logicalType|] == actor.logicalType
    ensures l[|actor.logicalType|] == '-'
    ensures l[|actor.logicalType| + 1..] == actor.physicalName
  {
    actor.logicalType + "-" + actor.physicalName
  }

  /** Actors of one logical type share a label exactly when they share a
      physical name, so the log tables keep them apart. */
  lemma LabelsSeparatePhysicalNames(a: JoinActor, b: JoinActor)
    requires a.logicalType == b.logicalType
    ensures Label(a) == Label(b) <==> a.physicalName == b.physicalName
  {
  }

  const DebugPrefix := "Determined physical join operator '"

  /** The debug line naming the chosen entry: the fixed text, then its label
      in single quotes. */
  function DebugMessage(actor: JoinActor): (m: string)
    ensures |m| == |DebugPrefix| + |Label(actor)| + 1
    ensures m[..|DebugPrefix|] == DebugPrefix
    ensures m[|DebugPrefix|..|m| - 1] == Label(actor)
    ensures m[|m| - 1] == '\''
  {
    DebugPrefix + Label(actor) + "'"
  }

  /** The debug line determines the chosen entry's label. */
  lemma DebugMessageNamesLabel(a: JoinActor, b: JoinActor)
    ensures DebugMessage(a) == DebugMessage(b) <==> Label(a) == Label(b)
  {
  }

  /** The weighted cost of one candidate; `blockingItems` is paired with the
      time weight and `requestTime` with the io weight. */
  function Cost(w: Weights, c: Coefficients): int {
    c.iterations * w.cpuWeight + c.persistedItems * w.memoryWeight
      + c.blockingItems * w.timeWeight + c.requestTime * w.ioWeight
  }

  /** A unit weight on one factor picks out its coefficient, and costs add
      up when weights do, so the four weights each scale exactly one
      coefficient. */
  lemma CostPairing(c: Coefficients, w: Weights, v: Weights)
    ensures Cost(Weights(1, 0, 0, 0), c) == c.iterations
    ensures Cost(Weights(0, 1, 0, 0), c) == c.persistedItems
    ensures Cost(Weights(0, 0, 1, 0), c) == c.blockingItems
    ensures Cost(Weights(0, 0, 0, 1), c) == c.requestTime
    ensures Cost(Weights(w.cpuWeight + v.cpuWeight, w.memoryWeight + v.memoryWeight,
                         w.timeWeight + v.timeWeight, w.ioWeight + v.ioWeight), c)
         == Cost(w, c) + Cost(v, c)
  {
  }

  /** A candidate is blocking when it must consume items before it emits any. */
  predicate IsBlocking(c: Coefficients) {
    c.blockingItems > 0
  }

  predicate IsAcceptedNonBlocking(r: JoinReply) {
    r.reply.Pass? && !IsBlocking(r.reply.value)
  }

  /** The lowest cost among the accepted non-blocking candidates, if any. */
  function MinNonBlockingCost(w: Weights, replies: seq<JoinReply>): (r: Option<int>)
    ensures r.None? <==> forall i :: 0 <= i < |replies| ==> !IsAcceptedNonBlocking(replies[i])
    ensures r.Some? ==>
      && (exists i :: 0 <= i < |replies| && IsAcceptedNonBlocking(replies[i]) && Cost(w, replies[i].reply.value) == r.value)
      && (forall i :: 0 <= i < |replies| && IsAcceptedNonBlocking(replies[i]) ==> r.value <= Cost(w, replies[i].reply.value))
    decreases |replies|
  {
    if |replies| == 0 then None
    else
      var n := |replies| - 1;
      var prev := MinNonBlockingCost(w, replies[..n]);
      assert forall i :: 0 <= i < n ==> replies[..n][i] == replies[i];
      if !IsAcceptedNonBlocking(replies[n]) then prev
      else
        var c := Cost(w, replies[n].reply.value);
        if prev.None? || c < prev.value then Some(c) else prev
  }

  /** Whether candidate `i` is penalised: a limit is set, a non-blocking
      alternative exists, and it is an accepted blocking candidate with more
      iterations than the limit. */
  predicate Penalized(w: Weights, limit: Option<Positive>, replies: seq<JoinReply>, i: int)
    requires 0 <= i < |replies|
  {
    && limit.Some?
    && MinNonBlockingCost(w, replies).Some?
    && replies[i].reply.Pass?
    && IsBlocking(replies[i].reply.value)
    && replies[i].reply.value.iterations > limit.value
  }

  /** The cost of every entry, `None` for rejected ones, after the limit
      adjustment. */
  function AdjustedCosts(w: Weights, limit: Option<Positive>, replies: seq<JoinReply>): (costs: seq<Option<int>>)
    ensures |costs| == |replies|
    ensures forall i :: 0 <= i < |replies| ==> (costs[i].Some? <==> replies[i].reply.Pass?)
  {
    var penalty := MinNonBlockingCost(w, replies);
    seq(|replies|, i requires 0 <= i < |replies| =>
      match replies[i].reply
      case Fail(_) => None
      case Pass(c) =>
        if Penalized(w, limit, replies, i) then Some(Cost(w, c) + penalty.value) else Some(Cost(w, c)))
  }

  /** `r` is the entry selection must return: its cost is defined, no defined
      cost is lower, and every earlier defined cost is strictly higher. */
  predicate IsCheapest(costs: seq<Option<int>>, r: int) {
    && 0 <= r < |costs|
    && costs[r].Some?
    && (forall j :: 0 <= j < |costs| && costs[j].Some? ==> costs[r].value <= costs[j].value)
    && (forall j :: 0 <= j < r && costs[j].Some? ==> costs[r].value < costs[j].value)
  }

  /** The index of the lowest defined cost, scanning left to right and
      replacing the best only on a strictly lower cost; −1 when no cost is
      defined. */
  function MinCostIndex(costs: seq<Option<int>>): (r: int)
    ensures r == -1 <==> forall j :: 0 <= j < |costs| ==> costs[j].None?
    ensures r != -1 ==> IsCheapest(costs, r)
    decreases |costs|
  {
    if |costs| == 0 then -1
    else
      var n := |costs| - 1;
      var prev := MinCostIndex(costs[..n]);
      assert forall j :: 0 <= j < n ==> costs[..n][j] == costs[j];
      if costs[n].Some? && (prev == -1 || costs[n].value < costs[prev].value) then n else prev
  }

  lemma {:induction false} CheapestUnique(costs: seq<Option<int>>, r: int, s: int)
    requires IsCheapest(costs, r) && IsCheapest(costs, s)
    ensures r == s
  {
  }

  /** The labels of the accepted entries. */
  function AcceptedLabels(replies: seq<JoinReply>): set<string> {
    set i | 0 <= i < |replies| && replies[i].reply.Pass? :: Label(replies[i].actor)
  }

  /** The raw coefficients keyed by label; a later entry overrides an earlier
      one with the same label, and rejected entries are left out. */
  function CoefficientsMap(replies: seq<JoinReply>): (m: map<string, Coefficients>)
    ensures m.Keys == AcceptedLabels(replies)
    decreases |replies|
  {
    if |replies| == 0 then map[]
    else
      var n := |replies| - 1;
      var prev := CoefficientsMap(replies[..n]);
      assert forall i :: 0 <= i < n ==> replies[..n][i] == replies[i];
      match replies[n].reply
      case Fail(_) => prev
      case Pass(c) => prev[Label(replies[n].actor) := c]
  }

  /** The adjusted costs keyed by label, entries without a cost left out. */
  function CostsMap(replies: seq<JoinReply>, costs: seq<Option<int>>): (m: map<string, int>)
    requires |costs| == |replies|
    ensures m.Keys == set i | 0 <= i < |replies| && costs[i].Some? :: Label(replies[i].actor)
    decreases |replies|
  {
    if |replies| == 0 then map[]
    else
      var n := |replies| - 1;
      var prev := CostsMap(replies[..n], costs[..n]);
      assert forall i :: 0 <= i < n ==> replies[..n][i] == replies[i] && costs[..n][i] == costs[i];
      match costs[n]
      case None => prev
      case Some(c) => prev[Label(replies[n].actor) := c]
  }

  /** `mediateWith`: compute the adjusted costs, pick the cheapest accepted
      entry, fail with every reason when all were rejected, and emit the debug
      record when the winner is included in logs. */
  function MediateWith(w: Weights, ctx: Context, failMessage: string, replies: seq<JoinReply>): (r: Mediation)
    ensures r.outcome.Fail? <==> forall i :: 0 <= i < |replies| ==> replies[i].reply.Fail?
    ensures r.outcome.Fail? ==>
      r.outcome.message == ConstructFailureMessage(failMessage, FailMessages(replies)) && r.log.None?
    ensures r.outcome.Pass? ==>
      exists i {:trigger IsCheapest(AdjustedCosts(w, ctx.limitIndicator, replies), i)} ::
        && 0 <= i < |replies| && IsCheapest(AdjustedCosts(w, ctx.limitIndicator, replies), i)
        && replies[i].reply.Pass? && r.outcome.value == replies[i].actor
    ensures r.log.Some? <==> r.outcome.Pass? && r.outcome.value.includeInLogs && ctx.hasLogger
    ensures r.log.Some? && r.outcome.Pass? ==>
      && r.log.value.message == DebugMessage(r.outcome.value)
      && r.log.value.coefficients.Keys == AcceptedLabels(replies)
      && r.log.value.costs.Keys == AcceptedLabels(replies)
  {
    var costs := AdjustedCosts(w, ctx.limitIndicator, replies);
    var index := MinCostIndex(costs);
    if index < 0 then
      Mediation(Fail(ConstructFailureMessage(failMessage, FailMessages(replies))), None)
    else
      var best := replies[index].actor;
      var log := if best.includeInLogs && ctx.hasLogger
                 then Some(LogRecord(DebugMessage(best), CoefficientsMap(replies), CostsMap(replies, costs)))
                 else None;
      Mediation(Pass(best), log)
  }

  /** The outcome of a full round on bus `busName` and the debug record the
      round emitted. */
  datatype Round = Round(result: Result<JoinActor>, log: Option<LogRecord>)

  function Mediate(busName: string, w: Weights, ctx: Context, failMessage: string, replies: seq<JoinReply>): (r: Round)
    ensures |replies| == 0 ==> r == Round(Error(NoActorsMessage(busName)), None)
    ensures r.result.Ok? ==>
      exists i :: 0 <= i < |replies| && replies[i].reply.Pass? && r.result.value == replies[i].actor
  {
    var result := Mediators.Mediate(busName, replies, rs => Ok(MediateWith(w, ctx, failMessage, rs).outcome));
    Round(result, if |replies| == 0 then None else MediateWith(w, ctx, failMessage, replies).log)
  }

  /** An accepted candidate costs exactly its weighted sum when it is
      non-blocking, when no limit is set, when its iterations are within the
      limit, or when no accepted non-blocking alternative exists. */
  lemma {:induction false} UnadjustedCosts(w: Weights, limit: Option<Positive>, replies: seq<JoinReply>, i: int)
    requires 0 <= i < |replies| && replies[i].reply.Pass?
    requires || !IsBlocking(replies[i].reply.value)
             || limit.None?
             || replies[i].reply.value.iterations <= limit.value
             || forall k :: 0 <= k < |replies| ==> !IsAcceptedNonBlocking(replies[k])
    ensures AdjustedCosts(w, limit, replies)[i] == Some(Cost(w, replies[i].reply.value))
  {
  }

  /** With a limit set and a non-blocking alternative accepted, an accepted
      blocking candidate with more iterations than the limit costs its
      weighted sum plus the cheapest non-blocking candidate's cost. */
  lemma {:induction false} LimitPenalty(w: Weights, l: Positive, replies: seq<JoinReply>, i: int, k: int)
    requires 0 <= i < |replies| && replies[i].reply.Pass? && IsBlocking(replies[i].reply.value)
    requires replies[i].reply.value.iterations > l
    requires 0 <= k < |replies| && IsAcceptedNonBlocking(replies[k])
    ensures MinNonBlockingCost(w, replies).Some?
    ensures AdjustedCosts(w, Some(l), replies)[i]
         == Some(Cost(w, replies[i].reply.value) + MinNonBlockingCost(w, replies).value)
    ensures MinNonBlockingCost(w, replies).value <= Cost(w, replies[k].reply.value)
  {
  }

  predicate NonNegativeWeights(w: Weights) {
    w.cpuWeight >= 0 && w.memoryWeight >= 0 && w.timeWeight >= 0 && w.ioWeight >= 0
  }

  /** With non-negative weights and a positive time weight a blocking
      candidate has a positive cost. */
  lemma BlockingCostPositive(w: Weights, c: Coefficients)
    requires NonNegativeWeights(w) && w.timeWeight > 0 && IsBlocking(c)
    ensures Cost(w, c) > 0
  {
    assert c.iterations * w.cpuWeight >= 0;
    assert c.persistedItems * w.memoryWeight >= 0;
    assert c.requestTime * w.ioWeight >= 0;
    assert c.blockingItems * w.timeWeight >= w.timeWeight;
  }

  /** When a limit is set, a non-blocking candidate is accepted and every
      accepted blocking candidate needs more iterations than the limit, the
      cheapest entry after adjustment is a non-blocking one. */
  lemma {:induction false} CheapestIsNonBlocking(w: Weights, limit: Option<Positive>, replies: seq<JoinReply>, i: int)
    requires NonNegativeWeights(w) && w.timeWeight > 0
    requires limit.Some?
    requires exists k :: 0 <= k < |replies| && IsAcceptedNonBlocking(replies[k])
    requires forall j :: 0 <= j < |replies| && replies[j].reply.Pass? && IsBlocking(replies[j].reply.value) ==>
      replies[j].reply.value.iterations > limit.value
    requires IsCheapest(AdjustedCosts(w, limit, replies), i)
    ensures IsAcceptedNonBlocking(replies[i])
  {
    var costs := AdjustedCosts(w, limit, replies);
    var p := MinNonBlockingCost(w, replies);
    var m :| 0 <= m < |replies| && IsAcceptedNonBlocking(replies[m]) && Cost(w, replies[m].reply.value) == p.value;
    assert costs[m] == Some(p.value);
    if IsBlocking(replies[i].reply.value) {
      BlockingCostPositive(w, replies[i].reply.value);
      assert false;
    }
  }

  /** The same, for the whole mediation step: the winner is a non-blocking
      candidate, whatever the registration order. */
  lemma {:induction false} StreamingPreferred(w: Weights, ctx: Context, failMessage: string, replies: seq<JoinReply>)
    requires NonNegativeWeights(w) && w.timeWeight > 0
    requires ctx.limitIndicator.Some?
    requires exists k :: 0 <= k < |replies| && IsAcceptedNonBlocking(replies[k])
    requires forall j :: 0 <= j < |replies| && replies[j].reply.Pass? && IsBlocking(replies[j].reply.value) ==>
      replies[j].reply.value.iterations > ctx.limitIndicator.value
    ensures var r := MediateWith(w, ctx, failMessage, replies);
      r.outcome.Pass? && exists i :: 0 <= i < |replies| && IsAcceptedNonBlocking(replies[i]) && r.outcome.value == replies[i].actor
  {
    var costs := AdjustedCosts(w, ctx.limitIndicator, replies);
    var r := MediateWith(w, ctx, failMessage, replies);
    var k :| 0 <= k < |replies| && IsAcceptedNonBlocking(replies[k]);
    assert r.outcome.Pass?;
    var i :| 0 <= i < |replies| && IsCheapest(costs, i) && replies[i].reply.Pass? && r.outcome.value == replies[i].actor;
    CheapestIsNonBlocking(w, ctx.limitIndicator, replies, i);
  }

  /** No two entries share a label. */
  predicate DistinctLabels(replies: seq<JoinReply>) {
    forall i, j :: 0 <= i < j < |replies| ==> Label(replies[i].actor) != Label(replies[j].actor)
  }

  lemma {:induction false} CoefficientsMapAt(replies: seq<JoinReply>, i: int)
    requires DistinctLabels(replies)
    requires 0 <= i < |replies| && replies[i].reply.Pass?
    ensures CoefficientsMap(replies)[Label(replies[i].actor)] == replies[i].reply.value
    decreases |replies|
  {
    var n := |replies| - 1;
    var front := replies[..n];
    assert replies == front + [replies[n]];
    CoefficientsMapSnoc(front, replies[n]);
    if i < n {
      DistinctLabelsPrefix(replies, n);
      assert front[i] == replies[i];
      CoefficientsMapAt(front, i);
      assert Label(replies[n].actor) != Label(replies[i].actor);
    }
  }

  lemma {:induction false} CostsMapAt(replies: seq<JoinReply>, costs: seq<Option<int>>, i: int)
    requires DistinctLabels(replies) && |costs| == |replies|
    requires 0 <= i < |replies| && costs[i].Some?
    ensures CostsMap(replies, costs)[Label(replies[i].actor)] == costs[i].value
    decreases |replies|
  {
    var n := |replies| - 1;
    var front, frontCosts := replies[..n], costs[..n];
    assert replies == front + [replies[n]] && costs == frontCosts + [costs[n]];
    CostsMapSnoc(front, frontCosts, replies[n], costs[n]);
    if i < n {
      DistinctLabelsPrefix(replies, n);
      assert front[i] == replies[i] && frontCosts[i] == costs[i];
      CostsMapAt(front, frontCosts, i);
      assert Label(replies[n].actor) != Label(replies[i].actor);
    }
  }

  lemma {:induction false} DistinctLabelsPrefix(replies: seq<JoinReply>, n: int)
    requires DistinctLabels(replies) && 0 <= n <= |replies|
    ensures DistinctLabels(replies[..n])
  {
    assert forall k :: 0 <= k < n ==> replies[..n][k] == replies[k];
  }

  /** The debug record holds, under each accepted entry's label, its raw
      coefficients and its adjusted cost. */
  lemma {:induction false} LogRecordTables(w: Weights, ctx: Context, failMessage: string, replies: seq<JoinReply>, i: int)
    requires DistinctLabels(replies)
    requires 0 <= i < |replies| && replies[i].reply.Pass?
    ensures var r := MediateWith(w, ctx, failMessage, replies);
      r.log.Some? ==>
        && r.log.value.coefficients[Label(replies[i].actor)] == replies[i].reply.value
        && r.log.value.costs[Label(replies[i].actor)] == AdjustedCosts(w, ctx.limitIndicator, replies)[i].value
  {
    CoefficientsMapAt(replies, i);
    CostsMapAt(replies, AdjustedCosts(w, ctx.limitIndicator, replies), i);
  }

  /** Appending an entry adds (or overrides) its label in the coefficient table. */
  lemma {:induction false} CoefficientsMapSnoc(replies: seq<JoinReply>, r: JoinReply)
    ensures CoefficientsMap(replies + [r])
         == if r.reply.Pass? then CoefficientsMap(replies)[Label(r.actor) := r.reply.value] else CoefficientsMap(replies)
  {
    assert (replies + [r])[..|replies|] == replies;
  }

  /** Appending an entry adds (or overrides) its label in the cost table. */
  lemma {:induction false} CostsMapSnoc(replies: seq<JoinReply>, costs: seq<Option<int>>, r: JoinReply, c: Option<int>)
    requires |costs| == |replies|
    ensures CostsMap(replies + [r], costs + [c])
         == if c.Some? then CostsMap(replies, costs)[Label(r.actor) := c.value] else CostsMap(replies, costs)
  {
    assert (replies + [r])[..|replies|] == replies;
    assert (costs + [c])[..|costs|] == costs;
  }
}
