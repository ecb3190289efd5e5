/**
 The rounds of the join-coefficients mediator's test suite, with their exact
 numbers: three or fewer dummy actors labelled LOGICAL-PHYSICAL<id> on a bus
 named "bus" whose fail message is "BUS FAIL MESSAGE", and a context with a
 logger. A round's chosen actor is the one whose `run` yields `{ id }`.
 */
module JoinCoefficientsScenarios {
  import opened Results
  import opened Mediators
  import opened JoinCoefficients

  const UnitWeights := Weights(1, 1, 1, 1)
  const IoHeavyWeights := Weights(1, 1, 1, 10000)
  const BusFailMessage := "BUS FAIL MESSAGE"
  const NoLimit := Context(None, true)

  function DummyActor(id: int, physicalName: string): JoinActor {
    JoinActor(id, "LOGICAL", physicalName, true)
  }

  const A1 := DummyActor(1, "PHYSICAL1")
  const A2 := DummyActor(2, "PHYSICAL2")
  const A3 := DummyActor(3, "PHYSICAL3")

  lemma Label1()
    ensures Label(A1) == "LOGICAL-PHYSICAL1"
    ensures DebugMessage(A1) == "Determined physical join operator 'LOGICAL-PHYSICAL1'"
  {
  }

  lemma Label2()
    ensures Label(A2) == "LOGICAL-PHYSICAL2"
    ensures DebugMessage(A2) == "Determined physical join operator 'LOGICAL-PHYSICAL2'"
  {
  }

  lemma Label3()
    ensures Label(A3) == "LOGICAL-PHYSICAL3"
    ensures DebugMessage(A3) == "Determined physical join operator 'LOGICAL-PHYSICAL3'"
  {
  }

  function PutCoefficients(m: map<string, Coefficients>, r: JoinReply): map<string, Coefficients> {
    if r.reply.Pass? then m[Label(r.actor) := r.reply.value] else m
  }

  function PutCost(m: map<string, int>, r: JoinReply, c: Option<int>): map<string, int> {
    if c.Some? then m[Label(r.actor) := c.value] else m
  }

  /** The two tables of a three-entry round, built entry by entry. */
  lemma {:induction false} Tables(x: JoinReply, y: JoinReply, z: JoinReply, costs: seq<Option<int>>)
    requires |costs| == 3
    ensures CoefficientsMap([x, y, z]) == PutCoefficients(PutCoefficients(PutCoefficients(map[], x), y), z)
    ensures CostsMap([x, y, z], costs) == PutCost(PutCost(PutCost(map[], x, costs[0]), y, costs[1]), z, costs[2])
  {
    assert [] + [x] == [x] && [x] + [y] == [x, y] && [x, y] + [z] == [x, y, z];
    assert [] + [costs[0]] == [costs[0]] && [costs[0]] + [costs[1]] == [costs[0], costs[1]];
    assert [costs[0], costs[1]] + [costs[2]] == costs;
    CoefficientsMapSnoc([], x);
    CoefficientsMapSnoc([x], y);
    CoefficientsMapSnoc([x, y], z);
    CostsMapSnoc([], [], x, costs[0]);
    CostsMapSnoc([x], [costs[0]], y, costs[1]);
    CostsMapSnoc([x, y], [costs[0], costs[1]], z, costs[2]);
  }

  lemma {:induction false} Selects(costs: seq<Option<int>>, i: int)
    requires IsCheapest(costs, i)
    ensures MinCostIndex(costs) == i
  {
    CheapestUnique(costs, MinCostIndex(costs), i);
  }

  function Replies3(r1: TestResult<Coefficients>, r2: TestResult<Coefficients>, r3: TestResult<Coefficients>): seq<JoinReply> {
    [Reply(A1, r1), Reply(A2, r2), Reply(A3, r3)]
  }

  function Round3(w: Weights, ctx: Context, r1: TestResult<Coefficients>, r2: TestResult<Coefficients>,
                  r3: TestResult<Coefficients>): Round {
    JoinCoefficients.Mediate("bus", w, ctx, BusFailMessage, Replies3(r1, r2, r3))
  }

  /** A logged three-entry round whose adjusted costs are `costs` picks the
      cheapest entry `k` and logs both tables. */
  lemma {:induction false} Decides3(w: Weights, ctx: Context, r1: TestResult<Coefficients>, r2: TestResult<Coefficients>,
                 r3: TestResult<Coefficients>, costs: seq<Option<int>>, k: int)
    requires ctx.hasLogger
    requires AdjustedCosts(w, ctx.limitIndicator, Replies3(r1, r2, r3)) == costs
    requires IsCheapest(costs, k)
    ensures var replies := Replies3(r1, r2, r3);
      Round3(w, ctx, r1, r2, r3)
        == Round(Ok(replies[k].actor),
                 Some(LogRecord(DebugMessage(replies[k].actor),
                                PutCoefficients(PutCoefficients(PutCoefficients(map[], replies[0]), replies[1]), replies[2]),
                                PutCost(PutCost(PutCost(map[], replies[0], costs[0]), replies[1], costs[1]),
                                        replies[2], costs[2]))))
  {
    var replies := Replies3(r1, r2, r3);
    Selects(costs, k);
    Tables(replies[0], replies[1], replies[2], costs);
  }

  lemma NoActorsRegistered()
    ensures JoinCoefficients.Mediate("bus", UnitWeights, NoLimit, BusFailMessage, [])
         == Round(Error("No actors are able to reply to a message in the bus bus"), None)
  {
  }

  /** A three-entry round in which every entry rejects fails with the three
      reasons in registration order and logs nothing. */
  lemma Rejects3(w: Weights, ctx: Context, a: string, b: string, c: string)
    ensures Round3(w, ctx, Fail(a), Fail(b), Fail(c))
         == Round(Error(ConstructFailureMessage(BusFailMessage, [a, b, c])), None)
  {
    var replies := Replies3(Fail(a), Fail(b), Fail(c));
    FailMessagesAllRejected(replies);
    assert FailMessages(replies) == [a, b, c];
  }

  /** The expected message, written line by line. */
  lemma AllActorsReject()
    ensures Round3(UnitWeights, NoLimit, Fail("Actor 1 fails"), Fail("Actor 2 fails"), Fail("Actor 3 fails"))
         == Round(Error("BUS FAIL MESSAGE" + "\n" + "    Error messages of failing actors:"
                        + "\n" + "        " + "Actor 1 fails"
                        + "\n" + "        " + "Actor 2 fails"
                        + "\n" + "        " + "Actor 3 fails"), None)
  {
    var a, b, c := "Actor 1 fails", "Actor 2 fails", "Actor 3 fails";
    Rejects3(UnitWeights, NoLimit, a, b, c);
    assert [] + [a] == [a] && [a] + [b] == [a, b] && [a, b] + [c] == [a, b, c];
    ConstructFailureMessageSnoc(BusFailMessage, [], a);
    ConstructFailureMessageSnoc(BusFailMessage, [a], b);
    ConstructFailureMessageSnoc(BusFailMessage, [a, b], c);
  }

  lemma SingleActor()
    ensures JoinCoefficients.Mediate("bus", UnitWeights, NoLimit, BusFailMessage, [Reply(A1, Pass(Coefficients(10, 20, 30, 50)))])
         == Round(Ok(A1), Some(LogRecord("Determined physical join operator 'LOGICAL-PHYSICAL1'",
                                         map["LOGICAL-PHYSICAL1" := Coefficients(10, 20, 30, 50)],
                                         map["LOGICAL-PHYSICAL1" := 110])))
  {
    var replies: seq<JoinReply> := [Reply(A1, Pass(Coefficients(10, 20, 30, 50)))];
    Label1();
    var costs := AdjustedCosts(UnitWeights, None, replies);
    assert costs == [Some(110)];
    Selects(costs, 0);
    assert [] + replies == replies && [] + costs == costs;
    CoefficientsMapSnoc([], replies[0]);
    CostsMapSnoc([], [], replies[0], costs[0]);
  }

  lemma SingleActorNotLogged()
    ensures var a := A1.(includeInLogs := false);
      JoinCoefficients.Mediate("bus", UnitWeights, NoLimit, BusFailMessage, [Reply(a, Pass(Coefficients(10, 20, 30, 50)))])
        == Round(Ok(a), None)
  {
    var replies: seq<JoinReply> := [Reply(A1.(includeInLogs := false), Pass(Coefficients(10, 20, 30, 50)))];
    var costs := AdjustedCosts(UnitWeights, None, replies);
    assert costs == [Some(110)];
    Selects(costs, 0);
  }

  lemma MultipleActors()
    ensures Round3(UnitWeights, NoLimit, Pass(Coefficients(10, 20, 30, 50)), Pass(Coefficients(10, 20, 30, 20)),
                   Pass(Coefficients(1000, 20, 30, 10)))
         == Round(Ok(A2), Some(LogRecord("Determined physical join operator 'LOGICAL-PHYSICAL2'",
                                         map["LOGICAL-PHYSICAL1" := Coefficients(10, 20, 30, 50),
                                             "LOGICAL-PHYSICAL2" := Coefficients(10, 20, 30, 20),
                                             "LOGICAL-PHYSICAL3" := Coefficients(1000, 20, 30, 10)],
                                         map["LOGICAL-PHYSICAL1" := 110, "LOGICAL-PHYSICAL2" := 80,
                                             "LOGICAL-PHYSICAL3" := 1060])))
  {
    Label1();
    Label2();
    Label3();
    var r1: TestResult<Coefficients>, r2: TestResult<Coefficients>, r3: TestResult<Coefficients> :=
      Pass(Coefficients(10, 20, 30, 50)), Pass(Coefficients(10, 20, 30, 20)), Pass(Coefficients(1000, 20, 30, 10));
    var ctx, costs := NoLimit, [Some(110), Some(80), Some(1060)];
    assert AdjustedCosts(UnitWeights, ctx.limitIndicator, Replies3(r1, r2, r3)) == costs;
    Decides3(UnitWeights, ctx, r1, r2, r3, costs, 1);
  }

  lemma MultipleActorsOneFailing()
    ensures Round3(UnitWeights, NoLimit, Pass(Coefficients(10, 20, 30, 50)), Fail("Actor 2 fails"),
                   Pass(Coefficients(1000, 20, 30, 10)))
         == Round(Ok(A1), Some(LogRecord("Determined physical join operator 'LOGICAL-PHYSICAL1'",
                                         map["LOGICAL-PHYSICAL1" := Coefficients(10, 20, 30, 50),
                                             "LOGICAL-PHYSICAL3" := Coefficients(1000, 20, 30, 10)],
                                         map["LOGICAL-PHYSICAL1" := 110, "LOGICAL-PHYSICAL3" := 1060])))
  {
    Label1();
    Label2();
    Label3();
    var r1: TestResult<Coefficients>, r2: TestResult<Coefficients>, r3: TestResult<Coefficients> :=
      Pass(Coefficients(10, 20, 30, 50)), Fail("Actor 2 fails"), Pass(Coefficients(1000, 20, 30, 10));
    var ctx, costs := NoLimit, [Some(110), None, Some(1060)];
    assert AdjustedCosts(UnitWeights, ctx.limitIndicator, Replies3(r1, r2, r3)) == costs;
    Decides3(UnitWeights, ctx, r1, r2, r3, costs, 0);
  }

  lemma MultipleActorsModifiedWeights()
    ensures Round3(IoHeavyWeights, NoLimit, Pass(Coefficients(10, 20, 30, 50)), Pass(Coefficients(10, 20, 30, 20)),
                   Pass(Coefficients(1000, 20, 30, 10)))
         == Round(Ok(A3), Some(LogRecord("Determined physical join operator 'LOGICAL-PHYSICAL3'",
                                         map["LOGICAL-PHYSICAL1" := Coefficients(10, 20, 30, 50),
                                             "LOGICAL-PHYSICAL2" := Coefficients(10, 20, 30, 20),
                                             "LOGICAL-PHYSICAL3" := Coefficients(1000, 20, 30, 10)],
                                         map["LOGICAL-PHYSICAL1" := 500060, "LOGICAL-PHYSICAL2" := 200060,
                                             "LOGICAL-PHYSICAL3" := 101050])))
  {
    Label1();
    Label2();
    Label3();
    var r1: TestResult<Coefficients>, r2: TestResult<Coefficients>, r3: TestResult<Coefficients> :=
      Pass(Coefficients(10, 20, 30, 50)), Pass(Coefficients(10, 20, 30, 20)), Pass(Coefficients(1000, 20, 30, 10));
    var ctx, costs := NoLimit, [Some(500060), Some(200060), Some(101050)];
    assert AdjustedCosts(IoHeavyWeights, ctx.limitIndicator, Replies3(r1, r2, r3)) == costs;
    Decides3(IoHeavyWeights, ctx, r1, r2, r3, costs, 2);
  }

  lemma LimitPrefersNonBlocking()
    ensures Round3(UnitWeights, Context(Some(10), true), Pass(Coefficients(100, 20, 30, 50)),
                   Pass(Coefficients(100, 20, 30, 20)), Pass(Coefficients(1000, 20, 0, 10)))
         == Round(Ok(A3), Some(LogRecord("Determined physical join operator 'LOGICAL-PHYSICAL3'",
                                         map["LOGICAL-PHYSICAL1" := Coefficients(100, 20, 30, 50),
                                             "LOGICAL-PHYSICAL2" := Coefficients(100, 20, 30, 20),
                                             "LOGICAL-PHYSICAL3" := Coefficients(1000, 20, 0, 10)],
                                         map["LOGICAL-PHYSICAL1" := 1230, "LOGICAL-PHYSICAL2" := 1200,
                                             "LOGICAL-PHYSICAL3" := 1030])))
  {
    Label1();
    Label2();
    Label3();
    var r1: TestResult<Coefficients>, r2: TestResult<Coefficients>, r3: TestResult<Coefficients> :=
      Pass(Coefficients(100, 20, 30, 50)), Pass(Coefficients(100, 20, 30, 20)), Pass(Coefficients(1000, 20, 0, 10));
    var ctx, costs := Context(Some(10), true), [Some(1230), Some(1200), Some(1030)];
    assert AdjustedCosts(UnitWeights, ctx.limitIndicator, Replies3(r1, r2, r3)) == costs;
    Decides3(UnitWeights, ctx, r1, r2, r3, costs, 2);
  }

  lemma LimitPrefersNonBlockingReversed()
    ensures Round3(UnitWeights, Context(Some(10), true), Pass(Coefficients(1000, 20, 0, 10)),
                   Pass(Coefficients(100, 20, 30, 20)), Pass(Coefficients(100, 20, 30, 50)))
         == Round(Ok(A1), Some(LogRecord("Determined physical join operator 'LOGICAL-PHYSICAL1'",
                                         map["LOGICAL-PHYSICAL1" := Coefficients(1000, 20, 0, 10),
                                             "LOGICAL-PHYSICAL2" := Coefficients(100, 20, 30, 20),
                                             "LOGICAL-PHYSICAL3" := Coefficients(100, 20, 30, 50)],
                                         map["LOGICAL-PHYSICAL1" := 1030, "LOGICAL-PHYSICAL2" := 1200,
                                             "LOGICAL-PHYSICAL3" := 1230])))
  {
    Label1();
    Label2();
    Label3();
    var r1: TestResult<Coefficients>, r2: TestResult<Coefficients>, r3: TestResult<Coefficients> :=
      Pass(Coefficients(1000, 20, 0, 10)), Pass(Coefficients(100, 20, 30, 20)), Pass(Coefficients(100, 20, 30, 50));
    var ctx, costs := Context(Some(10), true), [Some(1030), Some(1200), Some(1230)];
    var replies := Replies3(r1, r2, r3);
    assert MinNonBlockingCost(UnitWeights, replies) == Some(1030) by {
      assert IsAcceptedNonBlocking(replies[0]) && Cost(UnitWeights, r1.value) == 1030;
      assert !IsAcceptedNonBlocking(replies[1]) && !IsAcceptedNonBlocking(replies[2]);
    }
    assert AdjustedCosts(UnitWeights, ctx.limitIndicator, replies) == costs;
    Decides3(UnitWeights, ctx, r1, r2, r3, costs, 0);
  }

  lemma HighLimitNoAdjustment()
    ensures Round3(UnitWeights, Context(Some(200), true), Pass(Coefficients(100, 20, 30, 50)),
                   Pass(Coefficients(100, 20, 30, 20)), Pass(Coefficients(1000, 20, 0, 10)))
         == Round(Ok(A2), Some(LogRecord("Determined physical join operator 'LOGICAL-PHYSICAL2'",
                                         map["LOGICAL-PHYSICAL1" := Coefficients(100, 20, 30, 50),
                                             "LOGICAL-PHYSICAL2" := Coefficients(100, 20, 30, 20),
                                             "LOGICAL-PHYSICAL3" := Coefficients(1000, 20, 0, 10)],
                                         map["LOGICAL-PHYSICAL1" := 200, "LOGICAL-PHYSICAL2" := 170,
                                             "LOGICAL-PHYSICAL3" := 1030])))
  {
    Label1();
    Label2();
    Label3();
    var r1: TestResult<Coefficients>, r2: TestResult<Coefficients>, r3: TestResult<Coefficients> :=
      Pass(Coefficients(100, 20, 30, 50)), Pass(Coefficients(100, 20, 30, 20)), Pass(Coefficients(1000, 20, 0, 10));
    var ctx, costs := Context(Some(200), true), [Some(200), Some(170), Some(1030)];
    assert AdjustedCosts(UnitWeights, ctx.limitIndicator, Replies3(r1, r2, r3)) == costs;
    Decides3(UnitWeights, ctx, r1, r2, r3, costs, 1);
  }
}
