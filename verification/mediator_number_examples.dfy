/**
 Concrete rounds of the numeric extremum mediator: tie-breaking, `null` and
 `undefined` fields, and the two ways of treating rejected actors.
 */
module MediatorNumberExamples {
  import opened Results
  import opened Mediators
  import opened MediatorNumber

  /** The picker's contract singles out one index. */
  lemma {:induction false} Picks(mode: Mode, tests: seq<Field>, i: int)
    requires IsFirstBest(mode, tests, i)
    ensures PickIndex(mode, tests) == i
  {
    FirstBestUnique(mode, tests, PickIndex(mode, tests), i);
  }

  /** Of two equal minima the earlier one is picked. */
  lemma MinTieGoesToEarliest()
    ensures PickIndex(Min, [Num(Fin(3)), Num(Fin(1)), Num(Fin(1))]) == 1
  {
    Picks(Min, [Num(Fin(3)), Num(Fin(1)), Num(Fin(1))], 1);
  }

  /** Of two equal maxima the earlier one is picked. */
  lemma MaxTieGoesToEarliest()
    ensures PickIndex(Max, [Num(Fin(1)), Num(Fin(3)), Num(Fin(3))]) == 1
  {
    Picks(Max, [Num(Fin(1)), Num(Fin(3)), Num(Fin(3))], 1);
  }

  /** An absent field is picked when nothing else is comparable, but any
      finite value beats it. */
  lemma UndefinedExamples()
    ensures PickIndex(Min, [Null, Undefined]) == 1
    ensures PickIndex(Max, [Undefined, Null]) == 0
    ensures PickIndex(Min, [Undefined, Num(Fin(5))]) == 1
    ensures PickIndex(Max, [Num(Fin(-5)), Undefined]) == 0
  {
    Picks(Min, [Null, Undefined], 1);
    Picks(Max, [Undefined, Null], 0);
    Picks(Min, [Undefined, Num(Fin(5))], 1);
    Picks(Max, [Num(Fin(-5)), Undefined], 0);
  }

  /** With only `null` fields, or none at all, nothing is picked. */
  lemma NothingComparable(mode: Mode)
    ensures PickIndex(mode, []) == -1
    ensures PickIndex(mode, [Null, Null]) == -1
  {
  }

  /** An unknown picker type is refused. */
  lemma UnknownPickerType()
    ensures CreateIndexPicker("avg")
         == Error("No valid \"type\" value was given, must be either 'min' or 'max', but got: avg")
  {
  }

  const CostField := "cost"

  function Replies(): seq<Reply<int, Record>> {
    [Reply(1, Fail("Actor 1 fails")), Reply(2, Pass(map[CostField := Num(Fin(2))])),
     Reply(3, Pass(map[CostField := Num(Fin(1))]))]
  }

  /** Ignoring failures, the rejected first actor is passed over and the
      minimum among the others wins; without ignoring them, the round fails
      with the rejection's reason. */
  lemma IgnoringFailures()
    ensures MediatorNumber.Mediate("bus", Config(CostField, Min, true, "FAIL"), Replies()) == Ok(3)
    ensures MediatorNumber.Mediate("bus", Config(CostField, Min, false, "FAIL"), Replies()) == Error("Actor 1 fails")
  {
    var config := Config(CostField, Min, true, "FAIL");
    var fields := Fields(config, Replies());
    assert fields == [Null, Num(Fin(2)), Num(Fin(1))];
    Picks(Min, fields, 2);
    AnyFailureAborts("bus", Config(CostField, Min, false, "FAIL"), Replies(), 0);
  }
}
