/**
 The numeric extremum mediator: picks the actor whose accepted test value
 holds the smallest (or largest) value in a named numeric field.
 */
module MediatorNumber {
  import opened Results
  import opened Mediators

  /** A JavaScript number as this mediator compares it: an integer or one of
      the two infinities (NaN is not modelled). */
  datatype Ext = NegInf | Fin(n: int) | PosInf

  /** The strict order `<` on extended numbers. */
  predicate Less(a: Ext, b: Ext) {
    match a
    case NegInf => !b.NegInf?
    case Fin(x) => b.PosInf? || (b.Fin? && x < b.n)
    case PosInf => false
  }

  /** The value read from a test value's field: `null`, `undefined` (the
      field is absent) or a number. */
  datatype Field = Null | Undefined | Num(v: Ext)

  /** A test value, read by field name; a name that is not a key reads as
      `undefined`. */
  type Record = map<string, Field>

  function Lookup(rec: Record, field: string): (f: Field)
    ensures field !in rec ==> f == Undefined
    ensures field in rec ==> f == rec[field]
  {
    if field in rec then rec[field] else Undefined
  }

  /** The record that replaces a rejected reply when failures are ignored:
      its field is `null`. */
  function Dummy(field: string): (rec: Record)
    ensures Lookup(rec, field) == Null
  {
    map[field := Null]
  }

  datatype Mode = Min | Max

  /** Builds the index picker from the configured `type`; any string other
      than "min" or "max" is an error. */
  function CreateIndexPicker(pickerType: string): (r: Result<Mode>)
    ensures r.Ok? <==> pickerType == "min" || pickerType == "max"
    ensures r == Ok(Min) <==> pickerType == "min"
    ensures r == Ok(Max) <==> pickerType == "max"
    ensures r.Error? ==>
      r.message == "No valid \"type\" value was given, must be either 'min' or 'max', but got: " + pickerType
  {
    if pickerType == "min" then Ok(Min)
    else if pickerType == "max" then Ok(Max)
    else Error("No valid \"type\" value was given, must be either 'min' or 'max', but got: " + pickerType)
  }

  /** The value an absent field stands for: +∞ when minimising, −∞ when
      maximising, so that it can win only against nothing finite. */
  function DefaultFor(mode: Mode): Ext {
    match mode
    case Min => PosInf
    case Max => NegInf
  }

  /** `undefined` becomes the default; `null` and numbers pass through. */
  function GetOrDefault(value: Field, default: Ext): (r: Field)
    ensures value == Undefined ==> r == Num(default)
    ensures r != Undefined
    ensures r.Null? <==> value.Null?
    ensures value.Num? ==> r == value
  {
    if value == Undefined then Num(default) else value
  }

  /** The number a non-null field is compared as. */
  function ValueOf(mode: Mode, f: Field): Ext
    requires !f.Null?
  {
    GetOrDefault(f, DefaultFor(mode)).v
  }

  /** `v` is strictly better than `prev`: smaller for `min`, larger for `max`. */
  predicate Beats(mode: Mode, v: Ext, prev: Ext) {
    match mode
    case Min => Less(v, prev)
    case Max => Less(prev, v)
  }

  predicate AllNull(tests: seq<Field>) {
    forall j :: 0 <= j < |tests| ==> tests[j].Null?
  }

  /** `r` is the index the picker must return for a list with a non-null
      entry: its entry is non-null, no non-null entry beats it, and it
      strictly beats every earlier non-null entry (ties go to the earliest). */
  predicate IsFirstBest(mode: Mode, tests: seq<Field>, r: int) {
    && 0 <= r < |tests|
    && !tests[r].Null?
    && (forall j :: 0 <= j < |tests| && !tests[j].Null? ==>
          !Beats(mode, ValueOf(mode, tests[j]), ValueOf(mode, tests[r])))
    && (forall j :: 0 <= j < r && !tests[j].Null? ==>
          Beats(mode, ValueOf(mode, tests[r]), ValueOf(mode, tests[j])))
  }

  /** The accumulator of the reduce: the best value so far (`None` for the
      initial NaN) and its index (initially −1). */
  datatype Acc = Acc(best: Option<Ext>, index: int)

  /** One step of the reduce over entry `curr` at index `i`. */
  function Step(mode: Mode, prev: Acc, curr: Field, i: int): Acc {
    var val := GetOrDefault(curr, DefaultFor(mode));
    if val != Null && (prev.best.None? || Beats(mode, val.v, prev.best.value)) then Acc(Some(val.v), i)
    else prev
  }

  lemma LessTransitive(a: Ext, b: Ext, c: Ext)
    requires Less(a, b) && Less(b, c)
    ensures Less(a, c)
  {
  }

  /** The left-to-right reduce, from `[NaN, -1]`, over the whole list. */
  function Reduce(mode: Mode, tests: seq<Field>): (acc: Acc)
    ensures acc.best.None? <==> acc.index == -1
    ensures acc.index == -1 <==> AllNull(tests)
    ensures acc.index != -1 ==>
      IsFirstBest(mode, tests, acc.index) && acc.best == Some(ValueOf(mode, tests[acc.index]))
    decreases |tests|
  {
    if |tests| == 0 then Acc(None, -1)
    else
      var n := |tests| - 1;
      var prev := Reduce(mode, tests[..n]);
      assert forall j :: 0 <= j < n ==> tests[..n][j] == tests[j];
      var next := Step(mode, prev, tests[n], n);
      assert next.index != -1 && next != prev ==> IsFirstBest(mode, tests, n) by {
        if next.index != -1 && next != prev && prev.index != -1 {
          var v := ValueOf(mode, tests[n]);
          forall j | 0 <= j < |tests| && !tests[j].Null?
            ensures Beats(mode, v, ValueOf(mode, tests[j])) || j == n
          {
            if j < n {
              var w := ValueOf(mode, tests[j]);
              var b := ValueOf(mode, tests[prev.index]);
              if mode == Min {
                assert !Less(w, b) && Less(v, b);
                assert w == b || Less(b, w);
                if w != b { LessTransitive(v, b, w); }
              } else {
                assert !Less(b, w) && Less(b, v);
                assert w == b || Less(w, b);
                if w != b { LessTransitive(w, b, v); }
              }
            }
          }
        }
      }
      next
  }

  /** The index picker of a `min`/`max` mediator: −1 exactly when every entry
      is `null` (or there are none); otherwise the earliest entry holding the
      best value. */
  function PickIndex(mode: Mode, tests: seq<Field>): (r: int)
    ensures r == -1 <==> AllNull(tests)
    ensures r != -1 ==> IsFirstBest(mode, tests, r)
  {
    Reduce(mode, tests).index
  }

  /** At most one index satisfies `IsFirstBest`, so the picker's contract
      determines its result. */
  lemma {:induction false} FirstBestUnique(mode: Mode, tests: seq<Field>, r: int, s: int)
    requires IsFirstBest(mode, tests, r) && IsFirstBest(mode, tests, s)
    ensures r == s
  {
  }

  /** An absent field compares as the mode's default: replacing every
      `undefined` by +∞ (min) or −∞ (max) leaves the picked index unchanged. */
  function FillDefaults(mode: Mode, tests: seq<Field>): (filled: seq<Field>)
    ensures |filled| == |tests|
    ensures forall j :: 0 <= j < |tests| ==> filled[j] == GetOrDefault(tests[j], DefaultFor(mode))
  {
    seq(|tests|, j requires 0 <= j < |tests| => GetOrDefault(tests[j], DefaultFor(mode)))
  }

  lemma {:induction false} UndefinedIsDefault(mode: Mode, tests: seq<Field>)
    ensures PickIndex(mode, tests) == PickIndex(mode, FillDefaults(mode, tests))
    ensures Reduce(mode, tests) == Reduce(mode, FillDefaults(mode, tests))
    decreases |tests|
  {
    if |tests| > 0 {
      var n := |tests| - 1;
      UndefinedIsDefault(mode, tests[..n]);
      assert FillDefaults(mode, tests)[..n] == FillDefaults(mode, tests[..n]);
    }
  }

  /** An absent field can be picked, but never when a finite value is
      present anywhere in the list. */
  lemma {:induction false} UndefinedLosesToFinite(mode: Mode, tests: seq<Field>, k: int)
    requires 0 <= k < |tests| && tests[k].Num? && tests[k].v.Fin?
    ensures PickIndex(mode, tests) != -1
    ensures tests[PickIndex(mode, tests)] != Undefined
  {
    assert !tests[k].Null?;
  }

  /** The mediator's configuration; `failMessage` is the bus's fail message
      that heads an aggregate failure. */
  datatype Config = Config(field: string, mode: Mode, ignoreFailures: bool, failMessage: string)

  /** The field each reply contributes to the comparison: a rejected reply
      contributes `null`. */
  function Fields<A>(config: Config, replies: seq<Reply<A, Record>>): (fields: seq<Field>)
    ensures |fields| == |replies|
    ensures forall i :: 0 <= i < |replies| && replies[i].reply.Fail? ==> fields[i] == Null
    ensures forall i :: 0 <= i < |replies| && replies[i].reply.Pass? ==>
      fields[i] == Lookup(replies[i].reply.value, config.field)
  {
    seq(|replies|, i requires 0 <= i < |replies| =>
      match replies[i].reply
      case Fail(_) => Null
      case Pass(rec) => Lookup(rec, config.field))
  }

  /** The replies with rejected ones replaced by the `null`-field dummy when
      failures are ignored, and unchanged otherwise. */
  function Wrapped<A>(config: Config, replies: seq<Reply<A, Record>>): (wrapped: seq<TestResult<Record>>)
    ensures |wrapped| == |replies|
    ensures forall i :: 0 <= i < |replies| && replies[i].reply.Pass? ==> wrapped[i] == replies[i].reply
    ensures !config.ignoreFailures ==> forall i :: 0 <= i < |replies| ==> wrapped[i] == replies[i].reply
    ensures config.ignoreFailures ==> forall i :: 0 <= i < |replies| ==> wrapped[i].Pass?
    ensures forall i :: 0 <= i < |replies| && replies[i].reply.Fail? && wrapped[i].Pass? ==>
      Lookup(wrapped[i].value, config.field) == Null
  {
    seq(|replies|, i requires 0 <= i < |replies| =>
      if config.ignoreFailures && replies[i].reply.IsFailed() then Pass(Dummy(config.field))
      else replies[i].reply)
  }

  /** `mediateWith`: substitute or keep the failures, unwrap every result,
      pick an index, and return the actor at that index or a failure built
      from the collected reasons. */
  function MediateWith<A>(config: Config, replies: seq<Reply<A, Record>>): (r: Result<TestResult<A>>)
    ensures config.ignoreFailures ==> r.Ok?
    ensures !config.ignoreFailures ==>
      (r.Error? <==> exists i :: 0 <= i < |replies| && replies[i].reply.Fail?)
    ensures r.Error? ==>
      exists i :: 0 <= i < |replies| && replies[i].reply == Fail(r.message)
        && forall j :: 0 <= j < i ==> replies[j].reply.Pass?
    ensures r.Ok? ==> (r.value.Fail? <==> AllNull(Fields(config, replies)))
    ensures r.Ok? && r.value.Fail? ==>
      r.value.message == ConstructFailureMessage(config.failMessage,
                                                 if config.ignoreFailures then FailMessages(replies) else [])
    ensures r.Ok? && r.value.Pass? ==>
      exists i :: 0 <= i < |replies| && IsFirstBest(config.mode, Fields(config, replies), i)
        && replies[i].reply.Pass? && r.value.value == replies[i].actor
  {
    var failures := if config.ignoreFailures then FailMessages(replies) else [];
    var wrapped := Wrapped(config, replies);
    match GetAllOrThrow(wrapped)
    case Error(m) => Error(m)
    case Ok(results) =>
      var fields := seq(|results|, i requires 0 <= i < |results| => Lookup(results[i], config.field));
      assert fields == Fields(config, replies);
      var index := PickIndex(config.mode, fields);
      if index < 0 then Ok(Fail(ConstructFailureMessage(config.failMessage, failures)))
      else Ok(Pass(replies[index].actor))
  }

  /** The code's route to the picker's input -- substitute the dummy, then
      unwrap every result -- succeeds exactly when failures are ignored or
      none occurred, and then yields the field values of `Fields`: a
      rejected reply reads as `null`, an accepted one as its field. */
  lemma {:induction false} PickerInput<A>(config: Config, replies: seq<Reply<A, Record>>)
    ensures GetAllOrThrow(Wrapped(config, replies)).Ok? <==>
      config.ignoreFailures || forall i :: 0 <= i < |replies| ==> replies[i].reply.Pass?
    ensures GetAllOrThrow(Wrapped(config, replies)).Ok? ==>
      forall i :: 0 <= i < |replies| ==>
        Lookup(GetAllOrThrow(Wrapped(config, replies)).value[i], config.field) == Fields(config, replies)[i]
  {
  }

  /** A full mediation round over a bus named `busName`: an empty bus fails
      with the no-actors message, and a successful round returns an
      accepted actor holding the earliest best field value. */
  function Mediate<A>(busName: string, config: Config, replies: seq<Reply<A, Record>>): (r: Result<A>)
    ensures |replies| == 0 ==> r == Error(NoActorsMessage(busName))
    ensures r.Ok? ==>
      exists i :: 0 <= i < |replies| && IsFirstBest(config.mode, Fields(config, replies), i)
        && replies[i].reply.Pass? && r.value == replies[i].actor
  {
    Mediators.Mediate(busName, replies, rs => MediateWith(config, rs))
  }

  /** With failures ignored, a rejected actor is never chosen, and a round
      fails only when no accepted value is non-null; the failure then lists
      every rejection reason in registration order. */
  lemma {:induction false} IgnoredFailuresNeverWin<A>(busName: string, config: Config, replies: seq<Reply<A, Record>>)
    requires config.ignoreFailures && |replies| > 0
    ensures var r := Mediate(busName, config, replies);
      && (r.Ok? ==> exists i :: 0 <= i < |replies| && replies[i].reply.Pass? && r.value == replies[i].actor)
      && (r.Error? <==> forall i :: 0 <= i < |replies| && replies[i].reply.Pass? ==>
                          Lookup(replies[i].reply.value, config.field).Null?)
      && (r.Error? ==> r.message == ConstructFailureMessage(config.failMessage, FailMessages(replies)))
  {
    var fields := Fields(config, replies);
    var r := Mediate(busName, config, replies);
    if r.Error? {
      assert AllNull(fields);
    } else {
      var i :| 0 <= i < |replies| && IsFirstBest(config.mode, fields, i) && replies[i].reply.Pass? && r.value == replies[i].actor;
      assert !Lookup(replies[i].reply.value, config.field).Null?;
    }
  }

  /** Without ignoring failures, a single rejection fails the whole round
      with the earliest rejection's reason, whatever the other replies say. */
  lemma {:induction false} AnyFailureAborts<A>(busName: string, config: Config, replies: seq<Reply<A, Record>>, k: int)
    requires !config.ignoreFailures
    requires 0 <= k < |replies| && replies[k].reply.Fail?
    requires forall j :: 0 <= j < k ==> replies[j].reply.Pass?
    ensures Mediate(busName, config, replies) == Error(replies[k].reply.message)
  {
    var r := MediateWith(config, replies);
    assert r.Error?;
    var i :| 0 <= i < |replies| && replies[i].reply == Fail(r.message)
        && forall j :: 0 <= j < i ==> replies[j].reply.Pass?;
    assert i == k;
  }
}
