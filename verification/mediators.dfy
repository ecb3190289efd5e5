/**
 The part of a mediation round that every selection strategy shares: the
 replies a bus publishes, the "no actors" failure, the aggregate failure
 message for rejected actors, and the unwrapping of a strategy's outcome.
 */
module Mediators {
  import opened Results

  /** One entry of a bus round, in registration order: the actor and the
      (already resolved) result of its `test`. */
  datatype Reply<A, T> = Reply(actor: A, reply: TestResult<T>)

  const FailingActorsHeader: string := "    Error messages of failing actors:"
  const ReasonIndent: string := "        "

  /** The failure of a round on a bus with no registered actors. */
  function NoActorsMessage(busName: string): (m: string)
    ensures |m| > |busName| && m[|m| - |busName|..] == busName
  {
    "No actors are able to reply to a message in the bus " + busName
  }

  /** One line per reason, each on a new line and indented, in list order. */
  function ReasonLines(reasons: seq<string>): string
    decreases |reasons|
  {
    if |reasons| == 0 then ""
    else ReasonLines(reasons[..|reasons| - 1]) + "\n" + ReasonIndent + reasons[|reasons| - 1]
  }

  /** The message of a round in which no actor could be chosen: the bus's
      fail message, the header line, then the collected reasons. */
  function ConstructFailureMessage(failMessage: string, reasons: seq<string>): (m: string)
    ensures |m| >= |failMessage| + 1 + |FailingActorsHeader|
    ensures m[..|failMessage| + 1 + |FailingActorsHeader|] == failMessage + "\n" + FailingActorsHeader
  {
    failMessage + "\n" + FailingActorsHeader + ReasonLines(reasons)
  }

  /** The rejection reasons of the rejected replies, in registration order. */
  function FailMessages<A, T>(replies: seq<Reply<A, T>>): seq<string>
    decreases |replies|
  {
    if |replies| == 0 then []
    else
      var last := replies[|replies| - 1];
      FailMessages(replies[..|replies| - 1]) + (if last.reply.IsFailed() then [last.reply.message] else [])
  }

  /** The reasons are listed in order: the lines of a concatenation are the
      lines of its parts, and a single reason is one indented line. */
  lemma {:induction false} ReasonLinesAppend(a: seq<string>, b: seq<string>)
    ensures ReasonLines(a + b) == ReasonLines(a) + ReasonLines(b)
    ensures ReasonLines([]) == ""
    decreases |b|
  {
    if |b| == 0 {
      assert a + b == a;
    } else {
      var b' := b[..|b| - 1];
      assert (a + b)[..|a + b| - 1] == a + b';
      assert (a + b)[|a + b| - 1] == b[|b| - 1];
      ReasonLinesAppend(a, b');
      assert b'[..|b'|] == b';
    }
  }

  /** Without reasons the message is the fail message and the header line;
      each further reason appends one indented line. */
  lemma {:induction false} ConstructFailureMessageSnoc(failMessage: string, reasons: seq<string>, r: string)
    ensures ConstructFailureMessage(failMessage, []) == failMessage + "\n" + FailingActorsHeader
    ensures ConstructFailureMessage(failMessage, reasons + [r])
         == ConstructFailureMessage(failMessage, reasons) + "\n" + ReasonIndent + r
  {
    var head := failMessage + "\n" + FailingActorsHeader;
    assert head + "" == head;
    assert (reasons + [r])[..|reasons|] == reasons;
    var lines := ReasonLines(reasons);
    assert ReasonLines(reasons + [r]) == lines + "\n" + ReasonIndent + r;
    assert head + (lines + "\n" + ReasonIndent + r) == head + lines + "\n" + ReasonIndent + r;
  }

  /** Collecting reasons commutes with concatenation, and a single reply
      contributes its reason exactly when it is rejected: so the reasons
      appear once each, in registration order. */
  lemma {:induction false} FailMessagesAppend<A, T>(a: seq<Reply<A, T>>, b: seq<Reply<A, T>>)
    ensures FailMessages(a + b) == FailMessages(a) + FailMessages(b)
    decreases |b|
  {
    if |b| == 0 {
      assert a + b == a;
    } else {
      var b' := b[..|b| - 1];
      assert (a + b)[..|a + b| - 1] == a + b';
      assert (a + b)[|a + b| - 1] == b[|b| - 1];
      FailMessagesAppend(a, b');
    }
  }

  /** `FailMessages` of a one-element round. */
  lemma FailMessagesSingle<A, T>(r: Reply<A, T>)
    ensures r.reply.Fail? ==> FailMessages([r]) == [r.reply.message]
    ensures r.reply.Pass? ==> FailMessages([r]) == []
  {
    assert [r][..0] == [];
  }

  /** When every reply is rejected, every reason is collected. */
  lemma {:induction false} FailMessagesAllRejected<A, T>(replies: seq<Reply<A, T>>)
    requires forall i :: 0 <= i < |replies| ==> replies[i].reply.Fail?
    ensures |FailMessages(replies)| == |replies|
    ensures forall i :: 0 <= i < |replies| ==> FailMessages(replies)[i] == replies[i].reply.message
    decreases |replies|
  {
    if |replies| > 0 {
      FailMessagesAllRejected(replies[..|replies| - 1]);
    }
  }

  /** The base mediator's `mediate`: a round with no replies fails with the
      "no actors" message; otherwise the strategy's outcome decides, a
      rejected outcome becoming an error with its reason. */
  function Mediate<A, T>(busName: string, replies: seq<Reply<A, T>>,
                         mediateWith: seq<Reply<A, T>> -> Result<TestResult<A>>): (r: Result<A>)
    ensures r.Ok? ==> |replies| > 0 && mediateWith(replies) == Ok(Pass(r.value))
    ensures |replies| > 0 && mediateWith(replies).Ok? && mediateWith(replies).value.Pass? ==> r.Ok?
    ensures r.Error? ==>
      || (|replies| == 0 && r.message == NoActorsMessage(busName))
      || (|replies| > 0 && (mediateWith(replies) == Error(r.message) || mediateWith(replies) == Ok(Fail(r.message))))
  {
    if |replies| == 0 then Error(NoActorsMessage(busName))
    else
      match mediateWith(replies)
      case Error(m) => Error(m)
      case Ok(Fail(m)) => Error(m)
      case Ok(Pass(a)) => Ok(a)
  }
}
