/** The crash-safe placement sequence over one journal handle and one broker. */
module Placement {
  import opened Wrappers
  import opened Journal
  import opened Ledgers
  import opened Transport
  import opened Errors

  datatype Reply = Answer(rejected: bool, message: string, exchangeOrderID: string) | Failure(err: CallError)

  ghost predicate SendJournaled(log: seq<Record>, key: string) {
    exists i :: 0 <= i < |log| && log[i].stage.SendStarted? && log[i].orderID == key
  }

  // The broker side of one account. Place stands for any number of wire attempts of one
  // request: each may or may not be accepted, and any events and reply may come back.
  class Broker {
    var holds: set<string>

    method Place(key: string, ghost log: seq<Record>) returns (info: CallInfo, reply: Reply)
      requires SendJournaled(log, key)
      modifies this
      ensures holds == old(holds) || holds == old(holds) + {key}
      ensures info.Valid() && fresh(info)
    {
      info := new CallInfo();
      var events: nat := *;
      while events > 0
        invariant info.Valid() && fresh(info)
        invariant holds == old(holds) || holds == old(holds) + {key}
      {
        var e: Event := *;
        info.HandleRPC(e);
        if * {
          holds := holds + {key};
        }
        events := events - 1;
      }
      reply := *;
    }
  }

  // What the caller sees, and what it was told to do next.
  datatype Outcome = LedgerError
                   | Unknown(err: CLIError, reconcileKey: string)
                   | Failed(err: CLIError)
                   | RejectedByBroker(message: string)
                   | Placed(exchangeOrderID: string)

  datatype Faults = Faults(begin: Fault, started: Fault, closing: Fault)

  // The months in which the three stages are written; a placement may cross from one to
  // the next.
  datatype Months = Months(begin: nat, started: nat, closing: nat) {
    predicate Forward() { begin <= started <= closing }
  }

  // One broker call as it went: the reply and every wire event of every attempt.
  datatype Call = Call(reply: Reply, trace: seq<Event>)

  // The call may have reached the broker and nothing definitive is known about it.
  ghost predicate Unanswered(c: Call) {
    && c.reply.Failure?
    && ((EverSent(c.trace) && !FinalConfirmed(c.trace)) || DuplicateWithoutReport(c.reply.err))
  }

  // That is: a failure after a payload went out and no trailer or error-free end came back in
  // the last attempt, or one by which the broker knows the key and cannot show its order.
  lemma UnansweredExactly(c: Call)
    ensures Unanswered(c) <==>
            && c.reply.Failure?
            && ((OutPayload in c.trace
                 && forall i :: 0 <= i < |c.trace| && (c.trace[i].InTrailer? || c.trace[i] == End(true)) ==>
                      exists j :: i < j < |c.trace| && c.trace[j] == Begin)
                || (c.reply.err.status.Some? && c.reply.err.status.value.message == "30057"))
  {
    PhaseExactly(c.trace);
    if OutPayload in c.trace {
      var i :| 0 <= i < |c.trace| && c.trace[i] == OutPayload;
      assert c.trace[i].OutPayload?;
    }
  }

  function RejectMessage(message: string): string {
    if message != "" then message else "order rejected by broker"
  }

  // Up to its seq, the record a stage of this intent writes.
  predicate Writes(r: Record, intent: Intent, stage: Stage) {
    && r.stage == stage && r.intentID == intent.intentID && r.kind == intent.kind
    && r.accountID == intent.accountID && r.profile == intent.profile && r.payload == intent.payload
    && r.attempt == intent.attempt
    && (!stage.BrokerConfirmed? ==> r.orderID == intent.orderID)
  }

  // Beyond that, the closing record of an order says how the call ended: the broker's order
  // id and the tracking id of the last attempt, or why there is no order.
  ghost predicate Concludes(r: Record, intent: Intent, call: Call) {
    && r.stopOrderID == intent.stopOrderID && r.exchangeOrderID == "" && r.exitCode.None?
    && match call.reply
       case Answer(false, _, id) =>
         && r.stage.BrokerConfirmed? && r.error == ""
         && r.orderID == (if id == "" then intent.orderID else id) && FinalTracking(call.trace, r.trackingID)
       case Answer(true, message, _) =>
         && r.stage.BrokerRejected? && r.orderID == intent.orderID && r.trackingID == ""
         && r.error == (if message == "" then "order rejected by broker" else message)
       case Failure(err) =>
         r.stage.BrokerRejected? && r.orderID == intent.orderID && r.trackingID == "" && r.error == err.text
  }

  // The closing record of a stop order, whose answer carries its own id.
  ghost predicate ConcludesStop(r: Record, intent: Intent, call: Call) {
    && r.orderID == intent.orderID && r.exchangeOrderID == "" && r.exitCode.None?
    && match call.reply
       case Answer(_, _, id) =>
         && r.stage.BrokerConfirmed? && r.error == ""
         && r.stopOrderID == (if id == "" then intent.stopOrderID else id) && FinalTracking(call.trace, r.trackingID)
       case Failure(err) =>
         r.stage.BrokerRejected? && r.stopOrderID == intent.stopOrderID && r.trackingID == "" && r.error == err.text
  }

  // What the caller is told of the call: the classified failure with what the wire showed
  // of its last attempt.
  ghost predicate Explains(err: CLIError, call: Call) {
    && call.reply.Failure?
    && exists cc: CallContext :: Observes(cc, call.trace) && err == Classify(call.reply.err, cc)
  }

  ghost predicate Observes(cc: CallContext, trace: seq<Event>) {
    && cc.mutation && cc.phase == PhaseOf(trace) && FinalTracking(trace, cc.trackingID)
    && LastCapture(trace, Message, "", cc.apiMessage) && LastCapture(trace, Reset, 0, cc.retryAfter)
  }

  // The broker's answer as the caller sees it.
  ghost predicate Relays(out: Outcome, call: Call) {
    match out
    case LedgerError => false
    case Unknown(err, _) => Explains(err, call)
    case Failed(err) => Explains(err, call)
    case RejectedByBroker(message) =>
      && call.reply.Answer? && call.reply.rejected
      && message == (if call.reply.message == "" then "order rejected by broker" else call.reply.message)
    case Placed(id) => call.reply.Answer? && !call.reply.rejected && id == call.reply.exchangeOrderID
  }

  // Journals Begin and SendStarted before the send and the outcome after it. A call whose
  // outcome cannot be confirmed writes nothing more, so its intent stays reported; so does
  // any placement that wrote a record and then stopped short of its closing record.
  method PlaceExec(led: Ledger, broker: Broker, intent: Intent, months: Months, faults: Faults)
    returns (out: Outcome, ghost call: Option<Call>, ghost records: seq<Record>)
    requires led.Valid() && led.AtLatestMonth(months.begin) && months.Forward()
    modifies led, broker
    ensures led.Valid() && led.AtLatestMonth(months.closing)
    ensures led.Log() == old(led.Log()) + records && |records| <= 3
    ensures |records| >= 1 ==> Writes(records[0], intent, IntentCreated)
    ensures |records| >= 2 ==> Writes(records[1], intent, SendStarted)
    ensures |records| == 3 ==>
              !out.Unknown? && Writes(records[2], intent, if out.Placed? then BrokerConfirmed else Stage.BrokerRejected)
    ensures call.Some? <==> intent.intentID != "" && faults.begin.Healthy? && faults.started.Healthy?
    ensures call.Some? <==> !out.LedgerError?
    ensures call.None? ==> broker.holds == old(broker.holds) && |records| <= 2
    ensures call.Some? ==>
              && |records| == (if out.Unknown? || faults.closing.Lost() then 2 else 3)
              && (out.Unknown? <==> Unanswered(call.value))
              && (out.Placed? <==> call.value.reply.Answer? && !call.value.reply.rejected)
              && (out.Failed? <==> call.value.reply.Failure? && !Unanswered(call.value))
    ensures |records| == 3 ==> call.Some? && Concludes(records[2], intent, call.value)
    ensures call.Some? ==> Relays(out, call.value)
    ensures out.Unknown? ==> out.reconcileKey == intent.orderID && ExitCode(out.err.code) == 7
    ensures broker.holds == old(broker.holds) || broker.holds == old(broker.holds) + {intent.orderID}
    ensures 1 <= |records| <= 2 ==> Reported(led.Log(), intent.intentID)
    ensures |records| == 3 && !Mentioned(old(led.Log()), intent.intentID) ==> !Reported(led.Log(), intent.intentID)
  {
    ghost var before := led.Log();
    call := None;
    var entry;
    entry, records := Prepare(led, intent, months, faults);
    TailReported(before, records, intent.intentID);
    if entry == null {
      return LedgerError, call, records;
    }
    assert led.Log()[|before| + 1] == records[1];
    var info, reply := broker.Place(intent.orderID, led.Log());
    call := Some(Call(reply, info.trace));
    var cc := CallContext(info.CurrentPhase(), info.trackingID, info.retryAfter, info.apiMessage, true);
    ghost var sent := records;
    out, records := Settle(led, entry, reply, cc, info.trace, months.closing, faults.closing, before, sent);
    ClosedIsNotReported(before, records, intent.intentID);
  }

  // Both stages are durable before an entry is handed on to the send.
  method Prepare(led: Ledger, intent: Intent, months: Months, faults: Faults)
    returns (entry: Entry?, ghost records: seq<Record>)
    requires led.Valid() && led.AtLatestMonth(months.begin) && months.Forward()
    modifies led
    ensures led.Valid() && led.AtLatestMonth(months.started)
    ensures led.Log() == old(led.Log()) + records && |records| <= 2
    ensures |records| >= 1 ==> Writes(records[0], intent, IntentCreated)
    ensures |records| >= 2 ==> Writes(records[1], intent, SendStarted)
    ensures entry != null <==> intent.intentID != "" && faults.begin.Healthy? && faults.started.Healthy?
    ensures entry != null ==>
              && |records| == 2 && fresh(entry) && entry.led == led
              && entry.intent == intent && entry.orderID == intent.orderID && entry.stopOrderID == intent.stopOrderID
              && entry.exchangeOrderID == "" && entry.trackingID == ""
    ensures |records| >= 1 ==> records[0].stopOrderID == intent.stopOrderID
    ensures |records| >= 2 ==> records[1].stopOrderID == intent.stopOrderID
  {
    records := [];
    ghost var before := led.Log();
    var created;
    entry, created := Ledgers.Begin(led, intent, months.begin, faults.begin);
    if intent.intentID != "" && !faults.begin.Lost() {
      records := [created];
    }
    assert led.Log() == before + records;
    if entry == null {
      return null, records;
    }
    var ok, started := entry.Write(SendStarted, NO_RESULT, months.started, faults.started);
    if !faults.started.Lost() {
      assert before + [created] + [started] == before + [created, started];
      records := [created, started];
    }
    if !ok {
      return null, records;
    }
  }

  // Journals what the call's outcome allows to be journaled.
  method Settle(led: Ledger, entry: Entry, reply: Reply, cc: CallContext, ghost trace: seq<Event>,
                now: nat, fault: Fault, ghost before: seq<Record>, ghost sent: seq<Record>)
    returns (out: Outcome, ghost records: seq<Record>)
    requires led.Valid() && led.AtLatestMonth(now) && entry.led == led
    requires led.Log() == before + sent && entry.orderID == entry.intent.orderID
    requires Observes(cc, trace)
    requires entry.stopOrderID == entry.intent.stopOrderID && entry.exchangeOrderID == "" && entry.trackingID == ""
    modifies led, entry
    ensures led.Valid() && led.AtLatestMonth(now)
    ensures led.Log() == before + records && !out.LedgerError?
    ensures out.Unknown? || fault.Lost() ==> records == sent
    ensures !out.Unknown? && !fault.Lost() ==>
              && |records| == |sent| + 1 && records[..|sent|] == sent
              && Writes(records[|sent|], entry.intent, if out.Placed? then BrokerConfirmed else Stage.BrokerRejected)
              && Concludes(records[|sent|], entry.intent, Call(reply, trace))
    ensures Relays(out, Call(reply, trace))
    ensures out.Unknown? <==> Unanswered(Call(reply, trace))
    ensures out.Placed? <==> reply.Answer? && !reply.rejected
    ensures out.Failed? <==> reply.Failure? && !Unanswered(Call(reply, trace))
    ensures out.Unknown? ==> out.reconcileKey == entry.intent.orderID && ExitCode(out.err.code) == 7
  {
    match reply {
      case Failure(err) =>
        var cerr := Classify(err, cc);
        UnconfirmedExactly(err, cc);
        if cerr.code.Unconfirmed? {
          return Unknown(cerr, entry.intent.orderID), sent;
        }
        records := CloseOut(led, entry, Stage.BrokerRejected, NO_RESULT.(error := err.text), now, fault, before, sent);
        out := Failed(cerr);
      case Answer(rejected, message, exchangeOrderID) =>
        if rejected {
          var res := NO_RESULT.(error := RejectMessage(message));
          records := CloseOut(led, entry, Stage.BrokerRejected, res, now, fault, before, sent);
          out := RejectedByBroker(RejectMessage(message));
        } else {
          var res := NO_RESULT.(orderID := exchangeOrderID, trackingID := cc.trackingID);
          records := CloseOut(led, entry, BrokerConfirmed, res, now, fault, before, sent);
          out := Placed(exchangeOrderID);
        }
    }
  }

  // Writes the closing stage; a failed write is only warned about.
  method CloseOut(led: Ledger, entry: Entry, stage: Stage, res: Result, now: nat, fault: Fault,
                  ghost before: seq<Record>, ghost records: seq<Record>)
    returns (ghost after: seq<Record>)
    requires led.Valid() && led.AtLatestMonth(now) && entry.led == led
    requires led.Log() == before + records
    requires stage.BrokerConfirmed? || (entry.orderID == entry.intent.orderID && res.orderID == "")
    modifies entry, led
    ensures led.Valid() && led.AtLatestMonth(now)
    ensures led.Log() == before + after
    ensures fault.Lost() ==> after == records
    ensures !fault.Lost() ==>
              && |after| == |records| + 1 && after[..|records|] == records
              && Writes(after[|records|], entry.intent, stage)
              && after[|records|] == old(entry.Next(stage, res)).(seqNo := after[|records|].seqNo)
  {
    var ok, closing := entry.Write(stage, res, now, fault);
    after := if fault.Lost() then records else records + [closing];
    assert before + records + [closing] == before + (records + [closing]);
  }

  // ---- stop orders ----

  datatype StopOutcome = StopLedgerError
                       | StopUnknown(err: CLIError, reconcileKey: string)
                       | StopFailed(err: CLIError)
                       | StopPlaced(stopOrderID: string)

  // The same sequence for a stop order, whose answer carries nothing but the id the broker
  // gave it. That id enters the journal with the confirmed record, and only there.
  method PlaceStopExec(led: Ledger, broker: Broker, intent: Intent, months: Months, faults: Faults)
    returns (out: StopOutcome, ghost call: Option<Call>, ghost records: seq<Record>)
    requires led.Valid() && led.AtLatestMonth(months.begin) && months.Forward()
    modifies led, broker
    ensures led.Valid() && led.AtLatestMonth(months.closing)
    ensures led.Log() == old(led.Log()) + records && |records| <= 3
    ensures |records| >= 1 ==> Writes(records[0], intent, IntentCreated)
    ensures |records| >= 2 ==> Writes(records[1], intent, SendStarted)
    ensures |records| == 3 ==>
              && !out.StopUnknown? && !out.StopLedgerError?
              && Writes(records[2], intent, if out.StopPlaced? then BrokerConfirmed else Stage.BrokerRejected)
    ensures |records| >= 1 ==> records[0].stopOrderID == intent.stopOrderID
    ensures |records| >= 2 ==> records[1].stopOrderID == intent.stopOrderID
    ensures |records| == 3 ==> call.Some? && ConcludesStop(records[2], intent, call.value)
    ensures out.StopPlaced? ==>
              call.Some? && call.value.reply.Answer? && out.stopOrderID == call.value.reply.exchangeOrderID
    ensures out.StopUnknown? || out.StopFailed? ==> call.Some? && Explains(out.err, call.value)
    ensures call.Some? <==> intent.intentID != "" && faults.begin.Healthy? && faults.started.Healthy?
    ensures call.None? ==> out.StopLedgerError? && broker.holds == old(broker.holds)
    ensures call.Some? ==>
              && |records| == (if out.StopUnknown? || faults.closing.Lost() then 2 else 3)
              && (out.StopUnknown? <==> Unanswered(call.value))
              && (out.StopPlaced? <==> call.value.reply.Answer?)
              && (out.StopFailed? <==> call.value.reply.Failure? && !Unanswered(call.value))
    ensures out.StopUnknown? ==> out.reconcileKey == intent.orderID && ExitCode(out.err.code) == 7
    ensures 1 <= |records| <= 2 ==> Reported(led.Log(), intent.intentID)
    ensures |records| == 3 && !Mentioned(old(led.Log()), intent.intentID) ==> !Reported(led.Log(), intent.intentID)
  {
    ghost var before := led.Log();
    call := None;
    var entry;
    entry, records := Prepare(led, intent, months, faults);
    TailReported(before, records, intent.intentID);
    if entry == null {
      return StopLedgerError, call, records;
    }
    assert led.Log()[|before| + 1] == records[1];
    var info, reply := broker.Place(intent.orderID, led.Log());
    call := Some(Call(reply, info.trace));
    var cc := CallContext(info.CurrentPhase(), info.trackingID, info.retryAfter, info.apiMessage, true);
    ghost var sent := records;
    out, records := SettleStop(led, entry, reply, cc, info.trace, months.closing, faults.closing, before, sent);
    ClosedIsNotReported(before, records, intent.intentID);
  }

  method SettleStop(led: Ledger, entry: Entry, reply: Reply, cc: CallContext, ghost trace: seq<Event>,
                    now: nat, fault: Fault, ghost before: seq<Record>, ghost sent: seq<Record>)
    returns (out: StopOutcome, ghost records: seq<Record>)
    requires led.Valid() && led.AtLatestMonth(now) && entry.led == led
    requires led.Log() == before + sent && entry.orderID == entry.intent.orderID
    requires Observes(cc, trace)
    requires entry.stopOrderID == entry.intent.stopOrderID && entry.exchangeOrderID == "" && entry.trackingID == ""
    modifies led, entry
    ensures led.Valid() && led.AtLatestMonth(now)
    ensures led.Log() == before + records && !out.StopLedgerError?
    ensures out.StopUnknown? || fault.Lost() ==> records == sent
    ensures !out.StopUnknown? && !fault.Lost() ==>
              && |records| == |sent| + 1 && records[..|sent|] == sent
              && Writes(records[|sent|], entry.intent,
                        if out.StopPlaced? then BrokerConfirmed else Stage.BrokerRejected)
              && ConcludesStop(records[|sent|], entry.intent, Call(reply, trace))
    ensures out.StopPlaced? ==> reply.Answer? && out.stopOrderID == reply.exchangeOrderID
    ensures out.StopUnknown? || out.StopFailed? ==> Explains(out.err, Call(reply, trace))
    ensures out.StopUnknown? <==> Unanswered(Call(reply, trace))
    ensures out.StopPlaced? <==> reply.Answer?
    ensures out.StopFailed? <==> reply.Failure? && !Unanswered(Call(reply, trace))
    ensures out.StopUnknown? ==> out.reconcileKey == entry.intent.orderID && ExitCode(out.err.code) == 7
  {
    match reply {
      case Failure(err) =>
        var cerr := Classify(err, cc);
        UnconfirmedExactly(err, cc);
        if cerr.code.Unconfirmed? {
          return StopUnknown(cerr, entry.intent.orderID), sent;
        }
        records := CloseOut(led, entry, Stage.BrokerRejected, NO_RESULT.(error := err.text), now, fault, before, sent);
        out := StopFailed(cerr);
      case Answer(_, _, id) =>
        var res := NO_RESULT.(stopOrderID := id, trackingID := cc.trackingID);
        records := CloseOut(led, entry, BrokerConfirmed, res, now, fault, before, sent);
        out := StopPlaced(id);
    }
  }

  // A placement that wrote its closing record leaves its id off the list, if the id is new.
  lemma ClosedIsNotReported(before: seq<Record>, records: seq<Record>, id: string)
    requires |records| == 3 ==>
               && records[0].stage.IntentCreated? && records[1].stage.SendStarted?
               && (records[2].stage.BrokerConfirmed? || records[2].stage.BrokerRejected?)
               && records[0].intentID == records[1].intentID == records[2].intentID == id
    ensures |records| == 3 && !Mentioned(before, id) ==> !Reported(before + records, id)
  {
    if |records| == 3 && !Mentioned(before, id) {
      CountsWhenAbsent(before, id);
      var log, l2, l1 := before + records, before + records[..2], before + records[..1];
      assert log[..|log|-1] == l2 && l2[..|l2|-1] == l1 && l1[..|l1|-1] == before;
      assert Opens(l1, id) == 1 && Closes(l1, id) == 0;
      assert Opens(l2, id) == 1 && Closes(l2, id) == 0;
      assert Opens(log, id) == 1 && Closes(log, id) == 1;
      assert IsLast(log, id, |log| - 1);
    }
  }

  // A log that ends in an unresolved stage of an id reports the id.
  lemma TailReported(before: seq<Record>, records: seq<Record>, id: string)
    ensures records != [] && records[|records|-1].intentID == id && !Closing(records[|records|-1].stage) ==>
              Reported(before + records, id)
  {
    if records != [] && records[|records|-1].intentID == id && !Closing(records[|records|-1].stage) {
      assert IsLast(before + records, id, |before| + |records| - 1);
    }
  }
}
