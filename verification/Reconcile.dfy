/** Resolving unconfirmed regular-order intents against the broker. */
module Reconciling {
  import opened Wrappers
  import opened Journal
  import opened Ledgers
  import opened Lifecycles
  import Protocol

  datatype OrderState = OrderState(orderID: string, requestID: string, lifecycle: string)

  datatype GetReply = Found(state: OrderState) | NotFound | GetFailed(message: string)
  datatype ListReply = Listed(orders: seq<OrderState>) | ListFailed(message: string)

  // Everything the broker and the clock answer while one entry is reconciled. The
  // second lookup comes after the delay, which a cancelled context turns into a failure.
  // checkDay is the UTC day at the created-today check; tracking is the tracking id of
  // the call whose answer decided the entry.
  datatype Talk = Talk(first: GetReply, second: GetReply, list: ListReply, checkDay: int,
                       tracking: string, fault: Fault)

  datatype Verdict = Foreign | ProfileMismatch | Indeterminate | LookupError
                   | StillUnresolved | NotPlaced | PlacedOrder | Ambiguous

  datatype View = View(intentID: string, verdict: Verdict, orderID: string, lifecycle: string, writeFailed: bool)

  datatype Target = Target(profile: string, endpoint: string)

  // Profile or endpoint recorded with the entry differ from the active ones.
  function TargetMismatch(profile: string, payload: Payload, target: Target): Option<Verdict> {
    if profile != target.profile then Some(ProfileMismatch)
    else if payload.endpoint.None? then Some(Indeterminate)
    else if payload.endpoint.value == "" then Some(Indeterminate)
    else if payload.endpoint.value != target.endpoint then Some(ProfileMismatch)
    else None
  }

  // The first listed order whose non-empty request id is the given key.
  method FindOrderByRequestID(list: seq<OrderState>, key: string) returns (r: Option<OrderState>)
    ensures r.Some? ==> exists i :: IsFirstMatch(list, key, i) && r.value == list[i]
    ensures r.None? <==> !Mentions(list, key)
    ensures r == FirstMatch(list, key)
  {
    for i := 0 to |list|
      invariant forall j :: 0 <= j < i ==> list[j].requestID == "" || list[j].requestID != key
      invariant FirstMatch(list, key) == FirstMatch(list[i..], key)
    {
      if list[i].requestID != "" && list[i].requestID == key {
        assert IsFirstMatch(list, key, i);
        return Some(list[i]);
      }
      assert list[i..][1..] == list[i+1..];
    }
    r := None;
  }

  ghost predicate IsFirstMatch(list: seq<OrderState>, key: string, i: int) {
    && 0 <= i < |list| && list[i].requestID == key != ""
    && forall j :: 0 <= j < i ==> list[j].requestID != key
  }

  ghost predicate Mentions(list: seq<OrderState>, key: string) {
    key != "" && exists i :: 0 <= i < |list| && list[i].requestID == key
  }

  function FirstMatch(list: seq<OrderState>, key: string): Option<OrderState> {
    if list == [] then None
    else if list[0].requestID != "" && list[0].requestID == key then Some(list[0])
    else FirstMatch(list[1..], key)
  }

  lemma FirstMatchMentions(list: seq<OrderState>, key: string)
    ensures FirstMatch(list, key).Some? <==> Mentions(list, key)
    ensures FirstMatch(list, key).Some? ==>
              FirstMatch(list, key).value in list && FirstMatch(list, key).value.requestID == key
  {
    if list != [] {
      FirstMatchMentions(list[1..], key);
      if Mentions(list, key) && list[0].requestID != key {
        var i :| 0 <= i < |list| && list[i].requestID == key;
        assert list[1..][i - 1].requestID == key;
      }
    }
  }

  // A stamp that falls on the given UTC day; a missing or unparsable one never does.
  predicate CreatedOn(s: Stamp, day: int) {
    s.At? && Protocol.DayOf(s.t) == day
  }

  // ---- the decision for one entry, as a function of what was answered ----

  // The verdict, and the result to journal when the entry is closed.
  datatype Decision = Decision(verdict: Verdict, close: Option<Result>, orderID: string, lifecycle: string)

  const NOT_PLACED_BEFORE_SEND := "not-placed-before-send"
  const NOT_PLACED := "not-placed"

  function Leave(v: Verdict): Decision {
    Decision(v, None, "", "")
  }

  function ClosePlaced(o: OrderState, tracking: string): Decision {
    Decision(PlacedOrder, Some(Result(o.orderID, "", "", tracking, None, "")), o.orderID, o.lifecycle)
  }

  function CloseNotPlaced(reason: string): Decision {
    Decision(NotPlaced, Some(Result("", "", "", "", None, reason)), "", "")
  }

  function DecideByList(doc: OrderDoc, key: string, talk: Talk): Decision {
    match talk.list
    case ListFailed(_) => Leave(Indeterminate)
    case Listed(orders) =>
      var m := FirstMatch(orders, key);
      if m.Some? then ClosePlaced(m.value, talk.tracking)
      else if !doc.async && CreatedOn(doc.createdAt, talk.checkDay) then CloseNotPlaced(NOT_PLACED)
      else Leave(StillUnresolved)
  }

  function Decide(e: Record, target: Target, talk: Talk): Decision {
    if e.kind != ORDER_PLACE && e.kind != ORDER_REPLACE then Leave(Foreign)
    else if TargetMismatch(e.profile, e.payload, target).Some? then
      Leave(TargetMismatch(e.profile, e.payload, target).value)
    else if e.stage.IntentCreated? then CloseNotPlaced(NOT_PLACED_BEFORE_SEND)
    else if e.orderID == "" || e.accountID == "" then Leave(Indeterminate)
    else if e.payload.order.None? then Leave(Indeterminate)
    else
      match talk.first
      case Found(o) => ClosePlaced(o, talk.tracking)
      case GetFailed(_) => Leave(LookupError)
      case NotFound =>
        if e.payload.order.value.async then DecideByList(e.payload.order.value, e.orderID, talk)
        else
          match talk.second
          case Found(o) => ClosePlaced(o, talk.tracking)
          case GetFailed(_) => Leave(Indeterminate)
          case NotFound => DecideByList(e.payload.order.value, e.orderID, talk)
  }

  // What the caller is shown for an entry.
  function Shown(e: Record, target: Target, talk: Talk): View {
    var d := Decide(e, target, talk);
    View(e.intentID, d.verdict, d.orderID, d.lifecycle, d.close.Some? && !talk.fault.Healthy?)
  }

  // ---- what an entry comes to, in terms of the entry and of what was answered ----

  // A regular-order entry of the active profile and endpoint.
  predicate Ours(e: Record, target: Target) {
    (e.kind == "order.place" || e.kind == "order.replace") && OfTarget(e, target)
  }

  predicate OfTarget(e: Record, target: Target) {
    e.profile == target.profile && target.endpoint != "" && e.payload.endpoint == Some(target.endpoint)
  }

  // It may have been sent, and there is what to look it up by.
  predicate Traceable(e: Record, target: Target) {
    Ours(e, target) && !e.stage.IntentCreated? && e.orderID != "" && e.accountID != "" && e.payload.order.Some?
  }

  // The lookups that apply have missed: both of them, or for an asynchronous order the only one.
  predicate Missed(e: Record, talk: Talk)
    requires e.payload.order.Some?
  {
    talk.first.NotFound? && (e.payload.order.value.async || talk.second.NotFound?)
  }

  // o is the order the broker returned for the entry: by a lookup, or as the first on the
  // day list that carries the entry's key.
  ghost predicate Returned(e: Record, talk: Talk, o: OrderState)
    requires e.payload.order.Some?
  {
    || talk.first == Found(o)
    || (talk.first.NotFound? && !e.payload.order.value.async && talk.second == Found(o))
    || (Missed(e, talk) && talk.list.Listed? && exists i :: IsFirstMatch(talk.list.orders, e.orderID, i)
                                                            && o == talk.list.orders[i])
  }

  lemma FirstMatchAt(list: seq<OrderState>, key: string)
    ensures forall i :: IsFirstMatch(list, key, i) ==> FirstMatch(list, key) == Some(list[i])
    ensures FirstMatch(list, key).Some? ==> exists i :: IsFirstMatch(list, key, i)
  {
    if list != [] {
      FirstMatchAt(list[1..], key);
      forall i | IsFirstMatch(list, key, i) ensures FirstMatch(list, key) == Some(list[i]) {
        if i > 0 {
          assert IsFirstMatch(list[1..], key, i - 1);
        }
      }
      if i :| IsFirstMatch(list[1..], key, i) {
        assert list[0].requestID != key ==> IsFirstMatch(list, key, i + 1);
      }
      if list[0].requestID == key != "" {
        assert IsFirstMatch(list, key, 0);
      }
    }
  }

  // A traceable entry is placed exactly when the broker returned an order for it, whether it
  // was sent synchronously or not; shown and journaled are that order's id and lifecycle.
  lemma PlacedExactly(e: Record, target: Target, talk: Talk)
    requires Traceable(e, target)
    ensures Decide(e, target, talk).verdict.PlacedOrder? <==> exists o :: Returned(e, talk, o)
    ensures forall o :: Returned(e, talk, o) ==>
              Decide(e, target, talk) ==
                Decision(PlacedOrder, Some(Result(o.orderID, "", "", talk.tracking, None, "")), o.orderID, o.lifecycle)
  {
    if talk.list.Listed? {
      FirstMatchAt(talk.list.orders, e.orderID);
    }
    if Decide(e, target, talk).verdict.PlacedOrder? {
      var o := OrderOf(e, target, talk);
      assert Returned(e, talk, o);
    }
  }

  // An entry is closed as not placed exactly when it was not sent as far as the journal
  // shows, or when it is synchronous, was created on the UTC day of the check, and neither
  // the lookups nor the day list know it.
  lemma NotPlacedExactly(e: Record, target: Target, talk: Talk)
    ensures Decide(e, target, talk).verdict.NotPlaced? <==>
              || (Ours(e, target) && e.stage.IntentCreated?)
              || (Traceable(e, target) && !e.payload.order.value.async && Missed(e, talk) && talk.list.Listed?
                  && (forall i :: 0 <= i < |talk.list.orders| ==> talk.list.orders[i].requestID != e.orderID)
                  && e.payload.order.value.createdAt.At?
                  && e.payload.order.value.createdAt.t / 86_400_000_000_000 == talk.checkDay)
    ensures Decide(e, target, talk).verdict.NotPlaced? ==>
              Decide(e, target, talk).close ==
                Some(Result("", "", "", "", None,
                            if e.stage.IntentCreated? then "not-placed-before-send" else "not-placed"))
  {
    if talk.list.Listed? {
      FirstMatchMentions(talk.list.orders, e.orderID);
    }
  }

  // Everything else stays open, and why.
  lemma LeftOpenExactly(e: Record, target: Target, talk: Talk)
    ensures var v := Decide(e, target, talk).verdict;
            && (v.Foreign? <==> e.kind != "order.place" && e.kind != "order.replace")
            && (v.ProfileMismatch? <==>
                  && !v.Foreign?
                  && (e.profile != target.profile
                      || (e.payload.endpoint.Some? && e.payload.endpoint.value !in {"", target.endpoint})))
            && (v.LookupError? <==> Traceable(e, target) && talk.first.GetFailed?)
            && (v.StillUnresolved? <==>
                  && Traceable(e, target) && Missed(e, talk) && talk.list.Listed?
                  && (forall o :: !Returned(e, talk, o)) && !v.NotPlaced?)
            && !v.Ambiguous?
    ensures var d := Decide(e, target, talk);
            d.close.None? ==> d.orderID == "" && d.lifecycle == ""
  {
    if Traceable(e, target) {
      PlacedExactly(e, target, talk);
    }
  }

  // What one entry is shown as.
  ghost predicate Tells(v: View, e: Record, target: Target, talk: Talk) {
    && v.intentID == e.intentID
    && (Traceable(e, target) ==> (v.verdict.PlacedOrder? <==> exists o :: Returned(e, talk, o)))
    && (Traceable(e, target) ==>
          forall o :: Returned(e, talk, o) ==>
            v.orderID == o.orderID && v.lifecycle == o.lifecycle && v.writeFailed == !talk.fault.Healthy?)
    && (!Traceable(e, target) ==> !v.verdict.PlacedOrder?)
  }

  // The record that ties an entry to an order: everything of the entry, the order's id and
  // the tracking id of the answer, where those are not empty, and no error.
  predicate Confirms(r: Record, e: Record, o: OrderState, tracking: string) {
    && r.stage.Reconciled? && r.intentID == e.intentID && r.kind == e.kind && r.accountID == e.accountID
    && r.profile == e.profile && r.attempt == e.attempt && r.payload == e.payload
    && r.orderID == (if o.orderID == "" then e.orderID else o.orderID)
    && r.trackingID == (if tracking == "" then e.trackingID else tracking)
    && r.stopOrderID == e.stopOrderID && r.exchangeOrderID == e.exchangeOrderID
    && r.error == "" && r.exitCode.None?
  }

  // What one entry adds to the journal when the broker returned an order for it.
  ghost predicate Ties(before: seq<Record>, after: seq<Record>, e: Record, target: Target, talk: Talk) {
    Traceable(e, target) ==>
      forall o :: Returned(e, talk, o) ==>
        if talk.fault.Refused? || talk.fault.Unwritten? then after == before
        else |after| == |before| + 1 && before <= after && Confirms(after[|before|], e, o, talk.tracking)
  }

  lemma EntryTells(before: seq<Record>, after: seq<Record>, e: Record, target: Target, talk: Talk)
    requires Journals(before, after, e, Decide(e, target, talk), talk.fault)
    ensures Tells(Shown(e, target, talk), e, target, talk)
    ensures Ties(before, after, e, target, talk)
  {
    if Traceable(e, target) {
      PlacedExactly(e, target, talk);
    } else {
      NotTraceable(e, target, talk);
    }
  }

  lemma NotTraceable(e: Record, target: Target, talk: Talk)
    requires !Traceable(e, target)
    ensures !Decide(e, target, talk).verdict.PlacedOrder?
  {}

  // ---- the flow itself ----

  class Report {
    var intentID: string
    var verdict: Verdict
    var orderID: string
    var lifecycle: string
    var writeFailed: bool

    constructor (id: string)
      ensures intentID == id && orderID == "" && lifecycle == "" && !writeFailed && verdict == Indeterminate
    {
      intentID, verdict, orderID, lifecycle, writeFailed := id, Indeterminate, "", "", false;
    }

    ghost predicate Shows(d: Decision, failed: bool)
      reads this
    {
      verdict == d.verdict && orderID == d.orderID && lifecycle == d.lifecycle && writeFailed == failed
    }

    function ToView(): View
      reads this
    {
      View(intentID, verdict, orderID, lifecycle, writeFailed)
    }

    method SetPlaced(o: OrderState)
      modifies this
      ensures verdict == PlacedOrder && orderID == o.orderID && lifecycle == o.lifecycle
      ensures writeFailed == old(writeFailed) && intentID == old(intentID)
    {
      verdict, orderID, lifecycle := PlacedOrder, o.orderID, o.lifecycle;
    }
  }

  // The journal after an entry was decided: one reconciled record of the entry when the
  // decision closes it and the write reached the file, otherwise nothing.
  ghost predicate Journals(before: seq<Record>, after: seq<Record>, e: Record, d: Decision, fault: Fault) {
    if d.close.None? || fault.Lost() then after == before
    else
      && |after| == |before| + 1 && after[..|before|] == before
      && after[|before|] == Reconciliation(e, d.close.value).(seqNo := after[|before|].seqNo)
  }

  function Reconciliation(e: Record, res: Result): Record {
    Draft(IntentOf(e), Carry(e.orderID, res.orderID), Carry(e.stopOrderID, res.stopOrderID),
          Carry(e.exchangeOrderID, res.exchangeOrderID), Carry(e.trackingID, res.trackingID),
          Stage.Reconciled, res.error, res.exitCode)
  }

  method RecordReconciled(out: Report, entry: Entry, ghost e: Record, res: Result, now: nat, fault: Fault)
    requires entry.led.Valid() && entry.led.AtLatestMonth(now)
    requires entry.intent == IntentOf(e) && entry.orderID == e.orderID && entry.stopOrderID == e.stopOrderID
    requires entry.exchangeOrderID == e.exchangeOrderID && entry.trackingID == e.trackingID
    modifies out`writeFailed, entry, entry.led
    ensures entry.led.Valid() && entry.led.AtLatestMonth(now)
    ensures out.writeFailed == (old(out.writeFailed) || !fault.Healthy?)
    ensures Journals(old(entry.led.Log()), entry.led.Log(), e, Decision(PlacedOrder, Some(res), "", ""), fault)
  {
    var ok, written := entry.Write(Stage.Reconciled, res, now, fault);
    if !ok {
      out.writeFailed := true;
    }
  }

  // Decides one entry and journals the outcome.
  method ReconcileEntry(led: Ledger, e: Record, target: Target, talk: Talk, now: nat) returns (view: View)
    requires led.Valid() && led.AtLatestMonth(now)
    modifies led
    ensures led.Valid() && led.AtLatestMonth(now)
    ensures view == Shown(e, target, talk)
    ensures Journals(old(led.Log()), led.Log(), e, Decide(e, target, talk), talk.fault)
    ensures Tells(view, e, target, talk) && Ties(old(led.Log()), led.Log(), e, target, talk)
  {
    view := DecideEntry(led, e, target, talk, now);
    EntryTells(old(led.Log()), led.Log(), e, target, talk);
  }

  method DecideEntry(led: Ledger, e: Record, target: Target, talk: Talk, now: nat) returns (view: View)
    requires led.Valid() && led.AtLatestMonth(now)
    modifies led
    ensures led.Valid() && led.AtLatestMonth(now)
    ensures view == Shown(e, target, talk)
    ensures Journals(old(led.Log()), led.Log(), e, Decide(e, target, talk), talk.fault)
  {
    var entry := new Entry.FromRecord(led, e);
    var out := new Report(e.intentID);
    if entry.intent.kind != ORDER_PLACE && entry.intent.kind != ORDER_REPLACE {
      out.verdict := Foreign;
      return out.ToView();
    }
    var mismatch := TargetMismatch(entry.intent.profile, entry.intent.payload, target);
    if mismatch.Some? {
      out.verdict := mismatch.value;
      return out.ToView();
    }
    if entry.stage == Some(IntentCreated) {
      out.verdict := NotPlaced;
      RecordReconciled(out, entry, e, NO_RESULT.(error := NOT_PLACED_BEFORE_SEND), now, talk.fault);
      return out.ToView();
    }
    if entry.orderID == "" || entry.intent.accountID == "" || entry.intent.payload.order.None? {
      out.verdict := Indeterminate;
      return out.ToView();
    }
    var doc := entry.intent.payload.order.value;
    var state := talk.first;
    if state.GetFailed? {
      out.verdict := LookupError;
      return out.ToView();
    }
    if state.NotFound? {
      if doc.async {
        ReconcileAsyncNotFound(out, entry, e, doc, talk, now);
        return out.ToView();
      }
      state := talk.second;
      if state.GetFailed? {
        out.verdict := Indeterminate;
        return out.ToView();
      }
      if state.NotFound? {
        ResolveSyncNotFound(out, entry, e, doc, talk, now);
        return out.ToView();
      }
    }
    out.SetPlaced(state.state);
    var res := NO_RESULT.(orderID := state.state.orderID, trackingID := talk.tracking);
    RecordReconciled(out, entry, e, res, now, talk.fault);
    view := out.ToView();
  }

  method ResolveSyncNotFound(out: Report, entry: Entry, ghost e: Record, doc: OrderDoc, talk: Talk, now: nat)
    requires entry.led.Valid() && entry.led.AtLatestMonth(now) && !doc.async
    requires entry.intent == IntentOf(e) && entry.orderID == e.orderID && entry.stopOrderID == e.stopOrderID
    requires entry.exchangeOrderID == e.exchangeOrderID && entry.trackingID == e.trackingID
    requires out.orderID == "" && out.lifecycle == "" && !out.writeFailed
    modifies out, entry, entry.led
    ensures entry.led.Valid() && entry.led.AtLatestMonth(now) && out.intentID == old(out.intentID)
    ensures var d := DecideByList(doc, e.orderID, talk);
            && out.Shows(d, d.close.Some? && !talk.fault.Healthy?)
            && Journals(old(entry.led.Log()), entry.led.Log(), e, d, talk.fault)
  {
    if talk.list.ListFailed? {
      out.verdict := Indeterminate;
      return;
    }
    var found := FindOrderByRequestID(talk.list.orders, entry.orderID);
    if found.Some? {
      out.SetPlaced(found.value);
      var res := NO_RESULT.(orderID := found.value.orderID, trackingID := talk.tracking);
      RecordReconciled(out, entry, e, res, now, talk.fault);
      return;
    }
    if CreatedOn(doc.createdAt, talk.checkDay) {
      out.verdict := NotPlaced;
      RecordReconciled(out, entry, e, NO_RESULT.(error := NOT_PLACED), now, talk.fault);
      return;
    }
    out.verdict := StillUnresolved;
  }

  method ReconcileAsyncNotFound(out: Report, entry: Entry, ghost e: Record, doc: OrderDoc, talk: Talk, now: nat)
    requires entry.led.Valid() && entry.led.AtLatestMonth(now) && doc.async
    requires entry.intent == IntentOf(e) && entry.orderID == e.orderID && entry.stopOrderID == e.stopOrderID
    requires entry.exchangeOrderID == e.exchangeOrderID && entry.trackingID == e.trackingID
    requires out.orderID == "" && out.lifecycle == "" && !out.writeFailed
    modifies out, entry, entry.led
    ensures entry.led.Valid() && entry.led.AtLatestMonth(now) && out.intentID == old(out.intentID)
    ensures var d := DecideByList(doc, e.orderID, talk);
            && out.Shows(d, d.close.Some? && !talk.fault.Healthy?)
            && Journals(old(entry.led.Log()), entry.led.Log(), e, d, talk.fault)
  {
    if talk.list.ListFailed? {
      out.verdict := Indeterminate;
      return;
    }
    var found := FindOrderByRequestID(talk.list.orders, entry.orderID);
    if found.Some? {
      out.SetPlaced(found.value);
      var res := NO_RESULT.(orderID := found.value.orderID, trackingID := talk.tracking);
      RecordReconciled(out, entry, e, res, now, talk.fault);
      return;
    }
    out.verdict := StillUnresolved;
  }

  // ---- a whole run, with other processes writing meanwhile ----

  // What a run meets: its target, what it is answered, and what other processes append
  // between its previous write, or its scan, and the write of each entry.
  datatype Sweep = Sweep(target: Target, ask: nat -> Talk, rivals: nat -> seq<Record>)

  // The calendar months of its writes never run back.
  ghost predicate Forward(months: nat -> nat) {
    forall i: nat, j: nat :: i <= j ==> months(i) <= months(j)
  }

  function DecisionOf(entries: seq<Record>, sweep: Sweep, k: nat): Decision
    requires k < |entries|
  {
    Decide(entries[k], sweep.target, sweep.ask(k))
  }

  // The journal after each entry: others append, and then the entry adds what its decision
  // allows.
  ghost predicate Stepped(logs: seq<seq<Record>>, entries: seq<Record>, sweep: Sweep, n: nat)
    requires n <= |entries|
  {
    && |logs| == n + 1
    && forall k :: 0 <= k < n ==> StepsTo(logs[k], logs[k+1], entries, sweep, k)
  }

  ghost predicate StepsTo(before: seq<Record>, after: seq<Record>, entries: seq<Record>, sweep: Sweep, k: nat)
    requires k < |entries|
  {
    Journals(before + sweep.rivals(k), after, entries[k], DecisionOf(entries, sweep, k), sweep.ask(k).fault)
  }

  ghost predicate Swept(logs: seq<seq<Record>>, entries: seq<Record>, sweep: Sweep) {
    Stepped(logs, entries, sweep, |entries|)
  }

  lemma SteppedSnoc(logs: seq<seq<Record>>, log: seq<Record>, entries: seq<Record>, sweep: Sweep, n: nat)
    requires n < |entries| && Stepped(logs, entries, sweep, n) && StepsTo(logs[n], log, entries, sweep, n)
    ensures Stepped(logs + [log], entries, sweep, n + 1)
  {}

  // Sweeps every entry the recovery scan reports; a corrupt journal stops the run before
  // it touches anything. The journal is scanned once and not read again.
  method ReconcileFlow(led: Ledger, sweep: Sweep, months: nat -> nat)
    returns (views: Option<seq<View>>, ghost entries: seq<Record>, ghost logs: seq<seq<Record>>)
    requires led.Valid() && led.AtLatestMonth(months(0)) && Forward(months)
    modifies led
    ensures led.Valid() && led.AtLatestMonth(if views.Some? then months(|entries|) else months(0))
    ensures views.None? <==> !old(led.AllGood())
    ensures views.None? ==> led.Log() == old(led.Log())
    ensures forall k :: 0 <= k < |entries| ==> Speaks(old(led.Log()), entries[k])
    ensures forall id :: Reported(old(led.Log()), id) ==> Has(entries, id)
    ensures Distinct(entries)
    ensures views.Some? ==>
              && |views.value| == |entries|
              && (forall k :: 0 <= k < |entries| ==>
                    views.value[k] == Shown(entries[k], sweep.target, sweep.ask(k)))
              && Swept(logs, entries, sweep) && logs[0] == old(led.Log()) && logs[|entries|] == led.Log()
    ensures views.Some? ==> forall k :: 0 <= k < |entries| ==> TellsAt(views.value, logs, entries, sweep, k)
  {
    ghost var before := led.Log();
    var todo, corrupt := led.Unresolved();
    entries, logs := todo, [before];
    if corrupt != 0 {
      return None, entries, logs;
    }
    var done: seq<View> := [];
    for i := 0 to |todo|
      invariant led.Valid() && led.AtLatestMonth(months(i))
      invariant |done| == i
      invariant forall k :: 0 <= k < i ==> done[k] == Shown(todo[k], sweep.target, sweep.ask(k))
      invariant Stepped(logs, todo, sweep, i) && logs[0] == before && logs[i] == led.Log()
    {
      ghost var was := logs;
      led.Others(sweep.rivals(i), months(i));
      var view := ReconcileEntry(led, todo[i], sweep.target, sweep.ask(i), months(i));
      assert months(i) <= months(i + 1);
      logs := logs + [led.Log()];
      SteppedSnoc(was, led.Log(), todo, sweep, i);
      done := done + [view];
    }
    views := Some(done);
    forall k | 0 <= k < |entries| ensures TellsAt(done, logs, entries, sweep, k) {
      assert StepsTo(logs[k], logs[k+1], entries, sweep, k);
      EntryTells(logs[k] + sweep.rivals(k), logs[k+1], entries[k], sweep.target, sweep.ask(k));
    }
  }

  // Of each entry the run shows and journals what the broker returned for it.
  ghost predicate TellsAt(views: seq<View>, logs: seq<seq<Record>>, entries: seq<Record>, sweep: Sweep, k: nat)
    requires k < |entries| == |views| && |logs| == |entries| + 1
  {
    && Tells(views[k], entries[k], sweep.target, sweep.ask(k))
    && Ties(logs[k] + sweep.rivals(k), logs[k+1], entries[k], sweep.target, sweep.ask(k))
  }

  // ---- what the decisions guarantee ----

  // An entry is closed exactly when its fate is known; every other verdict leaves it.
  lemma ClosedExactlyWhenResolved(e: Record, target: Target, talk: Talk)
    ensures Decide(e, target, talk).close.Some? <==>
              Decide(e, target, talk).verdict.PlacedOrder? || Decide(e, target, talk).verdict.NotPlaced?
    ensures Decide(e, target, talk).verdict.PlacedOrder? ==> Decide(e, target, talk).close.value.error == ""
    ensures Decide(e, target, talk).verdict.NotPlaced? ==> Decide(e, target, talk).close.value.error != ""
  {
    assert NOT_PLACED_BEFORE_SEND != "" && NOT_PLACED != "";
  }

  // Only this profile's and endpoint's regular-order entries are ever closed.
  lemma OthersUntouched(e: Record, target: Target, talk: Talk)
    requires Decide(e, target, talk).close.Some?
    ensures e.kind == ORDER_PLACE || e.kind == ORDER_REPLACE
    ensures e.profile == target.profile && e.payload.endpoint == Some(target.endpoint) && target.endpoint != ""
  {}

  // A placed verdict names an order the broker returned for this key.
  lemma PlacedHasEvidence(e: Record, target: Target, talk: Talk)
    requires Decide(e, target, talk).verdict.PlacedOrder?
    ensures || talk.first == Found(OrderOf(e, target, talk)) || talk.second == Found(OrderOf(e, target, talk))
            || (talk.list.Listed? && OrderOf(e, target, talk) in talk.list.orders
                 && OrderOf(e, target, talk).requestID == e.orderID)
    ensures Decide(e, target, talk).orderID == OrderOf(e, target, talk).orderID
  {
    if talk.list.Listed? {
      FirstMatchMentions(talk.list.orders, e.orderID);
    }
  }

  ghost function OrderOf(e: Record, target: Target, talk: Talk): OrderState {
    if talk.first.Found? then talk.first.state
    else if talk.second.Found? && !(e.payload.order.Some? && e.payload.order.value.async) then talk.second.state
    else if talk.list.Listed? && FirstMatch(talk.list.orders, e.orderID).Some? then
      FirstMatch(talk.list.orders, e.orderID).value
    else OrderState("", "", "")
  }

  // When nothing fails to answer, a sent synchronous intent of this target created on the
  // day of the check is always resolved one way or the other.
  lemma SyncTodayResolves(e: Record, target: Target, talk: Talk)
    requires Answered(e, target, talk)
    ensures Decide(e, target, talk).close.Some?
  {}

  // A synchronous intent of this target, created on the day of the check, whose lookups answer.
  ghost predicate Answered(e: Record, target: Target, talk: Talk) {
    && (e.kind == ORDER_PLACE || e.kind == ORDER_REPLACE) && TargetMismatch(e.profile, e.payload, target).None?
    && e.orderID != "" && e.accountID != "" && e.payload.order.Some? && !e.payload.order.value.async
    && !talk.first.GetFailed? && !talk.second.GetFailed? && talk.list.Listed?
    && CreatedOn(e.payload.order.value.createdAt, talk.checkDay)
  }

  // ---- what a whole run adds to the journal ----

  // A record that reconciling e may write: it closes an entry of this target's regular
  // orders, and does not say not-placed when e shows an asynchronous intent as sent.
  ghost predicate ClosesEntry(r: Record, e: Record, target: Target) {
    && r.stage.Reconciled? && r.intentID == e.intentID
    && (e.kind == ORDER_PLACE || e.kind == ORDER_REPLACE)
    && e.profile == target.profile && e.payload.endpoint == Some(target.endpoint) && target.endpoint != ""
    && (r.error != "" ==> !(e.stage.SendStarted? && e.payload.order.Some? && e.payload.order.value.async))
  }

  predicate Written(d: Decision, fault: Fault) {
    d.close.Some? && !fault.Lost()
  }

  lemma EntryAdds(before: seq<Record>, after: seq<Record>, e: Record, target: Target, talk: Talk)
    requires Journals(before, after, e, Decide(e, target, talk), talk.fault)
    ensures before <= after && |after| == |before| + if Written(Decide(e, target, talk), talk.fault) then 1 else 0
    ensures |after| > |before| ==> ClosesEntry(after[|before|], e, target)
  {
    ClosedExactlyWhenResolved(e, target, talk);
    if after != before {
      OthersUntouched(e, target, talk);
      assert after == before + [after[|before|]];
    }
  }

  // What the run itself wrote for entry k.
  ghost function Own(logs: seq<seq<Record>>, sweep: Sweep, k: nat): seq<Record>
    requires k + 1 < |logs|
  {
    var before := logs[k] + sweep.rivals(k);
    if before <= logs[k+1] then logs[k+1][|before|..] else []
  }

  // Everything others and the run appended up to the n-th entry.
  ghost function Added(logs: seq<seq<Record>>, sweep: Sweep, n: nat): seq<Record>
    requires n < |logs|
  {
    if n == 0 then [] else Added(logs, sweep, n - 1) + sweep.rivals(n - 1) + Own(logs, sweep, n - 1)
  }

  // What the others alone appended meanwhile.
  function Rivals(sweep: Sweep, m: nat, n: nat): seq<Record>
    requires m <= n
    decreases n
  {
    if n == m then [] else Rivals(sweep, m, n - 1) + sweep.rivals(n - 1)
  }

  ghost predicate OwnIsClose(logs: seq<seq<Record>>, entries: seq<Record>, sweep: Sweep, k: nat)
    requires k < |entries| && |logs| == |entries| + 1
  {
    && |Own(logs, sweep, k)| == (if Written(DecisionOf(entries, sweep, k), sweep.ask(k).fault) then 1 else 0)
    && forall r :: r in Own(logs, sweep, k) ==> ClosesEntry(r, entries[k], sweep.target)
  }

  lemma OwnCloses(logs: seq<seq<Record>>, entries: seq<Record>, sweep: Sweep, k: nat)
    requires Swept(logs, entries, sweep) && k < |entries|
    ensures logs[k+1] == logs[k] + sweep.rivals(k) + Own(logs, sweep, k) && OwnIsClose(logs, entries, sweep, k)
  {
    assert StepsTo(logs[k], logs[k+1], entries, sweep, k);
    EntryAdds(logs[k] + sweep.rivals(k), logs[k+1], entries[k], sweep.target, sweep.ask(k));
  }

  lemma {:induction false} AddedUp(logs: seq<seq<Record>>, entries: seq<Record>, sweep: Sweep, n: nat)
    requires Swept(logs, entries, sweep) && n <= |entries|
    ensures logs[n] == logs[0] + Added(logs, sweep, n)
  {
    if n > 0 {
      AddedUp(logs, entries, sweep, n - 1);
      OwnCloses(logs, entries, sweep, n - 1);
      Regroup(logs[0], Added(logs, sweep, n - 1), sweep.rivals(n - 1), Own(logs, sweep, n - 1), logs[n-1], logs[n]);
    }
  }

  lemma Regroup(a: seq<Record>, b: seq<Record>, c: seq<Record>, d: seq<Record>, ab: seq<Record>, abcd: seq<Record>)
    requires ab == a + b && abcd == ab + c + d
    ensures abcd == a + (b + c + d)
  {}

  // Whatever others append, the run only appends too: for each entry at most one record,
  // which closes that entry, exactly when it is decided and its write is not lost.
  lemma RunAddsOnly(logs: seq<seq<Record>>, entries: seq<Record>, sweep: Sweep)
    requires Swept(logs, entries, sweep)
    ensures logs[|entries|] == logs[0] + Added(logs, sweep, |entries|)
    ensures forall k :: 0 <= k < |entries| ==> OwnIsClose(logs, entries, sweep, k)
  {
    AddedUp(logs, entries, sweep, |entries|);
    forall k | 0 <= k < |entries| ensures OwnIsClose(logs, entries, sweep, k) {
      OwnCloses(logs, entries, sweep, k);
    }
  }

  // ---- which ids stay on the list ----

  // The last record of the id here leaves it unresolved.
  ghost predicate EndsOpen(log: seq<Record>, id: string) {
    exists i :: IsLast(log, id, i) && !Closing(log[i].stage)
  }

  // The journal as far as one id goes.
  function OfID(log: seq<Record>, id: string): seq<Record> {
    if log == [] then []
    else OfID(log[..|log|-1], id) + if log[|log|-1].intentID == id then [log[|log|-1]] else []
  }

  lemma {:induction false} OfIDSum(a: seq<Record>, b: seq<Record>, id: string)
    ensures OfID(a + b, id) == OfID(a, id) + OfID(b, id)
  {
    if b == [] {
      assert a + b == a;
    } else {
      var n := |b| - 1;
      assert (a + b)[..|a| + n] == a + b[..n];
      OfIDSum(a, b[..n], id);
    }
  }

  // The scan's aggregate of an id, and so whether it is reported, depends on its records only.
  lemma {:induction false} OfIDAgg(log: seq<Record>, id: string)
    ensures AggOf(OfID(log, id), id) == AggOf(log, id)
  {
    if log != [] {
      var n := |log| - 1;
      OfIDAgg(log[..n], id);
      if log[n].intentID == id {
        var before := OfID(log[..n], id);
        assert OfID(log, id) == before + [log[n]] && (before + [log[n]])[..|before|] == before;
      } else {
        assert OfID(log, id) == OfID(log[..n], id);
      }
    }
  }

  lemma ReportedByItsOwn(a: seq<Record>, b: seq<Record>, id: string)
    requires OfID(a, id) == OfID(b, id)
    ensures Reported(a, id) <==> Reported(b, id)
    ensures Opens(a, id) == Opens(b, id) && Closes(a, id) == Closes(b, id)
  {
    OfIDAgg(a, id);
    OfIDAgg(b, id);
    AggReported(a, id);
    AggReported(b, id);
    AggMeaning(a, id);
    AggMeaning(b, id);
    CountsWhenAbsent(a, id);
    CountsWhenAbsent(b, id);
  }

  // One entry's step, as far as one id goes, where the run writes nothing of that id.
  lemma ForeignStep(before: seq<Record>, rivals: seq<Record>, own: seq<Record>, after: seq<Record>, id: string)
    requires after == before + rivals + own && |own| <= 1 && !Mentioned(own, id)
    ensures OfID(after, id) == OfID(before, id) + OfID(rivals, id)
  {
    OfIDSum(before + rivals, own, id);
    OfIDSum(before, rivals, id);
    NotMentioned(own, id);
  }

  lemma {:induction false} NotMentioned(log: seq<Record>, id: string)
    requires !Mentioned(log, id)
    ensures OfID(log, id) == []
  {
    if log != [] {
      var n := |log| - 1;
      assert log[n].intentID != id;
      assert forall i :: 0 <= i < n ==> log[..n][i] == log[i];
      NotMentioned(log[..n], id);
    }
  }

  lemma OwnIsForeign(logs: seq<seq<Record>>, entries: seq<Record>, sweep: Sweep, j: nat, k: nat)
    requires Swept(logs, entries, sweep) && Distinct(entries) && j < |entries| && k < |entries| && j != k
    ensures logs[j+1] == logs[j] + sweep.rivals(j) + Own(logs, sweep, j)
    ensures |Own(logs, sweep, j)| <= 1 && !Mentioned(Own(logs, sweep, j), entries[k].intentID)
  {
    OwnCloses(logs, entries, sweep, j);
    forall i | 0 <= i < |Own(logs, sweep, j)| ensures Own(logs, sweep, j)[i].intentID != entries[k].intentID {
      assert Own(logs, sweep, j)[i] in Own(logs, sweep, j);
    }
  }

  // Over entries other than k, the journal gains of k's id what others append.
  lemma {:induction false} OthersAlone(logs: seq<seq<Record>>, entries: seq<Record>, sweep: Sweep,
                                       k: nat, m: nat, n: nat)
    requires Swept(logs, entries, sweep) && Distinct(entries) && k < |entries| && m <= n <= |entries|
    requires n <= k || k < m
    ensures OfID(logs[n], entries[k].intentID) ==
            OfID(logs[m], entries[k].intentID) + OfID(Rivals(sweep, m, n), entries[k].intentID)
    decreases n
  {
    if n > m {
      var id, j := entries[k].intentID, n - 1;
      OthersAlone(logs, entries, sweep, k, m, j);
      OwnIsForeign(logs, entries, sweep, j, k);
      ForeignStep(logs[j], sweep.rivals(j), Own(logs, sweep, j), logs[n], id);
      OfIDSum(Rivals(sweep, m, j), sweep.rivals(j), id);
      Assoc(OfID(logs[m], id), OfID(Rivals(sweep, m, j), id), OfID(sweep.rivals(j), id));
    }
  }

  lemma OwnStep(start: seq<Record>, early: seq<Record>, before: seq<Record>, rivals: seq<Record>, own: seq<Record>,
                after: seq<Record>, id: string)
    requires OfID(before, id) == OfID(start, id) + OfID(early, id) && after == before + rivals + own
    ensures OfID(after, id) == OfID(start + (early + rivals) + own, id)
  {
    OfIDSum(before + rivals, own, id);
    OfIDSum(before, rivals, id);
    OfIDSum(start + (early + rivals), own, id);
    OfIDSum(start, early + rivals, id);
    OfIDSum(early, rivals, id);
    Assoc(OfID(start, id), OfID(early, id), OfID(rivals, id));
  }

  lemma Assoc(a: seq<Record>, b: seq<Record>, c: seq<Record>)
    ensures a + b + c == a + (b + c)
  {}

  // The journal a run leaves, as far as entry k's id goes: what was there at the scan, what
  // others appended before its write, its own close if it wrote one, and what others
  // appended after that.
  lemma WhatIsLeft(logs: seq<seq<Record>>, entries: seq<Record>, sweep: Sweep, k: nat)
    requires Swept(logs, entries, sweep) && Distinct(entries) && k < |entries|
    ensures var id, n := entries[k].intentID, |entries|;
            OfID(logs[n], id) ==
              OfID(logs[0] + Rivals(sweep, 0, k + 1) + Own(logs, sweep, k) + Rivals(sweep, k + 1, n), id)
  {
    var id, n := entries[k].intentID, |entries|;
    var early, own, late := Rivals(sweep, 0, k), Own(logs, sweep, k), Rivals(sweep, k + 1, n);
    OthersAlone(logs, entries, sweep, k, 0, k);
    assert Rivals(sweep, 0, 0) == [];
    OwnCloses(logs, entries, sweep, k);
    OwnStep(logs[0], early, logs[k], sweep.rivals(k), own, logs[k+1], id);
    OthersAlone(logs, entries, sweep, k, k + 1, n);
    OfIDSum(logs[0] + Rivals(sweep, 0, k + 1) + own, late, id);
  }

  // A journal that goes on reports an id exactly when what follows leaves it unresolved, or
  // more lifecycles were opened than closed in all; if nothing follows, as before.
  lemma ReportedSum(log: seq<Record>, more: seq<Record>, id: string)
    ensures Opens(log + more, id) == Opens(log, id) + Opens(more, id)
    ensures Closes(log + more, id) == Closes(log, id) + Closes(more, id)
    ensures Mentioned(more, id) ==>
              (Reported(log + more, id) <==> EndsOpen(more, id) || Opens(log + more, id) > Closes(log + more, id))
    ensures !Mentioned(more, id) ==> (Reported(log + more, id) <==> Reported(log, id))
  {
    CountsAppend(log, more, id);
    var sum := log + more;
    if Mentioned(more, id) {
      var i :| 0 <= i < |more| && more[i].intentID == id;
      LastExists(more, id, i);
      var last :| IsLast(more, id, last);
      assert forall j :: 0 <= j < |more| ==> sum[|log| + j] == more[j];
      assert IsLast(sum, id, |log| + last);
    } else {
      NotMentioned(more, id);
      OfIDSum(log, more, id);
      ReportedByItsOwn(sum, log, id);
    }
  }

  // After a run, an id whose close it wrote is reported exactly when another process left it
  // unresolved after that close, or more of its lifecycles were opened than closed in all.
  // An id whose close it did not write is reported exactly when it is without the run.
  lemma ReportedAfterIff(logs: seq<seq<Record>>, entries: seq<Record>, sweep: Sweep, k: nat)
    requires Swept(logs, entries, sweep) && Distinct(entries) && k < |entries|
    ensures var id, n := entries[k].intentID, |entries|;
            var seen, late := logs[0] + Rivals(sweep, 0, n), Rivals(sweep, k + 1, n);
            if Written(DecisionOf(entries, sweep, k), sweep.ask(k).fault) then
              Reported(logs[n], id) <==> EndsOpen(late, id) || Opens(seen, id) > Closes(seen, id) + 1
            else
              Reported(logs[n], id) <==> Reported(seen, id)
  {
    var id, n := entries[k].intentID, |entries|;
    var early, own, late := Rivals(sweep, 0, k + 1), Own(logs, sweep, k), Rivals(sweep, k + 1, n);
    WhatIsLeft(logs, entries, sweep, k);
    ReportedByItsOwn(logs[n], logs[0] + early + own + late, id);
    OwnCloses(logs, entries, sweep, k);
    RivalsSplit(sweep, k + 1, n);
    assert logs[0] + early + late == logs[0] + (early + late);
    ReportedSum(logs[0] + early, late, id);
    if own == [] {
      assert logs[0] + early + own == logs[0] + early;
    } else {
      ClosedBefore(logs[0] + early, own[0], late, id);
      assert own == [own[0]];
    }
  }

  lemma {:induction false} RivalsSplit(sweep: Sweep, m: nat, n: nat)
    requires m <= n
    ensures Rivals(sweep, 0, n) == Rivals(sweep, 0, m) + Rivals(sweep, m, n)
    decreases n
  {
    if n > m {
      RivalsSplit(sweep, m, n - 1);
    }
  }

  lemma ClosedBefore(log: seq<Record>, close: Record, late: seq<Record>, id: string)
    requires close.intentID == id && Closing(close.stage)
    ensures Reported(log + [close] + late, id) <==>
              EndsOpen(late, id) || Opens(log + late, id) > Closes(log + late, id) + 1
  {
    ReportedSum(log, [close], id);
    ReportedSum(log + [close], late, id);
    ReportedSum(log, late, id);
    assert [close][..0] == [];
    assert Opens([close], id) == 0 && Closes([close], id) == 1;
    assert IsLast([close], id, 0);
    NoneLast(late, id);
  }

  lemma NoneLast(log: seq<Record>, id: string)
    ensures !Mentioned(log, id) ==> !EndsOpen(log, id) && Opens(log, id) == 0 && Closes(log, id) == 0
  {
    CountsWhenAbsent(log, id);
  }

  // So a synchronous intent of this target that was created on the day of the check, whose
  // lookups answered and whose write was not lost, is still on the list exactly then.
  lemma TodayIsResolved(logs: seq<seq<Record>>, entries: seq<Record>, sweep: Sweep, k: nat)
    requires Swept(logs, entries, sweep) && Distinct(entries) && k < |entries|
    requires Answered(entries[k], sweep.target, sweep.ask(k)) && !sweep.ask(k).fault.Lost()
    ensures var id, n := entries[k].intentID, |entries|;
            var seen := logs[0] + Rivals(sweep, 0, n);
            Reported(logs[n], id) <==>
              EndsOpen(Rivals(sweep, k + 1, n), id) || Opens(seen, id) > Closes(seen, id) + 1
  {
    SyncTodayResolves(entries[k], sweep.target, sweep.ask(k));
    ReportedAfterIff(logs, entries, sweep, k);
  }
}
