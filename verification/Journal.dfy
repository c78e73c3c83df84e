/** The write-ahead intent journal: stages and records, the append-only monthly files as
    one log, and what the recovery scan must report of it. */
module Journal {
  import opened Wrappers

  datatype Stage = IntentCreated | SendStarted | BrokerConfirmed | BrokerRejected | Reconciled

  predicate Closing(s: Stage) {
    s.BrokerConfirmed? || s.BrokerRejected? || s.Reconciled?
  }

  const ORDER_PLACE := "order.place"
  const ORDER_REPLACE := "order.replace"
  const STOP_PLACE := "stoporder.place"

  // A journaled time stamp as time.Parse sees it; At counts nanoseconds.
  datatype Stamp = NoStamp | BadStamp | At(t: int)

  datatype OrderDoc = OrderDoc(async: bool, createdAt: Stamp)

  // A protobuf enum name in the journal, by its number; Unset for the empty string.
  datatype EnumName = Unset | Enum(number: int)

  datatype StopDoc = StopDoc(
    instrument: string, direction: EnumName, stopType: EnumName, quantity: int,
    price: string, stopPrice: string, expirationType: EnumName, expireDate: Stamp,
    exchangeOrderType: EnumName, takeProfitType: EnumName,
    trailingIndent: string, trailingIndentType: EnumName,
    trailingSpread: string, trailingSpreadType: EnumName, createdAt: Stamp)

  // The raw JSON request, as the three decoders of the program read it;
  // None when json.Unmarshal fails for that shape.
  datatype Payload = Payload(endpoint: Option<string>, order: Option<OrderDoc>, stop: Option<StopDoc>)

  datatype Intent = Intent(intentID: string, kind: string, accountID: string, profile: string,
                           attempt: int, orderID: string, stopOrderID: string, payload: Payload)

  datatype Result = Result(orderID: string, stopOrderID: string, exchangeOrderID: string,
                           trackingID: string, exitCode: Option<int>, error: string)

  datatype Record = Record(seqNo: int, stage: Stage, intentID: string, kind: string, accountID: string,
                           profile: string, attempt: int, payload: Payload, orderID: string,
                           stopOrderID: string, exchangeOrderID: string, trackingID: string,
                           error: string, exitCode: Option<int>)

  // One non-blank journal line: a record whose checksum verifies, or a corrupt line
  // that may still carry a readable seq field.
  datatype Line = Good(record: Record) | Bad(seqField: Option<int>)

  // How one append ends: Refused fails before the write (marshal or lock), Unwritten is a
  // write that fails and leaves no line, Unsynced fails after the whole line was written.
  datatype Fault = Healthy | Refused | Unwritten | Unsynced {
    predicate Lost() { Refused? || Unwritten? }
  }

  // ---- the log as one sequence of records ----

  function Records(lines: seq<Line>): seq<Record> {
    if lines == [] then []
    else Records(lines[..|lines|-1]) +
         (var l := lines[|lines|-1]; if l.Good? then [l.record] else [])
  }

  // The monthly files in name order: files[m] holds the lines of the m-th month
  // of the calendar, and a month without a file reads as an empty one. Zero-padded
  // YYYY-MM names sort lexically in chronological order.
  type Files = seq<seq<Line>>

  function FileOf(files: Files, m: nat): seq<Line> {
    if m < |files| then files[m] else []
  }

  // Every file read in name order.
  function LogOf(files: Files): seq<Record> {
    if files == [] then [] else LogOf(files[..|files|-1]) + Records(files[|files|-1])
  }

  // The files once month m has been opened for appending.
  function Opened(files: Files, m: nat): (r: Files)
    ensures |r| == if m < |files| then |files| else m + 1
    ensures forall k :: 0 <= k < |r| ==> r[k] == FileOf(files, k)
  {
    if m < |files| then files else files + seq(m + 1 - |files|, _ => [])
  }

  function Appended(files: Files, m: nat, l: Line): Files {
    Opened(files, m)[m := FileOf(files, m) + [l]]
  }

  lemma {:induction false} OpenedLog(files: Files, m: nat)
    ensures LogOf(Opened(files, m)) == LogOf(files)
    decreases m
  {
    if m >= |files| {
      var o := Opened(files, m);
      if m == |files| {
        assert o[..m] == files;
      } else {
        OpenedLog(files, m - 1);
        assert o[..m] == Opened(files, m - 1);
      }
    }
  }

  lemma RecordsSnoc(lines: seq<Line>, r: Record)
    ensures Records(lines + [Good(r)]) == Records(lines) + [r]
  {
    assert (lines + [Good(r)])[..|lines|] == lines;
  }

  lemma LastFileGrows(a: Files, b: Files, m: nat, r: Record)
    requires |a| == |b| == m + 1 && a[..m] == b[..m]
    requires b[m] == a[m] + [Good(r)]
    ensures LogOf(b) == LogOf(a) + [r]
  {
    RecordsSnoc(a[m], r);
  }

  lemma AppendToLatest(files: Files, m: nat, r: Record)
    requires |files| <= m + 1
    ensures LogOf(Appended(files, m, Good(r))) == LogOf(files) + [r]
  {
    OpenedLog(files, m);
    LastFileGrows(Opened(files, m), Appended(files, m, Good(r)), m, r);
  }

  // ---- what the recovery scan must report ----

  function Opens(log: seq<Record>, id: string): nat {
    if log == [] then 0
    else
      var r := log[|log|-1];
      Opens(log[..|log|-1], id) + (if r.intentID == id && r.stage.IntentCreated? then 1 else 0)
  }

  function Closes(log: seq<Record>, id: string): nat {
    if log == [] then 0
    else
      var r := log[|log|-1];
      Closes(log[..|log|-1], id) + (if r.intentID == id && Closing(r.stage) then 1 else 0)
  }

  ghost predicate IsLast(log: seq<Record>, id: string, i: int) {
    && 0 <= i < |log| && log[i].intentID == id
    && forall j :: i < j < |log| ==> log[j].intentID != id
  }

  ghost predicate IsLastOpen(log: seq<Record>, id: string, i: int) {
    && 0 <= i < |log| && log[i].intentID == id && !Closing(log[i].stage)
    && forall j :: i < j < |log| && log[j].intentID == id ==> Closing(log[j].stage)
  }

  ghost predicate Mentioned(log: seq<Record>, id: string) {
    exists i :: 0 <= i < |log| && log[i].intentID == id
  }

  // An id needs reconciliation when its last stage is unresolved or some
  // lifecycle of it was opened and never closed.
  ghost predicate Reported(log: seq<Record>, id: string) {
    exists i :: IsLast(log, id, i) && (!Closing(log[i].stage) || Opens(log, id) > Closes(log, id))
  }

  // The record an id is represented by: its last unresolved-stage record,
  // or its last record when it has none.
  ghost predicate Represents(log: seq<Record>, id: string, r: Record) {
    || (exists i :: IsLastOpen(log, id, i) && r == log[i])
    || ((forall i :: !IsLastOpen(log, id, i)) && exists i :: IsLast(log, id, i) && r == log[i])
  }

  // ---- the per-id aggregate the scan keeps ----

  datatype Agg = Agg(opens: nat, closes: nat, last: Record, open: Option<Record>)

  function Fold(a: Option<Agg>, r: Record): Agg {
    var base := if a.Some? then a.value else Agg(0, 0, r, None);
    match r.stage
    case IntentCreated => Agg(base.opens + 1, base.closes, r, Some(r))
    case SendStarted => Agg(base.opens, base.closes, r, Some(r))
    case _ => Agg(base.opens, base.closes + 1, r, base.open)
  }

  function AggOf(log: seq<Record>, id: string): Option<Agg> {
    if log == [] then None
    else
      var before := AggOf(log[..|log|-1], id);
      var r := log[|log|-1];
      if r.intentID == id then Some(Fold(before, r)) else before
  }

  function Keep(a: Agg): bool {
    !Closing(a.last.stage) || a.opens > a.closes
  }

  function Rep(a: Agg): Record {
    if a.open.Some? then a.open.value else a.last
  }

  // What one more record does to an id's last record and last unresolved-stage record.
  lemma SnocLasts(log: seq<Record>, id: string)
    requires log != []
    ensures var n := |log| - 1;
            if log[n].intentID != id then
              && (forall i :: IsLast(log, id, i) <==> IsLast(log[..n], id, i))
              && (forall i :: IsLastOpen(log, id, i) <==> IsLastOpen(log[..n], id, i))
            else
              && IsLast(log, id, n) && (!Closing(log[n].stage) ==> IsLastOpen(log, id, n))
              && (Closing(log[n].stage) ==> forall i :: IsLastOpen(log, id, i) <==> IsLastOpen(log[..n], id, i))
  {
    assert forall i :: 0 <= i < |log| - 1 ==> log[i] == log[..|log|-1][i];
  }

  lemma {:induction false} AggMeaning(log: seq<Record>, id: string)
    ensures AggOf(log, id).None? ==> forall i :: 0 <= i < |log| ==> log[i].intentID != id
    ensures AggOf(log, id).Some? ==>
              var a := AggOf(log, id).value;
              && a.opens == Opens(log, id) && a.closes == Closes(log, id)
              && (exists i :: IsLast(log, id, i) && a.last == log[i])
              && (a.open.Some? ==> exists i :: IsLastOpen(log, id, i) && a.open.value == log[i])
              && (a.open.None? ==> forall i :: !IsLastOpen(log, id, i))
  {
    if log != [] {
      var n := |log| - 1;
      var before := log[..n];
      AggMeaning(before, id);
      SnocLasts(log, id);
      assert forall i :: 0 <= i < n ==> log[i] == before[i];
      CountsWhenAbsent(before, id);
    }
  }

  lemma CountsWhenAbsent(log: seq<Record>, id: string)
    ensures (forall i :: 0 <= i < |log| ==> log[i].intentID != id) ==>
              Opens(log, id) == 0 && Closes(log, id) == 0
  {
    if log != [] {
      CountsWhenAbsent(log[..|log|-1], id);
    }
  }

  lemma AggReported(log: seq<Record>, id: string)
    ensures Reported(log, id) <==> AggOf(log, id).Some? && Keep(AggOf(log, id).value)
    ensures AggOf(log, id).Some? ==> Represents(log, id, Rep(AggOf(log, id).value))
    ensures AggOf(log, id).Some? ==> Rep(AggOf(log, id).value).intentID == id
  {
    AggMeaning(log, id);
    if AggOf(log, id).Some? {
      var i :| IsLast(log, id, i) && AggOf(log, id).value.last == log[i];
      forall j | IsLast(log, id, j) ensures j == i {}
    }
  }

  // Where the id has a record in one of these stages.
  ghost function At(log: seq<Record>, id: string, stages: set<Stage>): set<nat> {
    set i: nat | i < |log| && log[i].intentID == id && log[i].stage in stages
  }

  lemma AtSnoc(log: seq<Record>, id: string, stages: set<Stage>)
    requires log != []
    ensures var n: nat := |log| - 1;
            At(log, id, stages) == At(log[..n], id, stages)
                                   + if log[n].intentID == id && log[n].stage in stages then {n} else {}
  {}

  lemma {:induction false} OpensAre(log: seq<Record>, id: string)
    ensures Opens(log, id) == |At(log, id, {IntentCreated})|
  {
    if log != [] {
      OpensAre(log[..|log|-1], id);
      AtSnoc(log, id, {IntentCreated});
    }
  }

  lemma {:induction false} ClosesAre(log: seq<Record>, id: string)
    ensures Closes(log, id) == |At(log, id, {BrokerConfirmed, BrokerRejected, Reconciled})|
  {
    if log != [] {
      ClosesAre(log[..|log|-1], id);
      AtSnoc(log, id, {BrokerConfirmed, BrokerRejected, Reconciled});
    }
  }

  // An id is reported exactly when its last record says that it may be under way, or more
  // intents were recorded under it than outcomes.
  lemma ReportedExactly(log: seq<Record>, id: string)
    ensures Reported(log, id) <==>
            || (exists i :: 0 <= i < |log| && log[i].intentID == id && log[i].stage in {IntentCreated, SendStarted}
                            && forall j :: i < j < |log| ==> log[j].intentID != id)
            || |At(log, id, {IntentCreated})| > |At(log, id, {BrokerConfirmed, BrokerRejected, Reconciled})|
  {
    OpensAre(log, id);
    ClosesAre(log, id);
    AggMeaning(log, id);
    CountsWhenAbsent(log, id);
    if exists i :: 0 <= i < |log| && log[i].intentID == id && log[i].stage in {IntentCreated, SendStarted}
                   && forall j :: i < j < |log| ==> log[j].intentID != id {
      var i :| 0 <= i < |log| && log[i].intentID == id && log[i].stage in {IntentCreated, SendStarted}
               && forall j :: i < j < |log| ==> log[j].intentID != id;
      assert IsLast(log, id, i);
    }
  }

  // It is represented by its last record from before an outcome, or its very last one.
  lemma RepresentedExactly(log: seq<Record>, id: string, i: nat)
    requires i < |log| && log[i].intentID == id
    requires var unsettled := {IntentCreated, SendStarted};
             if log[i].stage in unsettled
             then forall j :: i < j < |log| && log[j].intentID == id ==> log[j].stage !in unsettled
             else
               && (forall j :: 0 <= j < |log| && log[j].intentID == id ==> log[j].stage !in unsettled)
               && forall j :: i < j < |log| ==> log[j].intentID != id
    ensures Represents(log, id, log[i])
    ensures forall r :: Represents(log, id, r) ==> r == log[i]
  {
    if Closing(log[i].stage) {
      assert IsLast(log, id, i);
    } else {
      assert IsLastOpen(log, id, i);
    }
  }
}
