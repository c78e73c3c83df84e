/** An open handle on the journal directory, and the entry handle of one intent. */
module Ledgers {
  import opened Wrappers
  import opened Journal

  function SeqField(l: Line): int {
    match l
    case Good(r) => r.seqNo
    case Bad(f) => if f.Some? then f.value else 0
  }

  // Reading the line gives that seq, even when its checksum does not verify.
  predicate Carries(l: Line, n: int) {
    match l
    case Good(r) => r.seqNo == n
    case Bad(f) => f == Some(n)
  }

  lemma CarriesField(l: Line, n: int)
    ensures Carries(l, n) ==> n == SeqField(l)
    ensures SeqField(l) > 0 ==> Carries(l, SeqField(l))
  {}

  // The seq a record of this intent carries before append assigns one.
  function Draft(i: Intent, orderID: string, stopOrderID: string, exchangeOrderID: string,
                 trackingID: string, stage: Stage, error: string, exitCode: Option<int>): Record {
    Record(0, stage, i.intentID, i.kind, i.accountID, i.profile, i.attempt, i.payload,
           orderID, stopOrderID, exchangeOrderID, trackingID, error, exitCode)
  }

  // Zero-valued result fields leave the carried value unchanged.
  function Carry(old_: string, new_: string): string {
    if new_ != "" then new_ else old_
  }

  // v is what is known after an update that may leave a field empty.
  predicate Latest(v: string, update: string, known: string) {
    (update != "" ==> v == update) && (update == "" ==> v == known)
  }

  // The record is about that very request.
  predicate Describes(r: Record, i: Intent) {
    && r.intentID == i.intentID && r.kind == i.kind && r.accountID == i.accountID && r.profile == i.profile
    && r.attempt == i.attempt && r.payload == i.payload
  }

  class Ledger {
    var files: Files
    var month: nat
    var seqNo: nat

    ghost predicate Valid()
      reads this
    {
      month < |files|
    }

    // The handle's counter dominates every seq of the file it appends to; it need not when
    // another handle has written to that file since.
    ghost predicate Sole()
      reads this
    {
      Valid() && forall i :: 0 <= i < |files[month]| ==> SeqField(files[month][i]) <= seqNo
    }

    // No file is later than month m.
    ghost predicate AtLatestMonth(m: nat)
      reads this
    {
      |files| <= m + 1
    }

    ghost function Log(): seq<Record>
      reads this
    {
      LogOf(files)
    }

    constructor (existing: Files, now: nat)
      ensures Sole() && month == now && files == Opened(existing, now)
      ensures seqNo > 0 ==> exists l :: l in files[now] && Carries(l, seqNo)
    {
      files := existing;
      month := now;
      seqNo := 0;
      new;
      OpenMonth(now);
    }

    // Switches to the file of the given month, creating it when absent, and
    // never lets the counter fall.
    method OpenMonth(now: nat)
      modifies this
      ensures Sole() && month == now && files == Opened(old(files), now)
      ensures seqNo >= old(seqNo)
      ensures forall l, n :: l in files[now] && Carries(l, n) ==> n <= seqNo
      ensures seqNo > old(seqNo) ==> exists l :: l in files[now] && Carries(l, seqNo)
    {
      files := Opened(files, now);
      var lines := files[now];
      var max := 0;
      for i := 0 to |lines|
        invariant forall j :: 0 <= j < i ==> SeqField(lines[j]) <= max
        invariant max == 0 || exists j :: 0 <= j < i && SeqField(lines[j]) == max
      {
        if SeqField(lines[i]) > max {
          max := SeqField(lines[i]);
        }
      }
      month := now;
      if max > seqNo {
        seqNo := max;
        ghost var i :| 0 <= i < |lines| && SeqField(lines[i]) == max;
        assert lines[i] in files[now] && Carries(lines[i], seqNo);
      }
      forall l, n | l in files[now] && Carries(l, n) ensures n <= seqNo {
        CarriesField(l, n);
      }
    }

    // Writes one record to the file of the current month under the next seq.
    method Append(r: Record, now: nat, fault: Fault) returns (ok: bool, written: Record)
      requires Valid()
      modifies this
      ensures Valid() && month == now
      ensures ok <==> fault.Healthy?
      ensures written == r.(seqNo := written.seqNo)
      ensures fault.Lost() ==> files == Opened(old(files), now) && seqNo >= old(seqNo)
      ensures now == old(month) ==> seqNo == if fault.Refused? then old(seqNo) else old(seqNo) + 1
      ensures !fault.Lost() ==>
                && seqNo == written.seqNo > old(seqNo)
                && files == Appended(old(files), now, Good(written))
      ensures old(Sole()) || now != old(month) ==>
                Sole() && forall l, n :: l in FileOf(old(files), now) && Carries(l, n) ==> n < written.seqNo
      ensures old(AtLatestMonth(now)) ==>
                AtLatestMonth(now) && Log() == old(Log()) + (if fault.Lost() then [] else [written])
    {
      ghost var before := files;
      if now != month {
        OpenMonth(now);
      }
      assert files == Opened(before, now);
      ok, written := WriteLine(r, fault);
      OpenedLog(before, now);
      if old(AtLatestMonth(now)) && !fault.Lost() {
        AppendToLatest(before, now, written);
      }
      forall l, n | (old(Sole()) || now != old(month)) && l in FileOf(before, now) && Carries(l, n)
        ensures n < written.seqNo
      {
        CarriesField(l, n);
      }
    }

    // Assigns the next seq and writes the line to the open file.
    method WriteLine(r: Record, fault: Fault) returns (ok: bool, written: Record)
      requires Valid()
      modifies this`files, this`seqNo
      ensures Valid()
      ensures ok <==> fault.Healthy?
      ensures written == r.(seqNo := old(seqNo) + 1)
      ensures old(Sole()) ==> Sole() && forall l :: l in old(files)[month] ==> SeqField(l) < written.seqNo
      ensures seqNo == if fault.Refused? then old(seqNo) else old(seqNo) + 1
      ensures files == if fault.Lost() then old(files) else old(files)[month := old(files)[month] + [Good(written)]]
    {
      seqNo := seqNo + 1;
      written := r.(seqNo := seqNo);
      if fault.Refused? {
        seqNo := seqNo - 1;
        return false, written;
      }
      if fault.Unwritten? {
        return false, written;
      }
      files := files[month := files[month] + [Good(written)]];
      ok := fault.Healthy?;
    }

    method Other(r: Record, now: nat)
      requires Valid() && AtLatestMonth(now)
      modifies this`files
      ensures Valid() && AtLatestMonth(now) && Log() == old(Log()) + [r]
      ensures AllGoodIn(files) == AllGoodIn(old(files))
    {
      GoodAppended(files, now, r);
      AppendToLatest(files, now, r);
      files := Appended(files, now, Good(r));
    }

    // Other processes append to the same file through handles of their own, under whatever
    // seqs those assign.
    method Others(records: seq<Record>, now: nat)
      requires Valid() && AtLatestMonth(now)
      modifies this`files
      ensures Valid() && AtLatestMonth(now) && Log() == old(Log()) + records
      ensures AllGood() == old(AllGood())
    {
      for i := 0 to |records|
        invariant Valid() && AtLatestMonth(now) && AllGoodIn(files) == AllGoodIn(old(files))
        invariant Log() == old(Log()) + records[..i]
      {
        Other(records[i], now);
        assert records[..i] + [records[i]] == records[..i+1];
      }
      assert records[..|records|] == records;
    }

    // The recovery scan: one representative record per intent that needs
    // reconciliation, in seq order, plus the number of corrupt lines seen.
    method Unresolved() returns (out: seq<Record>, corrupt: nat)
      ensures forall k :: 0 <= k < |out| ==>
                Reported(Log(), out[k].intentID) && Represents(Log(), out[k].intentID, out[k])
      ensures forall id :: Reported(Log(), id) ==> Has(out, id)
      ensures Distinct(out) && BySeq(out)
      ensures forall j, k :: 0 <= j < k < |out| ==>
                out[j].intentID != out[k].intentID && out[j].seqNo <= out[k].seqNo
      ensures corrupt == 0 <==> AllGood()
      ensures corrupt == 0 <==> forall m, i :: 0 <= m < |files| && 0 <= i < |files[m]| ==> files[m][i].Good?
    {
      var aggs;
      aggs, corrupt := ScanAll();
      out := Collect(aggs, Log());
      forall id ensures Reported(Log(), id) <==> id in aggs && Keep(aggs[id]) {
        AggReported(Log(), id);
      }
      forall k | 0 <= k < |out| ensures Represents(Log(), out[k].intentID, out[k]) {
        AggReported(Log(), out[k].intentID);
      }
    }

    method ScanAll() returns (aggs: map<string, Agg>, corrupt: nat)
      ensures Tracks(aggs, Log())
      ensures corrupt == 0 <==> AllGood()
    {
      aggs, corrupt := map[], 0;
      for i := 0 to |files|
        invariant Tracks(aggs, LogOf(files[..i]))
        invariant corrupt == 0 <==> forall j :: 0 <= j < i ==> GoodLines(files[j])
      {
        var bad;
        aggs, bad := ScanFile(aggs, files[i], LogOf(files[..i]));
        corrupt := corrupt + bad;
        assert files[..i+1][..i] == files[..i];
      }
      assert files[..|files|] == files;
    }

    ghost predicate AllGood()
      reads this
    {
      AllGoodIn(files)
    }

    // Stop-order ids already tied to a successful mutation of the kind, per
    // account; any corrupt line fails the scan closed.
    method AssignedStopOrderIDs(kind: string) returns (history: Option<map<string, set<string>>>)
      ensures history.Some? <==> AllGood()
      ensures history.Some? ==> Consumes(history.value, Log(), kind)
      ensures history.Some? ==>
                forall account, id ::
                  (account in history.value && id in history.value[account]) <==> TiedBefore(Log(), kind, account, id)
    {
      var acc: map<string, set<string>> := map[];
      for i := 0 to |files|
        invariant Consumes(acc, LogOf(files[..i]), kind)
        invariant forall j :: 0 <= j < i ==> GoodLines(files[j])
      {
        var after := AssignFile(acc, files[i], LogOf(files[..i]), kind);
        if after.None? {
          return None;
        }
        acc := after.value;
        assert files[..i+1][..i] == files[..i];
      }
      assert files[..|files|] == files;
      history := Some(acc);
      ConsumesMeans(history.value, Log(), kind);
    }
  }

  predicate Assigns(r: Record, kind: string) {
    && r.kind == kind && r.accountID != "" && r.stopOrderID != ""
    && (r.stage.BrokerConfirmed? || r.stage.Reconciled?)
  }

  ghost predicate AssignedIn(log: seq<Record>, kind: string, account: string, id: string) {
    exists i :: 0 <= i < |log| && Assigns(log[i], kind) && log[i].accountID == account && log[i].stopOrderID == id
  }

  // A successful mutation of that kind on the account already carries the id.
  ghost predicate TiedBefore(log: seq<Record>, kind: string, account: string, id: string) {
    exists r :: r in log && r.kind == kind && r.accountID == account != "" && r.stopOrderID == id != ""
                && r.stage in {BrokerConfirmed, Reconciled}
  }

  lemma ConsumesMeans(acc: map<string, set<string>>, log: seq<Record>, kind: string)
    requires Consumes(acc, log, kind)
    ensures forall account, id :: (account in acc && id in acc[account]) <==> TiedBefore(log, kind, account, id)
  {
    forall account, id ensures AssignedIn(log, kind, account, id) <==> TiedBefore(log, kind, account, id) {
      if AssignedIn(log, kind, account, id) {
        var i :| 0 <= i < |log| && Assigns(log[i], kind) && log[i].accountID == account && log[i].stopOrderID == id;
        assert log[i] in log;
      }
    }
  }

  ghost predicate Consumes(acc: map<string, set<string>>, log: seq<Record>, kind: string) {
    forall account, id :: (account in acc && id in acc[account]) <==> AssignedIn(log, kind, account, id)
  }

  lemma ConsumesSnoc(acc: map<string, set<string>>, log: seq<Record>, r: Record, kind: string)
    requires forall account, id :: (account in acc && id in acc[account]) <==>
               AssignedIn(log, kind, account, id) || (Assigns(r, kind) && r.accountID == account && r.stopOrderID == id)
    ensures Consumes(acc, log + [r], kind)
  {
    forall account, id
      ensures AssignedIn(log + [r], kind, account, id) <==>
              AssignedIn(log, kind, account, id) || (Assigns(r, kind) && r.accountID == account && r.stopOrderID == id)
    {
      if AssignedIn(log, kind, account, id) {
        var i :| 0 <= i < |log| && Assigns(log[i], kind) && log[i].accountID == account && log[i].stopOrderID == id;
        assert (log + [r])[i] == log[i];
      }
      if Assigns(r, kind) && r.accountID == account && r.stopOrderID == id {
        assert (log + [r])[|log|] == r;
      }
    }
  }

  // The aggregates agree with the log read so far.
  ghost predicate Tracks(aggs: map<string, Agg>, log: seq<Record>) {
    forall id :: (if id in aggs then Some(aggs[id]) else None) == AggOf(log, id)
  }

  lemma TracksSnoc(aggs: map<string, Agg>, seen: seq<Record>, r: Record)
    requires Tracks(aggs, seen)
    ensures var was := if r.intentID in aggs then Some(aggs[r.intentID]) else None;
            Tracks(aggs[r.intentID := Fold(was, r)], seen + [r])
  {
    assert (seen + [r])[..|seen|] == seen;
  }

  method ScanFile(start: map<string, Agg>, lines: seq<Line>, ghost before: seq<Record>)
    returns (aggs: map<string, Agg>, bad: nat)
    requires Tracks(start, before)
    ensures Tracks(aggs, before + Records(lines))
    ensures bad == 0 <==> GoodLines(lines)
  {
    aggs, bad := start, 0;
    assert before + [] == before;
    for i := 0 to |lines|
      invariant Tracks(aggs, before + Records(lines[..i]))
      invariant bad == 0 <==> forall j :: 0 <= j < i ==> lines[j].Good?
    {
      assert lines[..i+1][..i] == lines[..i];
      match lines[i] {
        case Bad(_) =>
          bad := bad + 1;
          assert Records(lines[..i+1]) == Records(lines[..i]);
        case Good(r) =>
          ghost var seen := before + Records(lines[..i]);
          assert before + Records(lines[..i+1]) == seen + [r];
          var was := if r.intentID in aggs then Some(aggs[r.intentID]) else None;
          TracksSnoc(aggs, seen, r);
          aggs := aggs[r.intentID := Fold(was, r)];
      }
    }
    assert lines[..|lines|] == lines;
  }

  lemma GoodAppended(files: Files, m: nat, r: Record)
    ensures AllGoodIn(Appended(files, m, Good(r))) <==> AllGoodIn(files)
  {
    var after := Appended(files, m, Good(r));
    if AllGoodIn(after) {
      forall k | 0 <= k < |files| ensures GoodLines(files[k]) {
        assert GoodLines(after[k]);
        assert forall j :: 0 <= j < |files[k]| ==> after[k][j] == files[k][j];
      }
    }
  }

  ghost predicate AllGoodIn(files: Files) {
    forall m :: 0 <= m < |files| ==> GoodLines(files[m])
  }

  ghost predicate GoodLines(lines: seq<Line>) {
    forall i :: 0 <= i < |lines| ==> lines[i].Good?
  }

  // The kept intents, each once, in seq order.
  method Collect(aggs: map<string, Agg>, ghost log: seq<Record>) returns (out: seq<Record>)
    requires Tracks(aggs, log)
    ensures forall k :: 0 <= k < |out| ==> Kept(aggs, out[k])
    ensures forall id :: id in aggs && Keep(aggs[id]) ==> Has(out, id)
    ensures Distinct(out) && BySeq(out)
  {
    out := [];
    var ids := aggs.Keys;
    while ids != {}
      invariant ids <= aggs.Keys
      invariant forall k :: 0 <= k < |out| ==> Kept(aggs, out[k]) && out[k].intentID !in ids
      invariant forall id :: id in aggs && id !in ids && Keep(aggs[id]) ==> Has(out, id)
      invariant Distinct(out) && BySeq(out)
      decreases ids
    {
      var id :| id in ids;
      ids := ids - {id};
      AggReported(log, id);
      if Keep(aggs[id]) {
        assert !Has(out, id);
        out := InsertBySeq(out, Rep(aggs[id]));
      }
    }
  }

  ghost predicate Kept(aggs: map<string, Agg>, r: Record) {
    r.intentID in aggs && Keep(aggs[r.intentID]) && r == Rep(aggs[r.intentID])
  }

  ghost predicate Has(s: seq<Record>, id: string) {
    exists k :: 0 <= k < |s| && s[k].intentID == id
  }

  ghost predicate Distinct(s: seq<Record>) {
    forall j, k :: 0 <= j < k < |s| ==> s[j].intentID != s[k].intentID
  }

  ghost predicate BySeq(s: seq<Record>) {
    forall j, k :: 0 <= j < k < |s| ==> s[j].seqNo <= s[k].seqNo
  }

  // Adds one file's successful assignments; None when a line is corrupt.
  method AssignFile(start: map<string, set<string>>, lines: seq<Line>, ghost before: seq<Record>, kind: string)
    returns (after: Option<map<string, set<string>>>)
    requires Consumes(start, before, kind)
    ensures after.Some? <==> GoodLines(lines)
    ensures after.Some? ==> Consumes(after.value, before + Records(lines), kind)
  {
    var acc := start;
    assert before + [] == before;
    for i := 0 to |lines|
      invariant Consumes(acc, before + Records(lines[..i]), kind)
      invariant forall j :: 0 <= j < i ==> lines[j].Good?
    {
      if lines[i].Bad? {
        return None;
      }
      var r := lines[i].record;
      ghost var seen := before + Records(lines[..i]);
      assert lines[..i+1][..i] == lines[..i];
      assert before + Records(lines[..i+1]) == seen + [r];
      if Assigns(r, kind) {
        var have := if r.accountID in acc then acc[r.accountID] else {};
        acc := acc[r.accountID := have + {r.stopOrderID}];
      }
      ConsumesSnoc(acc, seen, r, kind);
    }
    assert lines[..|lines|] == lines;
    after := Some(acc);
  }

  method InsertBySeq(s: seq<Record>, r: Record) returns (out: seq<Record>)
    requires BySeq(s) && Distinct(s) && !Has(s, r.intentID)
    ensures BySeq(out) && Distinct(out)
    ensures forall k :: 0 <= k < |out| ==> out[k] == r || out[k] in s
    ensures forall id :: Has(out, id) <==> Has(s, id) || id == r.intentID
  {
    var pos := 0;
    while pos < |s| && s[pos].seqNo <= r.seqNo
      invariant pos <= |s|
      invariant forall j :: 0 <= j < pos ==> s[j].seqNo <= r.seqNo
    {
      pos := pos + 1;
    }
    out := s[..pos] + [r] + s[pos..];
    InsertHas(s, r, pos, out);
  }

  lemma InsertHas(s: seq<Record>, r: Record, pos: nat, out: seq<Record>)
    requires pos <= |s| && out == s[..pos] + [r] + s[pos..]
    ensures forall id :: Has(out, id) <==> Has(s, id) || id == r.intentID
  {
    forall id ensures Has(out, id) <==> Has(s, id) || id == r.intentID {
      if Has(s, id) {
        var k :| 0 <= k < |s| && s[k].intentID == id;
        assert out[if k < pos then k else k + 1] == s[k];
      }
      if Has(out, id) {
        var k :| 0 <= k < |out| && out[k].intentID == id;
        assert k == pos || out[k] == s[if k < pos then k else k - 1];
      }
      assert out[pos] == r;
    }
  }

  // A handle to one journaled intent. Every stage write carries the latest known
  // result fields forward, so each line is self-contained.
  class Entry {
    const led: Ledger
    const intent: Intent
    var orderID: string
    var stopOrderID: string
    var exchangeOrderID: string
    var trackingID: string
    var stage: Option<Stage>

    constructor (led: Ledger, intent: Intent)
      ensures this.led == led && this.intent == intent && stage == None
      ensures orderID == intent.orderID && stopOrderID == intent.stopOrderID
      ensures exchangeOrderID == "" && trackingID == ""
    {
      this.led, this.intent := led, intent;
      orderID, stopOrderID := intent.orderID, intent.stopOrderID;
      exchangeOrderID, trackingID, stage := "", "", None;
    }

    // The handle the recovery scan hands out for a journaled record.
    constructor FromRecord(led: Ledger, r: Record)
      ensures this.led == led && intent == IntentOf(r) && stage == Some(r.stage)
      ensures Describes(r, intent) && intent.orderID == r.orderID && intent.stopOrderID == r.stopOrderID
      ensures orderID == r.orderID && stopOrderID == r.stopOrderID
      ensures exchangeOrderID == r.exchangeOrderID && trackingID == r.trackingID
    {
      this.led, intent, stage := led, IntentOf(r), Some(r.stage);
      orderID, stopOrderID := r.orderID, r.stopOrderID;
      exchangeOrderID, trackingID := r.exchangeOrderID, r.trackingID;
    }

    // The record a stage write of this handle appends, up to its seq.
    ghost function Next(s: Stage, res: Result): Record
      reads this
    {
      Draft(intent, Carry(orderID, res.orderID), Carry(stopOrderID, res.stopOrderID),
            Carry(exchangeOrderID, res.exchangeOrderID), Carry(trackingID, res.trackingID),
            s, res.error, res.exitCode)
    }

    method Apply(res: Result)
      modifies this
      ensures orderID == Carry(old(orderID), res.orderID) && stopOrderID == Carry(old(stopOrderID), res.stopOrderID)
      ensures exchangeOrderID == Carry(old(exchangeOrderID), res.exchangeOrderID)
      ensures trackingID == Carry(old(trackingID), res.trackingID)
      ensures stage == old(stage)
    {
      if res.orderID != "" { orderID := res.orderID; }
      if res.stopOrderID != "" { stopOrderID := res.stopOrderID; }
      if res.exchangeOrderID != "" { exchangeOrderID := res.exchangeOrderID; }
      if res.trackingID != "" { trackingID := res.trackingID; }
    }

    // Journals one stage. On failure the handle keeps its stage.
    method Write(s: Stage, res: Result, now: nat, fault: Fault) returns (ok: bool, written: Record)
      requires led.Valid() && led.AtLatestMonth(now)
      modifies this, led
      ensures led.Valid() && led.AtLatestMonth(now) && led.month == now
      ensures ok <==> fault.Healthy?
      ensures stage == if ok then Some(s) else old(stage)
      ensures orderID == Carry(old(orderID), res.orderID) && stopOrderID == Carry(old(stopOrderID), res.stopOrderID)
      ensures exchangeOrderID == Carry(old(exchangeOrderID), res.exchangeOrderID)
      ensures trackingID == Carry(old(trackingID), res.trackingID)
      ensures written == old(Next(s, res)).(seqNo := written.seqNo)
      ensures Describes(written, intent) && written.stage == s
      ensures written.error == res.error && written.exitCode == res.exitCode
      ensures Latest(written.orderID, res.orderID, old(orderID))
      ensures Latest(written.stopOrderID, res.stopOrderID, old(stopOrderID))
      ensures Latest(written.exchangeOrderID, res.exchangeOrderID, old(exchangeOrderID))
      ensures Latest(written.trackingID, res.trackingID, old(trackingID))
      ensures led.Log() == old(led.Log()) + (if fault.Lost() then [] else [written])
      ensures !fault.Lost() ==> written.seqNo > old(led.seqNo)
    {
      Apply(res);
      var r := Draft(intent, orderID, stopOrderID, exchangeOrderID, trackingID, s, res.error, res.exitCode);
      ok, written := led.Append(r, now, fault);
      if ok {
        stage := Some(s);
      }
    }
  }

  const NO_RESULT := Result("", "", "", "", None, "")

  function IntentOf(r: Record): Intent {
    Intent(r.intentID, r.kind, r.accountID, r.profile, r.attempt, r.orderID, r.stopOrderID, r.payload)
  }

  // Records the intent-created stage; an empty intent id is refused before any write.
  method Begin(led: Ledger, intent: Intent, now: nat, fault: Fault) returns (e: Entry?, written: Record)
    requires led.Valid() && led.AtLatestMonth(now)
    modifies led
    ensures led.Valid() && led.AtLatestMonth(now)
    ensures e == null <==> intent.intentID == "" || !fault.Healthy?
    ensures e != null ==> fresh(e) && e.led == led && e.intent == intent && e.stage == Some(IntentCreated)
    ensures e != null ==>
              && e.orderID == intent.orderID && e.stopOrderID == intent.stopOrderID
              && e.exchangeOrderID == "" && e.trackingID == ""
    ensures var draft := Draft(intent, intent.orderID, intent.stopOrderID, "", "", IntentCreated, "", None);
            written == draft.(seqNo := written.seqNo)
    ensures Describes(written, intent) && written.stage == IntentCreated && written.error == ""
    ensures written.exitCode.None? && written.orderID == intent.orderID && written.stopOrderID == intent.stopOrderID
    ensures written.exchangeOrderID == "" && written.trackingID == ""
    ensures led.Log() == old(led.Log()) + (if intent.intentID == "" || fault.Lost() then [] else [written])
  {
    if intent.intentID == "" {
      return null, Draft(intent, intent.orderID, intent.stopOrderID, "", "", IntentCreated, "", None);
    }
    var entry := new Entry(led, intent);
    var ok;
    ok, written := entry.Write(IntentCreated, NO_RESULT, now, fault);
    e := if ok then entry else null;
  }
}
