/** Resolving unconfirmed stop-order intents by a full-field match, since stop orders
    carry no client key. */
module StopReconciling {
  import opened Wrappers
  import opened Journal
  import opened Ledgers
  import opened Lifecycles
  import opened Reconciling
  import Decimal
  import Placement

  type Quotation = Decimal.Quotation

  const TAKE_PROFIT := Enum(1)
  const TRAILING := Enum(2)
  const GOOD_TILL_CANCEL := Enum(1)
  const GOOD_TILL_DATE := Enum(2)
  const UNSPECIFIED := Enum(0)

  datatype TrailingData = TrailingData(indent: Option<Quotation>, indentType: EnumName, spread: Option<Quotation>,
                                       spreadType: EnumName)

  // A stop order as the broker lists it.
  datatype StopOrder = StopOrder(
    stopOrderID: string, instrument: string, direction: EnumName, orderType: EnumName, lots: int,
    stopPrice: Option<Quotation>, price: Option<Quotation>, expiration: Option<int>,
    exchangeOrderType: EnumName, takeProfitType: EnumName, trailing: Option<TrailingData>,
    createDate: Option<int>, status: string)

  datatype ListReply = Listed(orders: seq<StopOrder>) | ListFailed

  // ---- field matching ----

  // An unset amount reads as zero.
  predicate MoneyEqualsDecimal(m: Option<Quotation>, text: string) {
    if text == "" then m.None?
    else
      var q := Decimal.Parse(text);
      q.Some? && q.value == (if m.Some? then m.value else Decimal.Quotation(0, 0))
  }

  predicate QuotationEqualsDecimal(m: Option<Quotation>, text: string) {
    if text == "" then m.None? else m.Some? && Decimal.Parse(text) == m
  }

  predicate ExpirationMatches(s: StopOrder, p: StopDoc) {
    if p.expirationType == GOOD_TILL_CANCEL then p.expireDate.NoStamp? && s.expiration.None?
    else if p.expirationType == GOOD_TILL_DATE then p.expireDate.At? && s.expiration == Some(p.expireDate.t)
    else false
  }

  predicate TakeProfitMatches(s: StopOrder, p: StopDoc) {
    if p.stopType != TAKE_PROFIT then
      && p.exchangeOrderType.Unset? && p.takeProfitType.Unset?
      && s.exchangeOrderType == UNSPECIFIED && s.takeProfitType == UNSPECIFIED && s.trailing.None?
    else
      && s.exchangeOrderType == p.exchangeOrderType && s.takeProfitType == p.takeProfitType
      && if p.takeProfitType != TRAILING then s.trailing.None?
         else
           && s.trailing.Some?
           && QuotationEqualsDecimal(s.trailing.value.indent, p.trailingIndent)
           && s.trailing.value.indentType == p.trailingIndentType
           && QuotationEqualsDecimal(s.trailing.value.spread, p.trailingSpread)
           && s.trailing.value.spreadType == p.trailingSpreadType
  }

  predicate Matches(s: StopOrder, p: StopDoc) {
    && s.instrument == p.instrument && s.direction == p.direction
    && s.orderType == p.stopType && s.lots == p.quantity
    && MoneyEqualsDecimal(s.stopPrice, p.stopPrice)
    && MoneyEqualsDecimal(s.price, p.price)
    && ExpirationMatches(s, p)
    && TakeProfitMatches(s, p)
  }

  // A journaled price matches exactly when it parses to the broker's value, however it
  // is spelled.
  lemma PriceMatchesByValue(m: Quotation, text: string)
    requires m.Proper() && text != ""
    ensures MoneyEqualsDecimal(Some(m), text) <==>
              Decimal.Parse(text).Some? && Decimal.Parse(text).value.Value() == m.Value()
  {
    if Decimal.Parse(text).Some? {
      Decimal.ParseThenPrint(text);
      Decimal.ProperIsUnique(Decimal.Parse(text).value, m);
    }
  }

  predicate Supports(p: StopDoc) {
    && p.instrument != "" && !p.direction.Unset? && !p.stopType.Unset? && p.quantity > 0
    && p.stopPrice != "" && !p.expirationType.Unset? && p.createdAt.At?
    && (p.expirationType == GOOD_TILL_DATE ==> p.expireDate.At?)
    && (if p.stopType == TAKE_PROFIT then !p.exchangeOrderType.Unset? && !p.takeProfitType.Unset?
        else p.exchangeOrderType.Unset? && p.takeProfitType.Unset?)
    && (p.takeProfitType == TRAILING ==>
          p.trailingIndent != "" && !p.trailingIndentType.Unset? && p.trailingSpread != ""
              && !p.trailingSpreadType.Unset?)
  }

  const SKEW_NANOS := 5_000_000_000
  const WINDOW_NANOS := 120_000_000_000

  predicate CreationMatches(s: StopOrder, createdAt: Stamp) {
    && createdAt.At? && s.createDate.Some?
    && createdAt.t - SKEW_NANOS <= s.createDate.value <= createdAt.t + WINDOW_NANOS
  }

  function Matching(list: seq<StopOrder>, p: StopDoc): seq<StopOrder> {
    if list == [] then []
    else Matching(list[..|list|-1], p) + (if Matches(list[|list|-1], p) then [list[|list|-1]] else [])
  }

  method MatchStopOrders(list: seq<StopOrder>, p: StopDoc) returns (out: seq<StopOrder>)
    ensures out == Matching(list, p)
  {
    out := [];
    for i := 0 to |list|
      invariant out == Matching(list[..i], p)
    {
      assert list[..i+1][..i] == list[..i];
      if Matches(list[i], p) {
        out := out + [list[i]];
      }
    }
    assert list[..|list|] == list;
  }

  // ---- the decision for one entry ----

  // What one run remembers between entries: the ids already tied to an intent, and the
  // lists already fetched, both per account.
  datatype Memory = Memory(consumed: map<string, set<string>>, lists: map<string, seq<StopOrder>>)

  function Taken(m: Memory, account: string): set<string> {
    if account in m.consumed then m.consumed[account] else {}
  }

  // The entry is a stop-order placement of this target whose payload can be matched.
  predicate Eligible(e: Record, target: Target) {
    && e.kind == STOP_PLACE && TargetMismatch(e.profile, e.payload, target).None?
    && e.accountID != "" && e.orderID != ""
    && e.payload.stop.Some? && Supports(e.payload.stop.value)
  }

  function Fetched(e: Record, m: Memory, reply: ListReply): Option<seq<StopOrder>> {
    if e.accountID in m.lists then Some(m.lists[e.accountID])
    else if reply.Listed? then Some(reply.orders)
    else None
  }

  function DecideStop(e: Record, target: Target, m: Memory, reply: ListReply): Decision {
    if e.kind != STOP_PLACE then Leave(Foreign)
    else if TargetMismatch(e.profile, e.payload, target).Some? then
      Leave(TargetMismatch(e.profile, e.payload, target).value)
    else if !Eligible(e, target) then Leave(Indeterminate)
    else DecideListed(e, m, Fetched(e, m, reply))
  }

  function DecideListed(e: Record, m: Memory, list: Option<seq<StopOrder>>): Decision
    requires e.payload.stop.Some?
  {
    if list.None? then Leave(LookupError) else DecideMatch(e, m, Matching(list.value, e.payload.stop.value))
  }

  function DecideMatch(e: Record, m: Memory, matches: seq<StopOrder>): Decision
    requires e.payload.stop.Some?
  {
    if |matches| == 0 then
      if e.stage.IntentCreated? then CloseNotPlaced(NOT_PLACED_BEFORE_SEND) else Leave(Indeterminate)
    else if |matches| > 1 then Leave(Ambiguous)
    else if !CreationMatches(matches[0], e.payload.stop.value.createdAt) then Leave(StillUnresolved)
    else if matches[0].stopOrderID in Taken(m, e.accountID) then Leave(StillUnresolved)
    else
      var s := matches[0];
      Decision(PlacedOrder, Some(Result("", s.stopOrderID, "", "", None, "")), s.stopOrderID, s.status)
  }

  // The memory after the entry: the list it fetched, and the id it was tied to.
  function Remember(e: Record, target: Target, m: Memory, reply: ListReply): Memory {
    if !Eligible(e, target) then m
    else Remembered(e, m, Fetched(e, m, reply), DecideListed(e, m, Fetched(e, m, reply)))
  }

  function Remembered(e: Record, m: Memory, list: Option<seq<StopOrder>>, d: Decision): Memory {
    if list.None? then m
    else
      Memory(if d.verdict.PlacedOrder? then m.consumed[e.accountID := Taken(m, e.accountID) + {d.orderID}]
             else m.consumed,
             m.lists[e.accountID := list.value])
  }

  function ShownStop(e: Record, d: Decision, fault: Fault): View {
    View(e.intentID, d.verdict, d.orderID, d.lifecycle, d.close.Some? && !fault.Healthy?)
  }

  // ---- what an entry comes to, in terms of the request and of what the broker lists ----

  // The text gives the amount; without a text there is none.
  ghost predicate Gives(text: string, q: Option<Quotation>) {
    if text == "" then q.None? else q.Some? && Decimal.Spells(text, q.value)
  }

  // The same for a price, of which an unset one reads as zero.
  ghost predicate Prices(text: string, q: Option<Quotation>) {
    if text == "" then q.None?
    else Decimal.Spells(text, if q.Some? then q.value else Decimal.Quotation(0, 0))
  }

  // The listed order has every field of the request: one that expires does so at the
  // requested instant, and only a take-profit order has take-profit fields, only a trailing
  // one an indent and a spread.
  ghost predicate Echoes(s: StopOrder, p: StopDoc) {
    && s.instrument == p.instrument && s.lots == p.quantity
    && s.direction == p.direction && s.orderType == p.stopType
    && Prices(p.stopPrice, s.stopPrice) && Prices(p.price, s.price)
    && (|| (p.expirationType == Enum(1) && p.expireDate.NoStamp? && s.expiration.None?)
        || (p.expirationType == Enum(2) && p.expireDate.At? && s.expiration == Some(p.expireDate.t)))
    && (p.stopType != Enum(1) ==>
          && p.exchangeOrderType.Unset? && s.exchangeOrderType == Enum(0)
          && p.takeProfitType.Unset? && s.takeProfitType == Enum(0) && s.trailing.None?)
    && (p.stopType == Enum(1) ==>
          && s.exchangeOrderType == p.exchangeOrderType && s.takeProfitType == p.takeProfitType
          && (s.trailing.Some? <==> p.takeProfitType == Enum(2))
          && (s.trailing.Some? ==>
                && Gives(p.trailingIndent, s.trailing.value.indent) && Gives(p.trailingSpread, s.trailing.value.spread)
                && s.trailing.value.indentType == p.trailingIndentType
                && s.trailing.value.spreadType == p.trailingSpreadType))
  }

  // It was created from five seconds before the intent to two minutes after it.
  ghost predicate Timely(s: StopOrder, p: StopDoc) {
    && p.createdAt.At? && s.createDate.Some?
    && -5_000_000_000 <= s.createDate.value - p.createdAt.t <= 120_000_000_000
  }

  // Some field that the request needs is missing or unreadable, or one is there that
  // belongs to another type of order.
  predicate Deficient(p: StopDoc) {
    || p.instrument == "" || p.quantity <= 0 || p.stopPrice == ""
    || p.direction == Unset || p.stopType == Unset || p.expirationType == Unset
    || !p.createdAt.At? || (p.expirationType == Enum(2) && !p.expireDate.At?)
    || (p.stopType == Enum(1) && (p.exchangeOrderType == Unset || p.takeProfitType == Unset))
    || (p.stopType != Enum(1) && (p.exchangeOrderType != Unset || p.takeProfitType != Unset))
    || (p.takeProfitType == Enum(2) && (p.trailingIndent == "" || p.trailingSpread == ""
                                        || p.trailingIndentType == Unset || p.trailingSpreadType == Unset))
  }

  // A stop-order entry of the active profile and endpoint with what it takes to match it.
  predicate Matchable(e: Record, target: Target) {
    && e.kind == "stoporder.place" && OfTarget(e, target) && e.accountID != "" && e.orderID != ""
    && e.payload.stop.Some? && !Deficient(e.payload.stop.value)
  }

  lemma MatchesEchoes(s: StopOrder, p: StopDoc)
    ensures Matches(s, p) <==> Echoes(s, p)
  {
    PricesIff(s.stopPrice, p.stopPrice);
    PricesIff(s.price, p.price);
    if s.trailing.Some? {
      GivesIff(s.trailing.value.indent, p.trailingIndent);
      GivesIff(s.trailing.value.spread, p.trailingSpread);
    }
  }

  lemma PricesIff(q: Option<Quotation>, text: string)
    ensures MoneyEqualsDecimal(q, text) <==> Prices(text, q)
  {
    Decimal.SpellsIff(text, if q.Some? then q.value else Decimal.Quotation(0, 0));
  }

  lemma GivesIff(q: Option<Quotation>, text: string)
    ensures QuotationEqualsDecimal(q, text) <==> Gives(text, q)
  {
    if q.Some? {
      Decimal.SpellsIff(text, q.value);
    }
  }

  lemma EligibleMatchable(e: Record, target: Target)
    ensures Eligible(e, target) <==> Matchable(e, target)
  {}

  // Order i is the only one on the list that echoes the request.
  ghost predicate OnlyEcho(list: seq<StopOrder>, p: StopDoc, i: int) {
    0 <= i < |list| && Echoes(list[i], p) && forall j :: 0 <= j < |list| && j != i ==> !Echoes(list[j], p)
  }

  ghost predicate NoEcho(list: seq<StopOrder>, p: StopDoc) {
    forall j :: 0 <= j < |list| ==> !Echoes(list[j], p)
  }

  // How many matches there are, and which one it is when there is one.
  lemma {:induction false} MatchingEchoes(list: seq<StopOrder>, p: StopDoc)
    ensures |Matching(list, p)| == 0 <==> NoEcho(list, p)
    ensures |Matching(list, p)| == 1 <==> exists i :: OnlyEcho(list, p, i)
    ensures forall i :: OnlyEcho(list, p, i) ==> Matching(list, p) == [list[i]]
  {
    if list != [] {
      var n := |list| - 1;
      MatchingEchoes(list[..n], p);
      MatchesEchoes(list[n], p);
      EchoSnoc(list, p);
      if i :| OnlyEcho(list[..n], p, i) {
        assert OnlyEcho(list, p, i) <==> !Echoes(list[n], p);
      }
      assert OnlyEcho(list, p, n) <==> Echoes(list[n], p) && NoEcho(list[..n], p);
    }
  }

  lemma EchoSnoc(list: seq<StopOrder>, p: StopDoc)
    requires list != []
    ensures var n := |list| - 1;
            && (NoEcho(list, p) <==> NoEcho(list[..n], p) && !Echoes(list[n], p))
            && (forall i :: OnlyEcho(list, p, i) <==>
                  if i == n then Echoes(list[n], p) && NoEcho(list[..n], p)
                  else OnlyEcho(list[..n], p, i) && !Echoes(list[n], p))
  {
    assert forall j :: 0 <= j < |list| - 1 ==> list[j] == list[..|list|-1][j];
  }

  // A matchable entry is placed, as the order with id x, exactly when one order of the
  // account's list echoes its request, that one was created in time and has id x, and x is
  // not taken. Shown and journaled are x and that order's status.
  lemma PlacedStopExactly(e: Record, target: Target, m: Memory, reply: ListReply, x: string)
    ensures var d := DecideStop(e, target, m, reply);
            (d.verdict.PlacedOrder? && d.orderID == x) <==>
              Matchable(e, target) && exists list: seq<StopOrder>, i: int :: EchoIs(e, m, reply, list, i, x)
    ensures forall list: seq<StopOrder>, i: int :: Matchable(e, target) && EchoIs(e, m, reply, list, i, x) ==>
              DecideStop(e, target, m, reply) ==
                Decision(PlacedOrder, Some(Result("", x, "", "", None, "")), x, list[i].status)
  {
    var d := DecideStop(e, target, m, reply);
    EligibleMatchable(e, target);
    if Matchable(e, target) && Fetched(e, m, reply).Some? {
      var list, p := Fetched(e, m, reply).value, e.payload.stop.value;
      MatchingEchoes(list, p);
      if d.verdict.PlacedOrder? && d.orderID == x {
        var i :| OnlyEcho(list, p, i);
        assert EchoIs(e, m, reply, list, i, x);
      }
    }
  }

  ghost predicate EchoIs(e: Record, m: Memory, reply: ListReply, list: seq<StopOrder>, i: int, x: string) {
    && e.payload.stop.Some? && Fetched(e, m, reply) == Some(list)
    && OnlyEcho(list, e.payload.stop.value, i) && Timely(list[i], e.payload.stop.value)
    && list[i].stopOrderID == x && x !in Taken(m, e.accountID)
  }

  // Why any other entry is shown as it is; only one that was not sent as far as the journal
  // shows, and that no listed order echoes, is closed as not placed.
  lemma OtherStopsExactly(e: Record, target: Target, m: Memory, reply: ListReply)
    ensures var d, f := DecideStop(e, target, m, reply), Fetched(e, m, reply);
            && (d.verdict.Foreign? <==> e.kind != "stoporder.place")
            && (d.verdict.ProfileMismatch? <==>
                  && e.kind == "stoporder.place"
                  && (e.profile != target.profile
                      || (e.payload.endpoint.Some? && e.payload.endpoint.value !in {"", target.endpoint})))
            && (d.verdict.LookupError? <==> Matchable(e, target) && f.None?)
            && (d.verdict.NotPlaced? <==>
                  Matchable(e, target) && f.Some? && NoEcho(f.value, e.payload.stop.value) && e.stage.IntentCreated?)
            && (d.verdict.Indeterminate? <==>
                  && !d.verdict.Foreign? && !d.verdict.ProfileMismatch?
                  && (Matchable(e, target) ==>
                        f.Some? && NoEcho(f.value, e.payload.stop.value) && !e.stage.IntentCreated?))
            && (d.verdict.Ambiguous? <==>
                  && Matchable(e, target) && f.Some? && !NoEcho(f.value, e.payload.stop.value)
                  && forall i :: !OnlyEcho(f.value, e.payload.stop.value, i))
            && (d.close.Some? <==> d.verdict.PlacedOrder? || d.verdict.NotPlaced?)
            && (d.verdict.NotPlaced? ==> d.close == Some(Result("", "", "", "", None, "not-placed-before-send")))
            && (d.close.None? ==> d.orderID == "" && d.lifecycle == "")
  {
    EligibleMatchable(e, target);
    if Matchable(e, target) && Fetched(e, m, reply).Some? {
      MatchingEchoes(Fetched(e, m, reply).value, e.payload.stop.value);
    }
  }

  // The memory in front of entry n of a run.
  function MemoryAt(entries: seq<Record>, target: Target, start: Memory, ask: nat -> ListReply, n: nat): Memory
    requires n <= |entries|
  {
    if n == 0 then start
    else Remember(entries[n-1], target, MemoryAt(entries, target, start, ask, n - 1), ask(n - 1))
  }

  method ReconcileStopEntry(led: Ledger, e: Record, target: Target, m: Memory, reply: ListReply, now: nat, fault: Fault)
    returns (view: View, after: Memory)
    requires led.Valid() && led.AtLatestMonth(now)
    modifies led
    ensures led.Valid() && led.AtLatestMonth(now)
    ensures view == ShownStop(e, DecideStop(e, target, m, reply), fault) && after == Remember(e, target, m, reply)
    ensures Journals(old(led.Log()), led.Log(), e, DecideStop(e, target, m, reply), fault)
  {
    var entry := new Entry.FromRecord(led, e);
    var out := new Report(e.intentID);
    after := m;
    if entry.intent.kind != STOP_PLACE {
      out.verdict := Foreign;
      return out.ToView(), after;
    }
    var mismatch := TargetMismatch(entry.intent.profile, entry.intent.payload, target);
    if mismatch.Some? {
      out.verdict := mismatch.value;
      return out.ToView(), after;
    }
    if entry.intent.accountID == "" || entry.orderID == "" || entry.intent.payload.stop.None?
        || !Supports(entry.intent.payload.stop.value) {
      out.verdict := Indeterminate;
      return out.ToView(), after;
    }
    after := ResolveListed(out, entry, e, m, reply, now, fault);
    view := out.ToView();
  }

  // The account's list is fetched once in a run.
  method ResolveListed(out: Report, entry: Entry, e: Record, m: Memory, reply: ListReply, now: nat, fault: Fault)
    returns (after: Memory)
    requires entry.led.Valid() && entry.led.AtLatestMonth(now) && e.payload.stop.Some?
    requires entry.intent == IntentOf(e) && entry.orderID == e.orderID && entry.stopOrderID == e.stopOrderID
               && entry.stage == Some(e.stage)
    requires entry.exchangeOrderID == e.exchangeOrderID && entry.trackingID == e.trackingID
    requires out.orderID == "" && out.lifecycle == "" && !out.writeFailed
    modifies out, entry, entry.led
    ensures entry.led.Valid() && entry.led.AtLatestMonth(now) && out.intentID == old(out.intentID)
    ensures var d := DecideListed(e, m, Fetched(e, m, reply));
            && out.Shows(d, d.close.Some? && !fault.Healthy?)
            && after == Remembered(e, m, Fetched(e, m, reply), d)
            && Journals(old(entry.led.Log()), entry.led.Log(), e, d, fault)
  {
    after := m;
    var list: seq<StopOrder>;
    if e.accountID in after.lists {
      list := after.lists[e.accountID];
    } else {
      if reply.ListFailed? {
        out.verdict := LookupError;
        return;
      }
      list := reply.orders;
    }
    after := after.(lists := after.lists[e.accountID := list]);
    var matches := MatchStopOrders(list, e.payload.stop.value);
    var tied := ResolveByMatches(out, entry, e, m, matches, now, fault);
    if tied {
      after := after.(consumed := after.consumed[e.accountID := Taken(m, e.accountID) + {out.orderID}]);
    }
  }

  // Zero, one or several matches decide the entry; returns whether an id was tied to it.
  method ResolveByMatches(out: Report, entry: Entry, e: Record, m: Memory, matches: seq<StopOrder>, now: nat,
                          fault: Fault)
    returns (tied: bool)
    requires entry.led.Valid() && entry.led.AtLatestMonth(now) && e.payload.stop.Some?
    requires entry.intent == IntentOf(e) && entry.orderID == e.orderID && entry.stopOrderID == e.stopOrderID
               && entry.stage == Some(e.stage)
    requires entry.exchangeOrderID == e.exchangeOrderID && entry.trackingID == e.trackingID
    requires out.orderID == "" && out.lifecycle == "" && !out.writeFailed
    modifies out, entry, entry.led
    ensures entry.led.Valid() && entry.led.AtLatestMonth(now) && out.intentID == old(out.intentID)
    ensures var d := DecideMatch(e, m, matches);
            && out.Shows(d, d.close.Some? && !fault.Healthy?) && tied == d.verdict.PlacedOrder?
            && Journals(old(entry.led.Log()), entry.led.Log(), e, d, fault)
  {
    tied := false;
    if |matches| == 0 {
      if entry.stage == Some(IntentCreated) {
        out.verdict := NotPlaced;
        RecordReconciled(out, entry, e, NO_RESULT.(error := NOT_PLACED_BEFORE_SEND), now, fault);
      } else {
        out.verdict := Indeterminate;
      }
    } else if |matches| == 1 {
      var id := matches[0].stopOrderID;
      if !CreationMatches(matches[0], e.payload.stop.value.createdAt) {
        out.verdict := StillUnresolved;
      } else if id in Taken(m, e.accountID) {
        out.verdict := StillUnresolved;
      } else {
        tied := true;
        out.verdict, out.orderID, out.lifecycle := PlacedOrder, id, matches[0].status;
        RecordReconciled(out, entry, e, NO_RESULT.(stopOrderID := id), now, fault);
      }
    } else {
      out.verdict := Ambiguous;
    }
  }

  // ---- a whole run, with other processes writing meanwhile ----

  // What a run meets: the replies it gets and the faults of its writes, entry by entry, and
  // what other processes append between its two scans and before each entry is decided.
  datatype Round = Round(target: Target, ask: nat -> ListReply, fault: nat -> Fault,
                         early: seq<Record>, rivals: nat -> seq<Record>)

  // One run over every reported entry. The journal must be free of corrupt lines: they
  // could hide an unresolved intent or an earlier assignment.
  method ReconcileStopFlow(led: Ledger, round: Round, months: nat -> nat)
    returns (views: Option<seq<View>>, ghost entries: seq<Record>, ghost logs: seq<seq<Record>>, ghost start: Memory)
    requires led.Valid() && led.AtLatestMonth(months(0)) && Forward(months)
    modifies led
    ensures led.Valid() && led.AtLatestMonth(months(|entries|))
    ensures views.None? <==> !old(led.AllGood())
    ensures views.None? ==> led.Log() == old(led.Log())
    ensures views.Some? ==> StopRun(old(led.Log()), led.Log(), logs, entries, round, start)
    ensures views.Some? ==> |views.value| == |entries| && Viewed(views.value, entries, round, start)
    ensures views.Some? ==> forall k :: 0 <= k < |entries| ==> StopTold(views.value, logs, entries, round, k)
    ensures views.Some? && SafeJournal(old(led.Log())) && Rivalrous(round) ==> SafeJournal(led.Log())
  {
    ghost var before := led.Log();
    logs, start := [before], Memory(map[], map[]);
    var todo, corrupt := led.Unresolved();
    entries := todo;
    assert months(0) <= months(|entries|);
    if corrupt != 0 {
      return None, entries, logs, start;
    }
    led.Others(round.early, months(0));
    var history := led.AssignedStopOrderIDs(STOP_PLACE);
    if history.None? {
      return None, entries, logs, start;
    }
    start := Memory(history.value, map[]);
    var done;
    done, logs := SweepStops(led, todo, round, Memory(history.value, map[]), months);
    views := Some(done);
    forall k | 0 <= k < |entries| ensures StopTold(done, logs, entries, round, k) {
      RunTells(done, before, led.Log(), logs, entries, round, start, k);
    }
    if SafeJournal(before) && Rivalrous(round) {
      RunIsSafe(before, led.Log(), logs, entries, round, start);
    }
  }

  method SweepStops(led: Ledger, todo: seq<Record>, round: Round, start: Memory, months: nat -> nat)
    returns (done: seq<View>, ghost logs: seq<seq<Record>>)
    requires led.Valid() && led.AtLatestMonth(months(0)) && Forward(months)
    modifies led
    ensures led.Valid() && led.AtLatestMonth(months(|todo|))
    ensures |done| == |todo| && Stepped(logs, todo, round, start, |todo|)
    ensures logs[0] == old(led.Log()) && logs[|todo|] == led.Log()
    ensures Viewed(done, todo, round, start)
  {
    done, logs := [], [led.Log()];
    var m := start;
    for i := 0 to |todo|
      invariant led.Valid() && led.AtLatestMonth(months(i))
      invariant |done| == i && Stepped(logs, todo, round, start, i)
      invariant logs[0] == old(led.Log()) && logs[i] == led.Log()
      invariant m == MemoryAt(todo, round.target, start, round.ask, i)
      invariant Viewed(done, todo, round, start)
    {
      var view;
      ghost var was := logs;
      led.Others(round.rivals(i), months(i));
      view, m := ReconcileStopEntry(led, todo[i], round.target, m, round.ask(i), months(i), round.fault(i));
      assert months(i) <= months(i + 1);
      logs := logs + [led.Log()];
      SteppedSnoc(was, led.Log(), todo, round, start, i);
      ViewedSnoc(done, view, todo, round, start);
      done := done + [view];
    }
  }

  ghost predicate Viewed(done: seq<View>, entries: seq<Record>, round: Round, start: Memory) {
    |done| <= |entries| && forall k :: 0 <= k < |done| ==> done[k] == StopView(entries, round, start, k)
  }

  lemma ViewedSnoc(done: seq<View>, view: View, entries: seq<Record>, round: Round, start: Memory)
    requires Viewed(done, entries, round, start) && |done| < |entries|
    requires view == StopView(entries, round, start, |done|)
    ensures Viewed(done + [view], entries, round, start)
  {}

  lemma SteppedSnoc(logs: seq<seq<Record>>, log: seq<Record>, entries: seq<Record>, round: Round, start: Memory, n: nat)
    requires n < |entries| && Stepped(logs, entries, round, start, n)
    requires StopStep(logs[n], log, entries, round, start, n)
    ensures Stepped(logs + [log], entries, round, start, n + 1)
  {}

  function DecisionAt(entries: seq<Record>, round: Round, start: Memory, k: nat): Decision
    requires k < |entries|
  {
    DecideStop(entries[k], round.target, MemoryAt(entries, round.target, start, round.ask, k), round.ask(k))
  }

  function StopView(entries: seq<Record>, round: Round, start: Memory, k: nat): View
    requires k < |entries|
  {
    ShownStop(entries[k], DecisionAt(entries, round, start, k), round.fault(k))
  }

  ghost predicate Stepped(logs: seq<seq<Record>>, entries: seq<Record>, round: Round, start: Memory, n: nat)
    requires n <= |entries|
  {
    && |logs| == n + 1
    && forall k :: 0 <= k < n ==> StopStep(logs[k], logs[k+1], entries, round, start, k)
  }

  // Other processes append first; then the entry is decided and what that allows is written.
  ghost predicate StopStep(before: seq<Record>, after: seq<Record>, entries: seq<Record>, round: Round, start: Memory,
                           k: nat)
    requires k < |entries|
  {
    Journals(before + round.rivals(k), after, entries[k], DecisionAt(entries, round, start, k), round.fault(k))
  }

  // A run from the journal it scans for entries to the one it leaves: logs holds the journal
  // it scans for assigned ids, and the one after each entry.
  ghost predicate StopRun(scanned: seq<Record>, left: seq<Record>, logs: seq<seq<Record>>, entries: seq<Record>,
                          round: Round, start: Memory)
  {
    && Stepped(logs, entries, round, start, |entries|)
    && logs[0] == scanned + round.early && logs[|entries|] == left
    && (forall k :: 0 <= k < |entries| ==> Speaks(scanned, entries[k]))
    && (forall id :: Reported(scanned, id) ==> Has(entries, id)) && Distinct(entries)
    && Consumes(start.consumed, logs[0], STOP_PLACE) && start.lists == map[]
  }

  // ---- what a whole run tells, in the same terms ----

  // The list that entry k is judged by: the first answer to a call for its account, which is
  // made for the first of the account's entries whose call succeeds.
  ghost predicate Judged(entries: seq<Record>, round: Round, k: nat, list: seq<StopOrder>)
    requires k < |entries|
  {
    exists j: nat :: j <= k && FirstFor(entries, round, j, entries[k].accountID, list)
  }

  ghost predicate AsksOf(entries: seq<Record>, round: Round, j: nat, account: string)
    requires j < |entries|
  {
    Matchable(entries[j], round.target) && entries[j].accountID == account
  }

  ghost predicate FirstFor(entries: seq<Record>, round: Round, j: nat, account: string, list: seq<StopOrder>)
    requires j < |entries|
  {
    && AsksOf(entries, round, j, account) && round.ask(j) == ListReply.Listed(list)
    && forall i: nat :: i < j && AsksOf(entries, round, i, account) ==> round.ask(i).ListFailed?
  }

  // A successful record of the account names the stop order.
  ghost predicate Assigned(log: seq<Record>, account: string, x: string) {
    exists i :: 0 <= i < |log| && log[i].kind == "stoporder.place" && log[i].accountID == account
                && log[i].stopOrderID == x != "" && (log[i].stage.BrokerConfirmed? || log[i].stage.Reconciled?)
  }

  predicate ShowsPlaced(v: View, x: string) {
    v.verdict.PlacedOrder? && v.orderID == x
  }

  // The id is free: no record of the journal names it, and no earlier entry was shown it.
  ghost predicate Free(views: seq<View>, log: seq<Record>, entries: seq<Record>, k: nat, x: string)
    requires k < |entries| == |views|
  {
    && !Assigned(log, entries[k].accountID, x)
    && forall j :: 0 <= j < k && entries[j].accountID == entries[k].accountID ==> !ShowsPlaced(views[j], x)
  }

  // What the run shows of entry k, and journals.
  ghost predicate StopTold(views: seq<View>, logs: seq<seq<Record>>, entries: seq<Record>, round: Round, k: nat)
    requires k < |entries| == |views| && |logs| == |entries| + 1
  {
    var e, v := entries[k], views[k];
    && v.intentID == e.intentID
    && (forall x :: ShowsPlaced(v, x) <==>
          && Matchable(e, round.target)
          && exists list: seq<StopOrder>, i: int :: TellsOf(views, logs[0], entries, round, k, list, i, x))
    && (v.verdict.PlacedOrder? ==> StopTies(logs[k] + round.rivals(k), logs[k+1], e, v.orderID, round.fault(k)))
    && (v.verdict.PlacedOrder? ==> v.writeFailed == !round.fault(k).Healthy?)
  }

  ghost predicate TellsOf(views: seq<View>, log: seq<Record>, entries: seq<Record>, round: Round, k: nat,
                          list: seq<StopOrder>, i: int, x: string)
    requires k < |entries| == |views|
  {
    && entries[k].payload.stop.Some? && Judged(entries, round, k, list)
    && OnlyEcho(list, entries[k].payload.stop.value, i) && Timely(list[i], entries[k].payload.stop.value)
    && list[i].stopOrderID == x && list[i].status == views[k].lifecycle && Free(views, log, entries, k, x)
  }

  // The record of a tied entry: everything of the entry, and the stop order's id.
  ghost predicate StopTies(before: seq<Record>, after: seq<Record>, e: Record, x: string, fault: Fault) {
    if fault.Refused? || fault.Unwritten? then after == before
    else |after| == |before| + 1 && before <= after && StopConfirms(after[|before|], e, x)
  }

  predicate StopConfirms(r: Record, e: Record, x: string) {
    && r.stage.Reconciled? && r.intentID == e.intentID && r.kind == e.kind && r.accountID == e.accountID
    && r.profile == e.profile && r.attempt == e.attempt && r.payload == e.payload
    && r.stopOrderID == (if x == "" then e.stopOrderID else x)
    && r.orderID == e.orderID && r.trackingID == e.trackingID && r.exchangeOrderID == e.exchangeOrderID
    && r.error == "" && r.exitCode.None?
  }

  lemma {:induction false} MemoryLists(entries: seq<Record>, round: Round, start: Memory, n: nat, account: string)
    requires n <= |entries| && start.lists == map[]
    ensures var m := MemoryAt(entries, round.target, start, round.ask, n);
            && (account !in m.lists ==>
                  forall j: nat :: j < n && AsksOf(entries, round, j, account) ==> round.ask(j).ListFailed?)
            && (account in m.lists ==> exists j: nat :: j < n && FirstFor(entries, round, j, account, m.lists[account]))
  {
    if n > 0 {
      var e, m := entries[n-1], MemoryAt(entries, round.target, start, round.ask, n - 1);
      MemoryLists(entries, round, start, n - 1, account);
      EligibleMatchable(e, round.target);
      if account !in m.lists && AsksOf(entries, round, n - 1, account) && round.ask(n-1).Listed? {
        assert FirstFor(entries, round, n - 1, account, round.ask(n-1).orders);
      }
    }
  }

  // The list that the memory and the reply give for an entry is the one it is judged by.
  lemma FetchedIsJudged(entries: seq<Record>, round: Round, start: Memory, k: nat, list: seq<StopOrder>)
    requires k < |entries| && start.lists == map[] && Matchable(entries[k], round.target)
    ensures Fetched(entries[k], MemoryAt(entries, round.target, start, round.ask, k), round.ask(k)) == Some(list) <==>
              Judged(entries, round, k, list)
  {
    var m, account := MemoryAt(entries, round.target, start, round.ask, k), entries[k].accountID;
    MemoryLists(entries, round, start, k, account);
    if account in m.lists {
      var j: nat :| j < k && FirstFor(entries, round, j, account, m.lists[account]);
      OneFirst(entries, round, account, j, m.lists[account]);
    } else if round.ask(k).Listed? {
      assert FirstFor(entries, round, k, account, round.ask(k).orders);
      OneFirst(entries, round, account, k, round.ask(k).orders);
    }
  }

  lemma OneFirst(entries: seq<Record>, round: Round, account: string, j: nat, list: seq<StopOrder>)
    requires j < |entries| && FirstFor(entries, round, j, account, list)
    ensures forall i: nat, other ::
              i < |entries| && FirstFor(entries, round, i, account, other) ==> i == j && other == list
  {}

  lemma {:induction false} MemoryTaken(entries: seq<Record>, round: Round, start: Memory, n: nat, account: string,
                                       x: string)
    requires n <= |entries|
    ensures x in Taken(MemoryAt(entries, round.target, start, round.ask, n), account) <==>
              x in Taken(start, account) || exists j: nat :: j < n && TiesAt(entries, round, start, j, account, x)
  {
    if n > 0 {
      MemoryTaken(entries, round, start, n - 1, account, x);
      var e, m := entries[n-1], MemoryAt(entries, round.target, start, round.ask, n - 1);
      TakenMore(e, round.target, m, round.ask(n-1), account, x);
      var last: nat := n - 1;
      assert TiesAt(entries, round, start, last, account, x) <==>
             e.accountID == account && ShowsPlaced(StopView(entries, round, start, last), x);
    }
  }

  ghost predicate TiesAt(entries: seq<Record>, round: Round, start: Memory, j: nat, account: string, x: string)
    requires j < |entries|
  {
    entries[j].accountID == account && ShowsPlaced(StopView(entries, round, start, j), x)
  }

  lemma TakenMore(e: Record, target: Target, m: Memory, reply: ListReply, account: string, x: string)
    ensures x in Taken(Remember(e, target, m, reply), account) <==>
              || x in Taken(m, account)
              || (e.accountID == account && DecideStop(e, target, m, reply).verdict.PlacedOrder?
                  && DecideStop(e, target, m, reply).orderID == x)
  {}

  lemma AssignedIff(log: seq<Record>, account: string, x: string)
    requires account != ""
    ensures Assigned(log, account, x) <==> AssignedIn(log, STOP_PLACE, account, x)
  {
    if Assigned(log, account, x) {
      var i :| 0 <= i < |log| && log[i].kind == "stoporder.place" && log[i].accountID == account
               && log[i].stopOrderID == x != "" && (log[i].stage.BrokerConfirmed? || log[i].stage.Reconciled?);
      assert Assigns(log[i], STOP_PLACE);
    }
  }

  // An id is free exactly when the memory does not have it.
  lemma FreeIff(views: seq<View>, log: seq<Record>, entries: seq<Record>, round: Round, start: Memory, k: nat,
                x: string)
    requires k < |entries| == |views| && Viewed(views, entries, round, start)
    requires Consumes(start.consumed, log, STOP_PLACE) && entries[k].accountID != ""
    ensures Free(views, log, entries, k, x) <==>
              x !in Taken(MemoryAt(entries, round.target, start, round.ask, k), entries[k].accountID)
  {
    var account := entries[k].accountID;
    AssignedIff(log, account, x);
    MemoryTaken(entries, round, start, k, account, x);
    forall j: nat | j < k ensures TiesAt(entries, round, start, j, account, x) <==>
                                  entries[j].accountID == account && ShowsPlaced(views[j], x) {}
  }

  lemma ViewTells(views: seq<View>, logs: seq<seq<Record>>, entries: seq<Record>, round: Round, start: Memory, k: nat,
                  x: string)
    requires k < |entries| == |views| && |logs| == |entries| + 1 && Viewed(views, entries, round, start)
    requires Consumes(start.consumed, logs[0], STOP_PLACE) && start.lists == map[]
    ensures ShowsPlaced(views[k], x) <==>
              Matchable(entries[k], round.target)
              && exists list: seq<StopOrder>, i: int :: TellsOf(views, logs[0], entries, round, k, list, i, x)
  {
    var e, m := entries[k], MemoryAt(entries, round.target, start, round.ask, k);
    PlacedStopExactly(e, round.target, m, round.ask(k), x);
    assert views[k] == StopView(entries, round, start, k);
    if Matchable(e, round.target) {
      FreeIff(views, logs[0], entries, round, start, k, x);
      if ShowsPlaced(views[k], x) {
        var list: seq<StopOrder>, i: int :| EchoIs(e, m, round.ask(k), list, i, x);
        FetchedIsJudged(entries, round, start, k, list);
        assert TellsOf(views, logs[0], entries, round, k, list, i, x);
      }
      if list: seq<StopOrder>, i: int :| TellsOf(views, logs[0], entries, round, k, list, i, x) {
        FetchedIsJudged(entries, round, start, k, list);
        assert EchoIs(e, m, round.ask(k), list, i, x);
      }
    }
  }

  // Every entry of a run is shown as placed exactly when its account's list has one order
  // that echoes it, created in time and free, and is journaled as that order.
  lemma RunTells(views: seq<View>, scanned: seq<Record>, left: seq<Record>, logs: seq<seq<Record>>,
                 entries: seq<Record>, round: Round, start: Memory, k: nat)
    requires StopRun(scanned, left, logs, entries, round, start) && k < |entries| == |views|
    requires Viewed(views, entries, round, start)
    ensures StopTold(views, logs, entries, round, k)
  {
    forall x ensures ShowsPlaced(views[k], x) <==>
                       && Matchable(entries[k], round.target)
                       && exists list: seq<StopOrder>, i: int ::
                            TellsOf(views, logs[0], entries, round, k, list, i, x) {
      ViewTells(views, logs, entries, round, start, k, x);
    }
    assert StopStep(logs[k], logs[k+1], entries, round, start, k) && views[k] == StopView(entries, round, start, k);
    TiedRecord(logs[k] + round.rivals(k), logs[k+1], entries[k], round.target,
               MemoryAt(entries, round.target, start, round.ask, k), round.ask(k), round.fault(k));
  }

  lemma TiedRecord(before: seq<Record>, after: seq<Record>, e: Record, target: Target, m: Memory, reply: ListReply,
                   fault: Fault)
    requires Journals(before, after, e, DecideStop(e, target, m, reply), fault)
    ensures var d := DecideStop(e, target, m, reply);
            d.verdict.PlacedOrder? ==> d.close.Some? && StopTies(before, after, e, d.orderID, fault)
  {}

  // ---- no stop order is tied to two intents ----

  // Stop placements carry no stop-order id before they are answered.
  ghost predicate StagesUnnamed(log: seq<Record>) {
    forall i :: 0 <= i < |log| ==> Unnamed(log[i])
  }

  predicate Unnamed(r: Record) {
    r.kind == STOP_PLACE && !Closing(r.stage) ==> r.stopOrderID == ""
  }

  // Both are successful stop placements of one account that name one stop order.
  predicate SameStop(a: Record, b: Record) {
    Assigns(a, STOP_PLACE) && Assigns(b, STOP_PLACE) && a.accountID == b.accountID && a.stopOrderID == b.stopOrderID
  }

  // No stop order is named by two reconciled records of its account.
  ghost predicate TiedOnce(log: seq<Record>) {
    forall i, j :: 0 <= i < j < |log| && log[i].stage.Reconciled? && log[j].stage.Reconciled? ==>
        !SameStop(log[i], log[j])
  }

  ghost predicate SafeJournal(log: seq<Record>) {
    StagesUnnamed(log) && TiedOnce(log)
  }

  // The record ties a stop order of an account to a stop placement.
  predicate Names(r: Record, stage: Stage) {
    r.kind == "stoporder.place" && r.stage == stage && r.accountID != "" && r.stopOrderID != ""
  }

  lemma TiedOnceMeans(log: seq<Record>)
    ensures TiedOnce(log) <==>
            forall i, j | 0 <= i < j < |log| && Names(log[i], Reconciled) && Names(log[j], Reconciled)
                          && log[i].accountID == log[j].accountID
              :: log[i].stopOrderID != log[j].stopOrderID
  {}

  lemma NotAfterMeans(log: seq<Record>)
    ensures NotAfterConfirmed(log) <==>
            forall i, j | 0 <= i < j < |log| && Names(log[i], BrokerConfirmed) && Names(log[j], Reconciled)
                          && log[i].accountID == log[j].accountID
              :: log[i].stopOrderID != log[j].stopOrderID
  {}

  // What any other process may append: anything but a reconciled record of a stop placement.
  predicate Rival(r: Record) {
    !(r.kind == STOP_PLACE && r.stage.Reconciled?) && Unnamed(r)
  }

  predicate AllRivals(records: seq<Record>) {
    forall i :: 0 <= i < |records| ==> Rival(records[i])
  }

  ghost predicate Rivalrous(round: Round) {
    AllRivals(round.early) && forall k: nat :: AllRivals(round.rivals(k))
  }

  lemma RivalsKeep(log: seq<Record>, records: seq<Record>)
    requires SafeJournal(log) && AllRivals(records)
    ensures SafeJournal(log + records)
  {
    var after := log + records;
    forall i | |log| <= i < |after| ensures Rival(after[i]) {
      assert after[i] == records[i - |log|];
    }
  }

  // All the records of one stop placement are such: its journaled stages name no stop order
  // before it is confirmed, and none of them is a reconciled one.
  lemma StopPlacementIsRival(records: seq<Record>, intent: Intent)
    requires |records| <= 3 && intent.stopOrderID == ""
    requires |records| >= 1 ==> Placement.Writes(records[0], intent, IntentCreated)
    requires |records| >= 2 ==> Placement.Writes(records[1], intent, SendStarted)
    requires |records| == 3 ==>
               || Placement.Writes(records[2], intent, BrokerConfirmed)
               || Placement.Writes(records[2], intent, BrokerRejected)
    requires |records| >= 1 ==> records[0].stopOrderID == intent.stopOrderID
    requires |records| >= 2 ==> records[1].stopOrderID == intent.stopOrderID
    ensures AllRivals(records)
  {}

  // Every id that a reconciled record names is in the memory, and every id that any
  // successful record named when the run read its history.
  ghost predicate Remembers(m: Memory, log: seq<Record>, n: nat) {
    forall i :: 0 <= i < |log| && Assigns(log[i], STOP_PLACE) && (i < n || log[i].stage.Reconciled?) ==>
      log[i].stopOrderID in Taken(m, log[i].accountID)
  }

  // The id, if any, that deciding an entry ties to it in the journal.
  function TiedID(d: Decision, fault: Fault): string {
    if d.verdict.PlacedOrder? && !fault.Lost() then d.orderID else ""
  }

  // What deciding an entry appends: nothing, or one reconciled record of it naming that id.
  lemma EntryAppends(log: seq<Record>, after: seq<Record>, e: Record, target: Target, m: Memory, reply: ListReply,
                     fault: Fault)
    requires e.kind == STOP_PLACE ==> e.stopOrderID == ""
    requires Journals(log, after, e, DecideStop(e, target, m, reply), fault)
    ensures var d := DecideStop(e, target, m, reply);
            if d.close.None? || fault.Lost() then after == log && TiedID(d, fault) == ""
            else
              && |after| == |log| + 1 && after[..|log|] == log
              && var r := after[|log|];
                 && r.stage.Reconciled? && r.kind == e.kind == STOP_PLACE && r.accountID == e.accountID != ""
                 && r.stopOrderID == TiedID(d, fault)
                 && (r.stopOrderID != "" ==> r.stopOrderID !in Taken(m, e.accountID))
  {}

  lemma RememberMore(e: Record, target: Target, m: Memory, reply: ListReply)
    ensures forall a, id :: id in Taken(m, a) ==> id in Taken(Remember(e, target, m, reply), a)
    ensures DecideStop(e, target, m, reply).verdict.PlacedOrder? ==>
              DecideStop(e, target, m, reply).orderID in Taken(Remember(e, target, m, reply), e.accountID)
  {}

  lemma SafeSnoc(log: seq<Record>, r: Record, m: Memory, m': Memory, n: nat)
    requires SafeJournal(log) && Remembers(m, log, n) && n <= |log| && r.stage.Reconciled?
    requires r.stopOrderID != "" ==> r.stopOrderID !in Taken(m, r.accountID) && r.stopOrderID in Taken(m', r.accountID)
    requires forall a, id :: id in Taken(m, a) ==> id in Taken(m', a)
    ensures SafeJournal(log + [r]) && Remembers(m', log + [r], n)
  {}

  // One entry keeps the journal safe: an id is written only when the memory does not have it.
  lemma EntryKeeps(log: seq<Record>, after: seq<Record>, e: Record, target: Target, m: Memory, reply: ListReply,
                   fault: Fault, n: nat)
    requires SafeJournal(log) && Remembers(m, log, n) && n <= |log|
    requires e.kind == STOP_PLACE ==> e.stopOrderID == ""
    requires Journals(log, after, e, DecideStop(e, target, m, reply), fault)
    ensures SafeJournal(after) && Remembers(Remember(e, target, m, reply), after, n) && log <= after
  {
    EntryAppends(log, after, e, target, m, reply, fault);
    RememberMore(e, target, m, reply);
    if after != log {
      assert after == log + [after[|log|]];
      SafeSnoc(log, after[|log|], m, Remember(e, target, m, reply), n);
    }
  }

  lemma ScanRemembers(m: Memory, log: seq<Record>)
    requires Consumes(m.consumed, log, STOP_PLACE)
    ensures Remembers(m, log, |log|)
  {
    forall i | 0 <= i < |log| && Assigns(log[i], STOP_PLACE) ensures log[i].stopOrderID in Taken(m, log[i].accountID) {
      assert AssignedIn(log, STOP_PLACE, log[i].accountID, log[i].stopOrderID);
    }
  }

  // What is known of the journal in front of entry k of a run.
  ghost predicate SafeSoFar(logs: seq<seq<Record>>, entries: seq<Record>, round: Round, start: Memory, k: nat)
    requires k <= |entries| && |logs| == |entries| + 1
  {
    && SafeJournal(logs[k]) && logs[0] <= logs[k]
    && Remembers(MemoryAt(entries, round.target, start, round.ask, k), logs[k], |logs[0]|)
  }

  lemma NextIsSafe(scanned: seq<Record>, left: seq<Record>, logs: seq<seq<Record>>, entries: seq<Record>, round: Round,
                   start: Memory, k: nat)
    requires StagesUnnamed(scanned) && StopRun(scanned, left, logs, entries, round, start) && Rivalrous(round)
    requires k < |entries| && SafeSoFar(logs, entries, round, start, k)
    ensures SafeSoFar(logs, entries, round, start, k + 1) && logs[k] + round.rivals(k) <= logs[k+1]
  {
    var e := entries[k];
    var m := MemoryAt(entries, round.target, start, round.ask, k);
    assert Speaks(scanned, e) && StopStep(logs[k], logs[k+1], entries, round, start, k);
    RepresentativeIsOpen(scanned, e.intentID, e);
    assert AllRivals(round.rivals(k));
    RivalsKeep(logs[k], round.rivals(k));
    RivalsForgotten(m, logs[k], round.rivals(k), |logs[0]|);
    EntryKeeps(logs[k] + round.rivals(k), logs[k+1], e, round.target, m, round.ask(k), round.fault(k), |logs[0]|);
  }

  // What others append during the run needs no remembering.
  lemma RivalsForgotten(m: Memory, log: seq<Record>, records: seq<Record>, n: nat)
    requires Remembers(m, log, n) && n <= |log| && AllRivals(records)
    ensures Remembers(m, log + records, n)
  {
    var after := log + records;
    forall i | |log| <= i < |after| ensures Rival(after[i]) {
      assert after[i] == records[i - |log|];
    }
  }

  lemma {:induction false} SafeAllAlong(scanned: seq<Record>, left: seq<Record>, logs: seq<seq<Record>>,
                                        entries: seq<Record>, round: Round, start: Memory, k: nat)
    requires SafeJournal(scanned) && StopRun(scanned, left, logs, entries, round, start) && Rivalrous(round)
    requires k <= |entries|
    ensures SafeSoFar(logs, entries, round, start, k)
  {
    if k == 0 {
      RivalsKeep(scanned, round.early);
      ScanRemembers(start, logs[0]);
    } else {
      SafeAllAlong(scanned, left, logs, entries, round, start, k - 1);
      NextIsSafe(scanned, left, logs, entries, round, start, k - 1);
    }
  }

  // A whole run keeps the journal safe, whatever other processes append meanwhile.
  lemma RunIsSafe(scanned: seq<Record>, left: seq<Record>, logs: seq<seq<Record>>, entries: seq<Record>, round: Round,
                  start: Memory)
    requires SafeJournal(scanned) && StopRun(scanned, left, logs, entries, round, start) && Rivalrous(round)
    ensures SafeJournal(left)
    ensures forall i, j | 0 <= i < j < |left| && Names(left[i], Reconciled) && Names(left[j], Reconciled)
                          && left[i].accountID == left[j].accountID
              :: left[i].stopOrderID != left[j].stopOrderID
  {
    SafeAllAlong(scanned, left, logs, entries, round, start, |entries|);
    TiedOnceMeans(left);
  }

  // ---- whole histories ----

  // A record of some placement, or a whole run with what others append during it.
  datatype Deed = Other(r: Record) | Swept(logs: seq<seq<Record>>, entries: seq<Record>, round: Round, start: Memory)

  ghost predicate Done(before: seq<Record>, after: seq<Record>, deed: Deed) {
    match deed
    case Other(r) => Rival(r) && after == before + [r]
    case Swept(logs, entries, round, start) => Rivalrous(round) && StopRun(before, after, logs, entries, round, start)
  }

  // The journals of a history that starts empty; runs do not overlap one another.
  ghost predicate History(journals: seq<seq<Record>>, deeds: seq<Deed>) {
    && |journals| == |deeds| + 1 && journals[0] == []
    && forall k :: 0 <= k < |deeds| ==> Done(journals[k], journals[k+1], deeds[k])
  }

  // Over every history of placements and runs, no stop-order id of an account is ever
  // written by two reconciled records.
  lemma {:induction false} HistoryTiesOnce(journals: seq<seq<Record>>, deeds: seq<Deed>, k: nat)
    requires History(journals, deeds) && k <= |deeds|
    ensures SafeJournal(journals[k])
    ensures var log := journals[k];
            forall i, j | 0 <= i < j < |log| && Names(log[i], Reconciled) && Names(log[j], Reconciled)
                          && log[i].accountID == log[j].accountID
              :: log[i].stopOrderID != log[j].stopOrderID
  {
    TiedOnceMeans(journals[k]);
    if k > 0 {
      HistoryTiesOnce(journals, deeds, k - 1);
      assert Done(journals[k-1], journals[k-1+1], deeds[k-1]);
      match deeds[k-1] {
        case Other(r) => RivalsKeep(journals[k-1], [r]);
        case Swept(logs, entries, round, start) => RunIsSafe(journals[k-1], journals[k], logs, entries, round, start);
      }
    }
  }

  // ---- confirmed first, reconciled later ----

  // No reconciled record names a stop order that an earlier confirmed one named.
  ghost predicate NotAfterConfirmed(log: seq<Record>) {
    forall i, j :: 0 <= i < j < |log| && log[i].stage.BrokerConfirmed? && log[j].stage.Reconciled? ==>
        !SameStop(log[i], log[j])
  }

  // A confirmation of the stop order is among the records from position n on.
  ghost predicate ConfirmedSince(log: seq<Record>, n: nat, account: string, id: string) {
    exists i :: n <= i < |log| && Confirms(log[i], account, id)
  }

  predicate Confirms(r: Record, account: string, id: string) {
    r.stage.BrokerConfirmed? && Assigns(r, STOP_PLACE) && r.accountID == account && r.stopOrderID == id
  }

  // Entry k is tied to a stop order whose own confirmation has landed since the run read
  // its history.
  ghost predicate TiedLate(logs: seq<seq<Record>>, entries: seq<Record>, round: Round, start: Memory, k: nat)
    requires k < |entries| && |logs| == |entries| + 1
  {
    var id := TiedID(DecisionAt(entries, round, start, k), round.fault(k));
    id != "" && ConfirmedSince(logs[k] + round.rivals(k), |logs[0]|, entries[k].accountID, id)
  }

  ghost predicate LateFree(logs: seq<seq<Record>>, entries: seq<Record>, round: Round, start: Memory, n: nat)
    requires n <= |entries| && |logs| == |entries| + 1
  {
    forall k :: 0 <= k < n ==> !TiedLate(logs, entries, round, start, k)
  }

  lemma LateFreeSnoc(logs: seq<seq<Record>>, entries: seq<Record>, round: Round, start: Memory, n: nat)
    requires 0 < n <= |entries| && |logs| == |entries| + 1
    ensures LateFree(logs, entries, round, start, n) <==>
              LateFree(logs, entries, round, start, n - 1) && !TiedLate(logs, entries, round, start, n - 1)
  {}

  lemma RivalsNotAfter(log: seq<Record>, records: seq<Record>)
    requires AllRivals(records)
    ensures NotAfterConfirmed(log + records) <==> NotAfterConfirmed(log)
  {
    var after := log + records;
    forall i | |log| <= i < |after| ensures Rival(after[i]) {
      assert after[i] == records[i - |log|];
    }
    if NotAfterConfirmed(after) {
      assert forall i :: 0 <= i < |log| ==> after[i] == log[i];
    }
  }

  // One more record: it must not name what was confirmed before.
  lemma SnocNotAfter(log: seq<Record>, r: Record)
    requires r.stage.Reconciled?
    ensures NotAfterConfirmed(log + [r]) <==>
              NotAfterConfirmed(log) && !(Assigns(r, STOP_PLACE) && ConfirmedSince(log, 0, r.accountID, r.stopOrderID))
  {
    var after := log + [r];
    assert forall i :: 0 <= i < |log| ==> after[i] == log[i];
    if Assigns(r, STOP_PLACE) && ConfirmedSince(log, 0, r.accountID, r.stopOrderID) {
      var i :| 0 <= i < |log| && Confirms(log[i], r.accountID, r.stopOrderID);
      assert SameStop(after[i], after[|log|]);
    }
    if NotAfterConfirmed(log) && !NotAfterConfirmed(after) {
      var i, j :| 0 <= i < j < |after| && after[i].stage.BrokerConfirmed? && after[j].stage.Reconciled?
          && SameStop(after[i], after[j]);
      assert j == |log| && Confirms(log[i], r.accountID, r.stopOrderID);
    }
  }

  lemma EntryNotAfterIff(log: seq<Record>, after: seq<Record>, e: Record, target: Target, m: Memory, reply: ListReply,
                         fault: Fault, n: nat)
    requires Remembers(m, log, n) && n <= |log| && (e.kind == STOP_PLACE ==> e.stopOrderID == "")
    requires Journals(log, after, e, DecideStop(e, target, m, reply), fault)
    ensures var id := TiedID(DecideStop(e, target, m, reply), fault);
            NotAfterConfirmed(after) <==>
                NotAfterConfirmed(log) && !(id != "" && ConfirmedSince(log, n, e.accountID, id))
  {
    EntryAppends(log, after, e, target, m, reply, fault);
    if after != log {
      var r := after[|log|];
      assert after == log + [r];
      SnocNotAfter(log, r);
      if r.stopOrderID != "" {
        SinceTheScan(log, m, n, r.accountID, r.stopOrderID);
      }
    }
  }

  // An id the memory does not have was not confirmed before the run read its history.
  lemma SinceTheScan(log: seq<Record>, m: Memory, n: nat, account: string, id: string)
    requires Remembers(m, log, n) && n <= |log| && id !in Taken(m, account)
    ensures ConfirmedSince(log, 0, account, id) <==> ConfirmedSince(log, n, account, id)
  {
    if ConfirmedSince(log, 0, account, id) {
      var i :| 0 <= i < |log| && Confirms(log[i], account, id);
      assert i >= n;
    }
  }

  lemma NextNotAfterIff(scanned: seq<Record>, left: seq<Record>, logs: seq<seq<Record>>, entries: seq<Record>,
                        round: Round, start: Memory, k: nat)
    requires StagesUnnamed(scanned) && StopRun(scanned, left, logs, entries, round, start) && Rivalrous(round)
    requires k < |entries| && SafeSoFar(logs, entries, round, start, k)
    ensures TurnsAt(logs, entries, round, start, k)
  {
    var e := entries[k];
    var m := MemoryAt(entries, round.target, start, round.ask, k);
    assert Speaks(scanned, e) && StopStep(logs[k], logs[k+1], entries, round, start, k);
    RepresentativeIsOpen(scanned, e.intentID, e);
    assert AllRivals(round.rivals(k));
    RivalsNotAfter(logs[k], round.rivals(k));
    RivalsForgotten(m, logs[k], round.rivals(k), |logs[0]|);
    EntryNotAfterIff(logs[k] + round.rivals(k), logs[k+1], e, round.target, m, round.ask(k), round.fault(k), |logs[0]|);
  }

  ghost predicate TurnsAt(logs: seq<seq<Record>>, entries: seq<Record>, round: Round, start: Memory, k: nat)
    requires k < |entries| && |logs| == |entries| + 1
  {
    NotAfterConfirmed(logs[k+1]) <==> NotAfterConfirmed(logs[k]) && !TiedLate(logs, entries, round, start, k)
  }

  lemma {:induction false} TurnsChain(logs: seq<seq<Record>>, entries: seq<Record>, round: Round, start: Memory, n: nat)
    requires |logs| == |entries| + 1 && n <= |entries| && NotAfterConfirmed(logs[0])
    requires forall k :: 0 <= k < n ==> TurnsAt(logs, entries, round, start, k)
    ensures NotAfterConfirmed(logs[n]) <==> LateFree(logs, entries, round, start, n)
  {
    if n > 0 {
      TurnsChain(logs, entries, round, start, n - 1);
      assert TurnsAt(logs, entries, round, start, n - 1);
      LateFreeSnoc(logs, entries, round, start, n);
    }
  }

  // A run names a stop order after its own confirmation exactly when that confirmation
  // landed between the run's reading of the history and its write.
  lemma RunNotAfterIff(scanned: seq<Record>, left: seq<Record>, logs: seq<seq<Record>>, entries: seq<Record>,
                       round: Round, start: Memory)
    requires SafeJournal(scanned) && StopRun(scanned, left, logs, entries, round, start) && Rivalrous(round)
    requires NotAfterConfirmed(scanned)
    ensures NotAfterConfirmed(left) <==> LateFree(logs, entries, round, start, |entries|)
  {
    RivalsNotAfter(scanned, round.early);
    forall k | 0 <= k < |entries| ensures TurnsAt(logs, entries, round, start, k) {
      SafeAllAlong(scanned, left, logs, entries, round, start, k);
      NextNotAfterIff(scanned, left, logs, entries, round, start, k);
    }
    TurnsChain(logs, entries, round, start, |entries|);
  }

  ghost predicate NeverLate(deed: Deed) {
    deed.Swept? && |deed.logs| == |deed.entries| + 1 ==>
      LateFree(deed.logs, deed.entries, deed.round, deed.start, |deed.entries|)
  }

  // Over every history: no reconciled record names a stop order after its confirmation
  // exactly when no run ever tied one whose confirmation landed during that run.
  lemma {:induction false} HistoryNotAfterIff(journals: seq<seq<Record>>, deeds: seq<Deed>, k: nat)
    requires History(journals, deeds) && k <= |deeds|
    ensures NotAfterConfirmed(journals[k]) <==> forall d :: 0 <= d < k ==> NeverLate(deeds[d])
  {
    if k > 0 {
      var before, after := journals[k-1], journals[k-1+1];
      HistoryNotAfterIff(journals, deeds, k - 1);
      HistoryTiesOnce(journals, deeds, k - 1);
      assert Done(before, after, deeds[k-1]);
      match deeds[k-1] {
        case Other(r) =>
          RivalsNotAfter(before, [r]);
        case Swept(logs, entries, round, start) =>
          SweptNotAfterIff(before, after, logs, entries, round, start);
      }
    }
  }

  lemma SweptNotAfterIff(before: seq<Record>, after: seq<Record>, logs: seq<seq<Record>>, entries: seq<Record>,
                         round: Round, start: Memory)
    requires SafeJournal(before) && StopRun(before, after, logs, entries, round, start) && Rivalrous(round)
    ensures NotAfterConfirmed(after) <==> NotAfterConfirmed(before) && LateFree(logs, entries, round, start, |entries|)
  {
    RivalsNotAfter(before, round.early);
    RunGrows(logs, entries, round, start, |entries|);
    PrefixNotAfter(logs[0], after);
    if NotAfterConfirmed(before) {
      RunNotAfterIff(before, after, logs, entries, round, start);
    }
  }

  lemma PrefixNotAfter(log: seq<Record>, after: seq<Record>)
    requires log <= after
    ensures NotAfterConfirmed(after) ==> NotAfterConfirmed(log)
  {
    assert forall i :: 0 <= i < |log| ==> after[i] == log[i];
  }

  // A step appends what others wrote and at most one record of its own, a reconciled one.
  lemma StepGrows(before: seq<Record>, after: seq<Record>, entries: seq<Record>, round: Round, start: Memory, k: nat)
    requires k < |entries| && StopStep(before, after, entries, round, start, k)
    ensures var log := before + round.rivals(k);
            log <= after && |after| <= |log| + 1 && (|after| > |log| ==> after[|log|].stage.Reconciled?)
  {}

  lemma {:induction false} RunGrows(logs: seq<seq<Record>>, entries: seq<Record>, round: Round, start: Memory, n: nat)
    requires Stepped(logs, entries, round, start, |entries|) && n <= |entries|
    ensures logs[0] <= logs[n]
  {
    if n > 0 {
      RunGrows(logs, entries, round, start, n - 1);
      assert StopStep(logs[n-1], logs[n-1+1], entries, round, start, n - 1);
      StepGrows(logs[n-1], logs[n], entries, round, start, n - 1);
    }
  }

  predicate IsConfirmation(r: Record) {
    r.kind == STOP_PLACE && r.stage.BrokerConfirmed?
  }

  ghost predicate QuietFrom(log: seq<Record>, n: nat) {
    forall i :: n <= i < |log| ==> !IsConfirmation(log[i])
  }

  ghost predicate QuietRound(round: Round) {
    forall k: nat :: QuietFrom(round.rivals(k), 0)
  }

  // A run during which no confirmation of a stop placement lands is never late.
  lemma QuietRunsAreNeverLate(before: seq<Record>, after: seq<Record>, deed: Deed)
    requires Done(before, after, deed) && (deed.Swept? ==> QuietRound(deed.round))
    ensures NeverLate(deed)
  {
    if deed.Swept? {
      forall k | 0 <= k < |deed.entries| ensures !TiedLate(deed.logs, deed.entries, deed.round, deed.start, k) {
        QuietSoFar(deed.logs, deed.entries, deed.round, deed.start, k);
        QuietSum(deed.logs[k], deed.round.rivals(k), |deed.logs[0]|);
      }
    }
  }

  // So a caller that keeps stop placements from being confirmed during any run keeps every
  // history free of orders tied after their confirmation.
  lemma QuietHistoriesAreSafe(journals: seq<seq<Record>>, deeds: seq<Deed>)
    requires History(journals, deeds)
    requires forall d :: 0 <= d < |deeds| && deeds[d].Swept? ==> QuietRound(deeds[d].round)
    ensures NotAfterConfirmed(journals[|deeds|])
  {
    forall d | 0 <= d < |deeds| ensures NeverLate(deeds[d]) {
      assert Done(journals[d], journals[d+1], deeds[d]);
      QuietRunsAreNeverLate(journals[d], journals[d+1], deeds[d]);
    }
    HistoryNotAfterIff(journals, deeds, |deeds|);
  }

  lemma QuietSum(log: seq<Record>, records: seq<Record>, n: nat)
    requires QuietFrom(log, n) && QuietFrom(records, 0) && n <= |log|
    ensures QuietFrom(log + records, n)
  {}

  // Such a run appends no confirmation itself either.
  lemma {:induction false} QuietSoFar(logs: seq<seq<Record>>, entries: seq<Record>, round: Round, start: Memory, n: nat)
    requires Stepped(logs, entries, round, start, |entries|) && n <= |entries| && QuietRound(round)
    ensures |logs[0]| <= |logs[n]| && QuietFrom(logs[n], |logs[0]|) && QuietFrom(round.rivals(n), 0)
  {
    if n > 0 {
      var k := n - 1;
      QuietSoFar(logs, entries, round, start, k);
      assert StopStep(logs[k], logs[k+1], entries, round, start, k);
      StepGrows(logs[k], logs[n], entries, round, start, k);
      QuietSum(logs[k], round.rivals(k), |logs[0]|);
      QuietSnoc(logs[k] + round.rivals(k), logs[n], |logs[0]|);
    }
  }

  lemma QuietSnoc(log: seq<Record>, after: seq<Record>, n: nat)
    requires QuietFrom(log, n) && log <= after && |after| <= |log| + 1
    requires |after| > |log| ==> after[|log|].stage.Reconciled?
    ensures QuietFrom(after, n)
  {}

  // ---- one run amid anything, other reconcile runs included ----

  // Another process named the stop order while the run was on, before its n-th entry.
  ghost predicate NamedByOthers(round: Round, n: nat, account: string, id: string) {
    exists j: nat :: j < n && AssignedIn(round.rivals(j), STOP_PLACE, account, id)
  }

  // Entry k is tied to a stop order that the journal already names.
  ghost predicate TiesAgain(logs: seq<seq<Record>>, entries: seq<Record>, round: Round, start: Memory, k: nat)
    requires k < |entries| && |logs| == |entries| + 1
  {
    var id := TiedID(DecisionAt(entries, round, start, k), round.fault(k));
    id != "" && AssignedIn(logs[k] + round.rivals(k), STOP_PLACE, entries[k].accountID, id)
  }

  // What the journal names is in the memory, or others named it since the run read it.
  ghost predicate Explains(m: Memory, log: seq<Record>, round: Round, n: nat) {
    forall account, id :: AssignedIn(log, STOP_PLACE, account, id) ==>
      id in Taken(m, account) || NamedByOthers(round, n, account, id)
  }

  lemma AssignedInSum(a: seq<Record>, b: seq<Record>, account: string, id: string)
    ensures AssignedIn(a + b, STOP_PLACE, account, id) <==>
              AssignedIn(a, STOP_PLACE, account, id) || AssignedIn(b, STOP_PLACE, account, id)
  {
    var log := a + b;
    assert forall i :: 0 <= i < |a| ==> log[i] == a[i];
    assert forall i :: 0 <= i < |b| ==> log[|a| + i] == b[i];
    assert forall i :: |a| <= i < |log| ==> log[i] == b[i - |a|];
  }

  lemma NamedByMore(round: Round, n: nat, account: string, id: string)
    ensures NamedByOthers(round, n + 1, account, id) <==>
              NamedByOthers(round, n, account, id) || AssignedIn(round.rivals(n), STOP_PLACE, account, id)
  {}

  lemma EntryExplains(before: seq<Record>, after: seq<Record>, e: Record, m: Memory, round: Round, n: nat)
    requires e.kind == STOP_PLACE ==> e.stopOrderID == ""
    requires Explains(m, before, round, n)
    requires Journals(before + round.rivals(n), after, e, DecideStop(e, round.target, m, round.ask(n)), round.fault(n))
    ensures Explains(Remember(e, round.target, m, round.ask(n)), after, round, n + 1)
  {
    var log, m' := before + round.rivals(n), Remember(e, round.target, m, round.ask(n));
    EntryAppends(log, after, e, round.target, m, round.ask(n), round.fault(n));
    RememberMore(e, round.target, m, round.ask(n));
    forall account, id | AssignedIn(after, STOP_PLACE, account, id)
      ensures id in Taken(m', account) || NamedByOthers(round, n + 1, account, id) {
      AssignedInSum(before, round.rivals(n), account, id);
      NamedByMore(round, n, account, id);
      if after != log {
        assert after == log + [after[|log|]];
        AssignedInSum(log, [after[|log|]], account, id);
      }
    }
  }

  lemma {:induction false} RunExplains(scanned: seq<Record>, left: seq<Record>, logs: seq<seq<Record>>,
                                       entries: seq<Record>, round: Round, start: Memory, k: nat)
    requires StagesUnnamed(scanned) && StopRun(scanned, left, logs, entries, round, start) && k <= |entries|
    ensures Explains(MemoryAt(entries, round.target, start, round.ask, k), logs[k], round, k)
  {
    if k == 0 {
      ScanRemembers(start, logs[0]);
    } else {
      var n := k - 1;
      RunExplains(scanned, left, logs, entries, round, start, n);
      var e, m := entries[n], MemoryAt(entries, round.target, start, round.ask, n);
      assert Speaks(scanned, e) && StopStep(logs[n], logs[n+1], entries, round, start, n);
      RepresentativeIsOpen(scanned, e.intentID, e);
      EntryExplains(logs[n], logs[k], e, m, round, n);
    }
  }

  // What others append stays in the journal.
  lemma {:induction false} OthersStay(logs: seq<seq<Record>>, entries: seq<Record>, round: Round, start: Memory, n: nat,
                                      account: string, id: string)
    requires Stepped(logs, entries, round, start, |entries|) && n <= |entries|
    requires NamedByOthers(round, n, account, id)
    ensures AssignedIn(logs[n], STOP_PLACE, account, id)
  {
    var k := n - 1;
    assert StopStep(logs[k], logs[k+1], entries, round, start, k);
    StepGrows(logs[k], logs[n], entries, round, start, k);
    NamedByMore(round, k, account, id);
    if NamedByOthers(round, k, account, id) {
      OthersStay(logs, entries, round, start, k, account, id);
    }
    AssignedInSum(logs[k], round.rivals(k), account, id);
    AssignedInSum(logs[k] + round.rivals(k), logs[n][|logs[k] + round.rivals(k)|..], account, id);
    assert logs[n] == logs[k] + round.rivals(k) + logs[n][|logs[k] + round.rivals(k)|..];
  }

  // Whatever other processes append, overlapping reconcile runs included: a run ties a stop
  // order that a successful record already names exactly when another process wrote such a
  // record during the run.
  lemma TiesAgainIff(scanned: seq<Record>, left: seq<Record>, logs: seq<seq<Record>>, entries: seq<Record>,
                     round: Round, start: Memory, k: nat)
    requires StagesUnnamed(scanned) && StopRun(scanned, left, logs, entries, round, start) && k < |entries|
    ensures var id := TiedID(DecisionAt(entries, round, start, k), round.fault(k));
            TiesAgain(logs, entries, round, start, k) <==>
              id != "" && NamedByOthers(round, k + 1, entries[k].accountID, id)
  {
    var e, m := entries[k], MemoryAt(entries, round.target, start, round.ask, k);
    var id := TiedID(DecisionAt(entries, round, start, k), round.fault(k));
    assert Speaks(scanned, e) && StopStep(logs[k], logs[k+1], entries, round, start, k);
    RepresentativeIsOpen(scanned, e.intentID, e);
    EntryAppends(logs[k] + round.rivals(k), logs[k+1], e, round.target, m, round.ask(k), round.fault(k));
    RunExplains(scanned, left, logs, entries, round, start, k);
    AssignedInSum(logs[k], round.rivals(k), e.accountID, id);
    NamedByMore(round, k, e.accountID, id);
    if NamedByOthers(round, k, e.accountID, id) {
      OthersStay(logs, entries, round, start, k, e.accountID, id);
    }
  }

  // What one reply ties an entry to, when the run remembers nothing.
  function TiedAlone(e: Record, target: Target, reply: ListReply): string {
    TiedID(DecideStop(e, target, Memory(map[], map[]), reply), Healthy)
  }

  function Confirmation(e: Record, id: string): Record {
    e.(stage := BrokerConfirmed, stopOrderID := id)
  }

  // The placement of e confirms the stop order just before the run decides e.
  function Crossed(e: Record, target: Target, reply: ListReply): Round {
    var id := TiedAlone(e, target, reply);
    Round(target, _ => reply, _ => Healthy, [], (k: nat) => if k == 0 then [Confirmation(e, id)] else [])
  }

  function CrossedJournal(e: Record, id: string): seq<Record> {
    [e.(stage := IntentCreated), e, Confirmation(e, id), Reconciliation(e, NO_RESULT.(stopOrderID := id))]
  }

  // The condition cannot be dropped: for every sent intent and every reply that ties it, its
  // own placement may confirm the order while the run is on, and the run then ties it again.
  lemma ConfirmationMayLandDuringRun(e: Record, target: Target, reply: ListReply)
    requires e.stage.SendStarted? && e.stopOrderID == "" && TiedAlone(e, target, reply) != ""
    ensures var scanned, left := [e.(stage := IntentCreated), e], CrossedJournal(e, TiedAlone(e, target, reply));
            && Done(scanned, left, Swept([scanned, left], [e], Crossed(e, target, reply), Memory(map[], map[])))
            && NotAfterConfirmed(scanned) && !NotAfterConfirmed(left)
  {
    var id := TiedAlone(e, target, reply);
    var scanned, left := [e.(stage := IntentCreated), e], CrossedJournal(e, id);
    TiesByResult(e, target, Memory(map[], map[]), reply);
    CrossedRun(e, id, scanned, left, Crossed(e, target, reply));
    CrossedOrder(e, id, left);
  }

  lemma TiesByResult(e: Record, target: Target, m: Memory, reply: ListReply)
    requires DecideStop(e, target, m, reply).verdict.PlacedOrder?
    ensures var d := DecideStop(e, target, m, reply); d.close == Some(NO_RESULT.(stopOrderID := d.orderID))
    ensures e.kind == STOP_PLACE && e.accountID != ""
  {}

  lemma CrossedOrder(e: Record, id: string, left: seq<Record>)
    requires e.kind == STOP_PLACE && e.accountID != "" && e.stopOrderID == "" && id != ""
    requires left == CrossedJournal(e, id)
    ensures !NotAfterConfirmed(left)
  {
    assert SameStop(left[2], left[3]) && left[2].stage.BrokerConfirmed? && left[3].stage.Reconciled?;
  }

  lemma CrossedRun(e: Record, id: string, scanned: seq<Record>, left: seq<Record>, round: Round)
    requires e.stage.SendStarted? && e.stopOrderID == "" && id != ""
    requires scanned == [e.(stage := IntentCreated), e] && left == CrossedJournal(e, id)
    requires round.early == [] && round.rivals(0) == [left[2]] && round.fault(0) == Healthy
    requires DecideStop(e, round.target, Memory(map[], map[]), round.ask(0)).close ==
             Some(NO_RESULT.(stopOrderID := id))
    ensures StopRun(scanned, left, [scanned, left], [e], round, Memory(map[], map[]))
  {
    OnlyReported(scanned[0], e);
    assert left == (scanned + round.rivals(0)) + [left[3]];
    ClosesWith(scanned + round.rivals(0), left, e, DecisionAt([e], round, Memory(map[], map[]), 0),
               NO_RESULT.(stopOrderID := id));
    OneEntryRun(scanned, left, e, round);
  }

  lemma ClosesWith(before: seq<Record>, after: seq<Record>, e: Record, d: Decision, res: Result)
    requires d.close == Some(res) && after == before + [Reconciliation(e, res)]
    ensures Journals(before, after, e, d, Healthy)
  {}

  // A run over one entry, on a journal that names no stop order yet.
  lemma OneEntryRun(scanned: seq<Record>, left: seq<Record>, e: Record, round: Round)
    requires Speaks(scanned, e) && forall id :: Reported(scanned, id) ==> id == e.intentID
    requires StopStep(scanned, left, [e], round, Memory(map[], map[]), 0) && round.early == []
    requires forall i :: 0 <= i < |scanned| ==> !Assigns(scanned[i], STOP_PLACE)
    ensures StopRun(scanned, left, [scanned, left], [e], round, Memory(map[], map[]))
  {
    assert scanned + round.early == scanned;
    assert [e][0].intentID == e.intentID;
  }

  // A journal of one sent intent reports that intent, by its last record, and no other.
  lemma OnlyReported(created: Record, sent: Record)
    requires created.stage.IntentCreated? && sent.stage.SendStarted? && created.intentID == sent.intentID
    ensures Speaks([created, sent], sent)
    ensures forall id :: Reported([created, sent], id) ==> id == sent.intentID
  {
    var log := [created, sent];
    assert IsLast(log, sent.intentID, 1) && IsLastOpen(log, sent.intentID, 1);
  }

  // ---- the order of the broker's list does not matter ----

  lemma {:induction false} MatchingCounts(list: seq<StopOrder>, p: StopDoc, s: StopOrder)
    ensures multiset(Matching(list, p))[s] == if Matches(s, p) then multiset(list)[s] else 0
  {
    if list != [] {
      var n := |list| - 1;
      MatchingCounts(list[..n], p, s);
      assert list == list[..n] + [list[n]];
      CountsSnoc(list[..n], Matching(list[..n], p), list[n], Matches(list[n], p), s, Matches(s, p));
    }
  }

  lemma CountsSnoc(list: seq<StopOrder>, out: seq<StopOrder>, last: StopOrder, hit: bool, s: StopOrder, counted: bool)
    requires multiset(out)[s] == if counted then multiset(list)[s] else 0
    requires s == last ==> counted == hit
    ensures multiset(out + if hit then [last] else [])[s] == if counted then multiset(list + [last])[s] else 0
  {}

  lemma MatchingPermuted(a: seq<StopOrder>, b: seq<StopOrder>, p: StopDoc)
    requires multiset(a) == multiset(b)
    ensures multiset(Matching(a, p)) == multiset(Matching(b, p))
    ensures |Matching(a, p)| == |Matching(b, p)|
    ensures |Matching(a, p)| == 1 ==> Matching(a, p) == Matching(b, p)
  {
    var x, y := Matching(a, p), Matching(b, p);
    forall s ensures multiset(x)[s] == multiset(y)[s] {
      MatchingCounts(a, p, s);
      MatchingCounts(b, p, s);
    }
    assert multiset(x) == multiset(y);
    assert |x| == |multiset(x)| && |y| == |multiset(y)|;
    if |x| == 1 {
      assert x[0] in multiset(x) && x[0] in multiset(y);
      assert x == [x[0]] && y == [y[0]];
    }
  }

  // Replies and remembered lists that agree up to order.
  ghost predicate SameReply(a: ListReply, b: ListReply) {
    if a.Listed? && b.Listed? then multiset(a.orders) == multiset(b.orders) else a == b
  }

  ghost predicate SameMemory(a: Memory, b: Memory) {
    && a.consumed == b.consumed && a.lists.Keys == b.lists.Keys
    && forall k :: k in a.lists ==> multiset(a.lists[k]) == multiset(b.lists[k])
  }

  lemma DecidedAlike(e: Record, m: Memory, m': Memory, x: seq<StopOrder>, y: seq<StopOrder>)
    requires e.payload.stop.Some? && m.consumed == m'.consumed
    requires |x| == |y| && (|x| == 1 ==> x == y)
    ensures DecideMatch(e, m, x) == DecideMatch(e, m', y)
  {}

  lemma DecisionPermuted(e: Record, target: Target, m: Memory, m': Memory, a: ListReply, b: ListReply)
    requires SameMemory(m, m') && SameReply(a, b)
    ensures DecideStop(e, target, m, a) == DecideStop(e, target, m', b)
  {
    var x, y := Fetched(e, m, a), Fetched(e, m', b);
    assert x.Some? <==> y.Some?;
    if Eligible(e, target) && x.Some? {
      MatchingPermuted(x.value, y.value, e.payload.stop.value);
      DecidedAlike(e, m, m', Matching(x.value, e.payload.stop.value), Matching(y.value, e.payload.stop.value));
    }
  }

  lemma EntryPermuted(e: Record, target: Target, m: Memory, m': Memory, a: ListReply, b: ListReply)
    requires SameMemory(m, m') && SameReply(a, b)
    ensures DecideStop(e, target, m, a) == DecideStop(e, target, m', b)
    ensures SameMemory(Remember(e, target, m, a), Remember(e, target, m', b))
  {
    DecisionPermuted(e, target, m, m', a, b);
    var x, y := Fetched(e, m, a), Fetched(e, m', b);
    if Eligible(e, target) && x.Some? {
      var d := DecideStop(e, target, m, a);
      var c := if d.verdict.PlacedOrder? then m.consumed[e.accountID := Taken(m, e.accountID) + {d.orderID}]
               else m.consumed;
      RememberedAlike(m, m', c, e.accountID, x.value, y.value);
      assert Remember(e, target, m, a) == Memory(c, m.lists[e.accountID := x.value]);
      assert Remember(e, target, m', b) == Memory(c, m'.lists[e.accountID := y.value]);
    }
  }

  lemma RememberedAlike(m: Memory, m': Memory, c: map<string, set<string>>, account: string, x: seq<StopOrder>,
                        y: seq<StopOrder>)
    requires SameMemory(m, m') && multiset(x) == multiset(y)
    ensures SameMemory(Memory(c, m.lists[account := x]), Memory(c, m'.lists[account := y]))
  {}

  // Permuting any of the broker's lists changes no outcome of a run.
  lemma {:induction false} RunPermuted(entries: seq<Record>, target: Target, start: Memory, ask: nat -> ListReply,
                                       other: nat -> ListReply, n: nat)
    requires n < |entries| && forall k: nat :: SameReply(ask(k), other(k))
    ensures SameMemory(MemoryAt(entries, target, start, ask, n), MemoryAt(entries, target, start, other, n))
    ensures DecideStop(entries[n], target, MemoryAt(entries, target, start, ask, n), ask(n))
            == DecideStop(entries[n], target, MemoryAt(entries, target, start, other, n), other(n))
  {
    var m, m' := MemoryAt(entries, target, start, ask, n), MemoryAt(entries, target, start, other, n);
    if n > 0 {
      RunPermuted(entries, target, start, ask, other, n - 1);
      var p, p' := MemoryAt(entries, target, start, ask, n - 1), MemoryAt(entries, target, start, other, n - 1);
      assert SameReply(ask(n - 1), other(n - 1));
      EntryPermuted(entries[n-1], target, p, p', ask(n - 1), other(n - 1));
      assert m == Remember(entries[n-1], target, p, ask(n - 1));
      assert m' == Remember(entries[n-1], target, p', other(n - 1));
    }
    assert SameReply(ask(n), other(n));
    EntryPermuted(entries[n], target, m, m', ask(n), other(n));
  }
}
