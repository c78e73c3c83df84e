/** Per-call wire observations shared by every retry attempt of one call. */
module Transport {
  import opened Wrappers

  datatype Phase = NotSent | SentUnconfirmed | Confirmed

  // Response metadata of interest; reset is the rate-limit header when it parses
  // as an integer.
  datatype Metadata = Metadata(tracking: Option<string>, message: Option<string>, reset: Option<int>)

  datatype Event = Begin | OutPayload | InHeader(md: Metadata) | InTrailer(md: Metadata) | End(ok: bool) | Other

  // ---- what a whole event history means ----

  ghost predicate EverSent(trace: seq<Event>) {
    exists i :: 0 <= i < |trace| && trace[i].OutPayload?
  }

  // A server trailer or an error-free end is the only definitive answer.
  predicate Confirms(e: Event) {
    e.InTrailer? || (e.End? && e.ok)
  }

  // Position i belongs to the final attempt: no later Begin.
  ghost predicate InFinal(trace: seq<Event>, i: int) {
    0 <= i < |trace| && forall j :: i < j < |trace| ==> !trace[j].Begin?
  }

  ghost predicate FinalConfirmed(trace: seq<Event>) {
    exists i :: InFinal(trace, i) && Confirms(trace[i])
  }

  function Tracking(e: Event): Option<string> {
    if e.InHeader? || e.InTrailer? then e.md.tracking else None
  }

  function Message(e: Event): Option<string> {
    if e.InHeader? || e.InTrailer? then e.md.message else None
  }

  function Reset(e: Event): Option<int> {
    if (e.InHeader? || e.InTrailer?) && e.md.reset.Some? && e.md.reset.value >= 0 then e.md.reset else None
  }

  // v is what the last event of the span captured, or the zero value when none did.
  ghost predicate LastCapture<T>(trace: seq<Event>, get: Event -> Option<T>, zero: T, v: T) {
    || (exists i :: 0 <= i < |trace| && get(trace[i]) == Some(v) && forall j :: i < j < |trace| ==> get(trace[j]).None?)
    || (v == zero && forall i :: 0 <= i < |trace| ==> get(trace[i]).None?)
  }

  // The tracking id identifies the attempt whose outcome is reported.
  ghost predicate FinalTracking(trace: seq<Event>, v: string) {
    || (exists i :: InFinal(trace, i) && Tracking(trace[i]) == Some(v)
                    && forall j :: i < j < |trace| ==> Tracking(trace[j]).None?)
    || (v == "" && forall i :: InFinal(trace, i) ==> Tracking(trace[i]).None?)
  }

  ghost function PhaseOf(trace: seq<Event>): Phase {
    if FinalConfirmed(trace) then Confirmed
    else if EverSent(trace) then SentUnconfirmed
    else NotSent
  }

  // What is kept of a call, in terms of its whole event history.
  ghost predicate Summarises(trace: seq<Event>, sent: bool, confirmed: bool, tracking: string, message: string,
                             retryAfter: int)
  {
    && sent == EverSent(trace)
    && confirmed == FinalConfirmed(trace)
    && FinalTracking(trace, tracking)
    && LastCapture(trace, Message, "", message)
    && LastCapture(trace, Reset, 0, retryAfter)
  }

  // ---- the same without the terms above ----

  // Captured by the trailer or header at position i.
  predicate CapturedAt(trace: seq<Event>, i: int)
  {
    0 <= i < |trace| && (trace[i].InHeader? || trace[i].InTrailer?)
  }

  lemma PhaseExactly(trace: seq<Event>)
    ensures PhaseOf(trace) == Confirmed <==>
            exists i :: 0 <= i < |trace| && (trace[i].InTrailer? || trace[i] == End(true))
                        && forall j :: i < j < |trace| ==> trace[j] != Begin
    ensures PhaseOf(trace) == NotSent <==> PhaseOf(trace) != Confirmed && OutPayload !in trace
  {
    if i :| 0 <= i < |trace| && (trace[i].InTrailer? || trace[i] == End(true))
            && forall j :: i < j < |trace| ==> trace[j] != Begin {
      assert InFinal(trace, i) && Confirms(trace[i]);
    }
    if OutPayload in trace {
      var i :| 0 <= i < |trace| && trace[i] == OutPayload;
      assert trace[i].OutPayload?;
    }
  }

  // The tracking id, the message and the reset interval kept of a call.
  lemma KeptExactly(trace: seq<Event>, sent: bool, confirmed: bool, tracking: string, message: string, retryAfter: int)
    requires Summarises(trace, sent, confirmed, tracking, message, retryAfter)
    ensures forall i :: CapturedAt(trace, i) && trace[i].md.tracking.Some?
                        && (forall j :: i < j < |trace| ==> trace[j] != Begin)
                        && (forall j :: i < j < |trace| && CapturedAt(trace, j) ==> trace[j].md.tracking.None?)
                        ==> tracking == trace[i].md.tracking.value
    ensures tracking != "" ==>
              exists i :: CapturedAt(trace, i) && trace[i].md.tracking == Some(tracking)
                          && forall j :: i < j < |trace| ==> trace[j] != Begin
    ensures forall i :: CapturedAt(trace, i) && trace[i].md.message.Some?
                        && (forall j :: i < j < |trace| && CapturedAt(trace, j) ==> trace[j].md.message.None?)
                        ==> message == trace[i].md.message.value
    ensures message != "" ==> exists i :: CapturedAt(trace, i) && trace[i].md.message == Some(message)
    ensures forall i :: CapturedAt(trace, i) && trace[i].md.reset.Some? && trace[i].md.reset.value >= 0
                        && (forall j :: i < j < |trace| && CapturedAt(trace, j) ==>
                              trace[j].md.reset.None? || trace[j].md.reset.value < 0)
                        ==> retryAfter == trace[i].md.reset.value
    ensures retryAfter != 0 ==>
              exists i :: CapturedAt(trace, i) && trace[i].md.reset == Some(retryAfter) && retryAfter > 0
  {
  }

  class CallInfo {
    var sent: bool
    var confirmed: bool
    var trackingID: string
    var apiMessage: string
    var retryAfter: int
    ghost var trace: seq<Event>

    ghost predicate Valid()
      reads this
    {
      Summarises(trace, sent, confirmed, trackingID, apiMessage, retryAfter)
    }

    constructor ()
      ensures Valid() && trace == []
    {
      sent, confirmed := false, false;
      trackingID, apiMessage, retryAfter := "", "", 0;
      trace := [];
    }

    method HandleRPC(e: Event)
      requires Valid()
      modifies this
      ensures Valid() && trace == old(trace) + [e]
    {
      ExtendsSummary(trace, e, sent, confirmed, trackingID, apiMessage, retryAfter);
      trace := trace + [e];
      match e {
        case Begin => BeginAttempt();
        case OutPayload => sent := true;
        case InHeader(md) => CaptureMD(md);
        case InTrailer(md) =>
          CaptureMD(md);
          confirmed := true;
        case End(ok) => if ok { confirmed := true; }
        case Other =>
      }
    }

    method BeginAttempt()
      modifies this`confirmed, this`trackingID
      ensures !confirmed && trackingID == ""
    {
      confirmed := false;
      trackingID := "";
    }

    method CaptureMD(md: Metadata)
      modifies this`trackingID, this`apiMessage, this`retryAfter
      ensures trackingID == if md.tracking.Some? then md.tracking.value else old(trackingID)
      ensures apiMessage == if md.message.Some? then md.message.value else old(apiMessage)
      ensures retryAfter == if md.reset.Some? && md.reset.value >= 0 then md.reset.value else old(retryAfter)
    {
      if md.tracking.Some? { trackingID := md.tracking.value; }
      if md.message.Some? { apiMessage := md.message.value; }
      if md.reset.Some? {
        if md.reset.value >= 0 { retryAfter := md.reset.value; }
      }
    }

    // The phase depends on the whole event history, not on the order of attempts.
    function CurrentPhase(): (p: Phase)
      requires Valid()
      reads this
      ensures p == PhaseOf(trace)
    {
      if confirmed then Confirmed else if sent then SentUnconfirmed else NotSent
    }
  }

  lemma Extends(before: seq<Event>, e: Event)
    ensures EverSent(before + [e]) <==> EverSent(before) || e.OutPayload?
    ensures FinalConfirmed(before + [e]) <==> Confirms(e) || (!e.Begin? && FinalConfirmed(before))
  {
    var n := |before|;
    var after := before + [e];
    assert InFinal(after, n) && after[n] == e;
    if EverSent(before) {
      var i :| 0 <= i < n && before[i].OutPayload?;
      assert after[i].OutPayload?;
    }
    forall i | 0 <= i < n ensures InFinal(after, i) <==> InFinal(before, i) && !e.Begin? {
      assert forall j :: i < j < n ==> after[j] == before[j];
    }
    if FinalConfirmed(before) && !e.Begin? {
      var i :| InFinal(before, i) && Confirms(before[i]);
      assert InFinal(after, i) && Confirms(after[i]);
    }
  }

  lemma ExtendsCapture<T>(before: seq<Event>, e: Event, get: Event -> Option<T>, zero: T, v: T)
    requires LastCapture(before, get, zero, v)
    ensures LastCapture(before + [e], get, zero, if get(e).Some? then get(e).value else v)
  {
    var after := before + [e];
    if get(e).Some? {
      assert get(after[|before|]) == Some(get(e).value);
    } else if exists i :: 0 <= i < |before| && get(before[i]) == Some(v) &&
                        forall j :: i < j < |before| ==> get(before[j]).None? {
      var i :| 0 <= i < |before| && get(before[i]) == Some(v) &&
                        forall j :: i < j < |before| ==> get(before[j]).None?;
      assert get(after[i]) == Some(v);
    }
  }

  lemma ExtendsTracking(before: seq<Event>, e: Event, v: string)
    requires FinalTracking(before, v)
    ensures FinalTracking(before + [e], if e.Begin? then "" else if Tracking(e).Some? then Tracking(e).value else v)
  {
    var n := |before|;
    var after := before + [e];
    assert InFinal(after, n) && after[n] == e;
    forall i | 0 <= i < n ensures InFinal(after, i) <==> InFinal(before, i) && !e.Begin? {
      assert forall j :: i < j < n ==> after[j] == before[j];
    }
    if !e.Begin? && Tracking(e).None? {
      if i :| InFinal(before, i) && Tracking(before[i]) == Some(v) &&
              forall j :: i < j < n ==> Tracking(before[j]).None? {
        assert InFinal(after, i) && Tracking(after[i]) == Some(v);
      }
    }
  }

  lemma ExtendsSummary(before: seq<Event>, e: Event, sent: bool, confirmed: bool, tracking: string, message: string,
                       retryAfter: int)
    requires Summarises(before, sent, confirmed, tracking, message, retryAfter)
    ensures Summarises(before + [e], sent || e.OutPayload?, Confirms(e) || (!e.Begin? && confirmed),
                       if e.Begin? then "" else if Tracking(e).Some? then Tracking(e).value else tracking,
                       if Message(e).Some? then Message(e).value else message,
                       if Reset(e).Some? then Reset(e).value else retryAfter)
  {
    Extends(before, e);
    ExtendsCapture(before, e, Message, "", message);
    ExtendsCapture(before, e, Reset, 0, retryAfter);
    ExtendsTracking(before, e, tracking);
  }

  // Over any number of attempts: confirmed exactly when the last attempt was answered,
  // otherwise unconfirmed exactly when any payload of any attempt went out.
  lemma FinalAttemptDecides(earlier: seq<Event>, last: seq<Event>)
    requires forall i :: 0 <= i < |last| ==> !last[i].Begin?
    ensures PhaseOf(earlier + [Begin] + last) ==
            if exists i :: 0 <= i < |last| && Confirms(last[i]) then Confirmed
            else if EverSent(earlier) || EverSent(last) then SentUnconfirmed
            else NotSent
  {
    SentInParts(earlier, last);
    ConfirmedInLast(earlier, last);
  }

  lemma SentInParts(earlier: seq<Event>, last: seq<Event>)
    ensures EverSent(earlier + [Begin] + last) <==> EverSent(earlier) || EverSent(last)
  {
    var trace := earlier + [Begin] + last;
    var n := |earlier|;
    if EverSent(earlier) {
      var i :| 0 <= i < n && earlier[i].OutPayload?;
      assert trace[i].OutPayload?;
    }
    if EverSent(last) {
      var i :| 0 <= i < |last| && last[i].OutPayload?;
      assert trace[n + 1 + i].OutPayload?;
    }
    if EverSent(trace) {
      var i :| 0 <= i < |trace| && trace[i].OutPayload?;
      assert if i < n then earlier[i].OutPayload? else last[i - n - 1].OutPayload?;
    }
  }

  lemma ConfirmedInLast(earlier: seq<Event>, last: seq<Event>)
    requires forall i :: 0 <= i < |last| ==> !last[i].Begin?
    ensures FinalConfirmed(earlier + [Begin] + last) <==> exists i :: 0 <= i < |last| && Confirms(last[i])
  {
    var trace := earlier + [Begin] + last;
    var n := |earlier|;
    assert trace[n] == Begin;
    assert forall j :: n < j < |trace| ==> trace[j] == last[j - n - 1];
    if i :| 0 <= i < |last| && Confirms(last[i]) {
      assert trace[n + 1 + i] == last[i];
      assert InFinal(trace, n + 1 + i);
    }
    if FinalConfirmed(trace) {
      var i :| InFinal(trace, i) && Confirms(trace[i]);
      assert i >= n;
      assert Confirms(last[i - n - 1]);
    }
  }
}
