/** The order-book filter that a stream applies around its snapshots: frames not newer
    than their instrument's snapshot are dropped. Times are instants as integers. */
module OrderBooks {
  import opened Wrappers

  // A market-data message; id stands for the rest of its content.
  datatype Frame = Other(id: int) | Book(uid: string, time: Option<int>, id: int)

  datatype Code = Unauthenticated | PermissionDenied | InvalidArgument | FailedPrecondition | NotFound | Unimplemented
                | OtherCode

  datatype Err = Err(code: Code, eof: bool, canceled: bool)

  // Worth another attempt: any error but those a new connection cannot cure.
  predicate Reconnectable(err: Err) {
    err.code.OtherCode?
  }

  // What a snapshot call gives, and whether writing it out fails.
  datatype Answer = Failed(err: Err) | Snapshot(ts: Option<int>, unwritten: Option<Err>)

  // The snapshot times, and the instruments whose snapshot has none.
  datatype Marks = Marks(cutoffs: map<string, int>, missing: set<string>)

  predicate Passes(f: Frame, m: Marks) {
    f.Book? && f.uid !in m.missing && f.uid in m.cutoffs ==> f.time.Some? && f.time.value > m.cutoffs[f.uid]
  }

  // An untimed live frame ends the filtering of its instrument.
  function Seen(f: Frame, m: Marks): Marks {
    if f.Book? && f.uid !in m.missing && f.uid in m.cutoffs && f.time.None? then m.(cutoffs := m.cutoffs - {f.uid})
    else m
  }

  function If(c: bool, f: Frame): seq<Frame> {
    if c then [f] else []
  }

  lemma SnocIf(s: seq<Frame>, c: bool, f: Frame)
    ensures s + If(c, f) == if c then s + [f] else s
  {}

  lemma Assoc(a: seq<Frame>, b: seq<Frame>, c: seq<Frame>)
    ensures a + (b + c) == (a + b) + c
  {}

  function FilterBuffered(frames: seq<Frame>, m: Marks): seq<Frame> {
    if frames == [] then []
    else
      var n := |frames| - 1;
      FilterBuffered(frames[..n], m) + If(Passes(frames[n], m), frames[n])
  }

  function MarksAfter(frames: seq<Frame>, m: Marks): Marks {
    if frames == [] then m else Seen(frames[|frames|-1], MarksAfter(frames[..|frames|-1], m))
  }

  function FilterLive(frames: seq<Frame>, m: Marks): seq<Frame> {
    if frames == [] then []
    else
      var n := |frames| - 1;
      FilterLive(frames[..n], m) + If(Passes(frames[n], MarksAfter(frames[..n], m)), frames[n])
  }

  // What a connection delivers of the order-book frames received before and after the
  // snapshots were complete.
  function Expected(before: seq<Frame>, after: seq<Frame>, m: Marks): seq<Frame> {
    FilterBuffered(before, m) + FilterLive(after, m)
  }

  function MarksOf(uids: seq<string>, answers: seq<Answer>): Marks
    requires |uids| == |answers|
  {
    if uids == [] then Marks(map[], {})
    else
      var n := |uids| - 1;
      var m := MarksOf(uids[..n], answers[..n]);
      match answers[n]
      case Failed(_) => m
      case Snapshot(Some(ts), _) => m.(cutoffs := m.cutoffs[uids[n] := ts])
      case Snapshot(None, _) => m.(missing := m.missing + {uids[n]})
  }

  predicate Fine(a: Answer) {
    a.Snapshot? && a.unwritten.None?
  }

  function Failure(a: Answer): Err
    requires !Fine(a)
  {
    if a.Failed? then a.err else a.unwritten.value
  }

  class BookFilter {
    const uids: seq<string>
    var cutoffs: map<string, int>
    var missing: set<string>

    ghost function State(): Marks
      reads this
    {
      Marks(cutoffs, missing)
    }

    constructor (uids: seq<string>)
      ensures this.uids == uids && State() == Marks(map[], {})
    {
      this.uids := uids;
      cutoffs, missing := map[], {};
    }

    // Takes a snapshot of every instrument; the marks change only once all have succeeded.
    method Reconcile(answers: seq<Answer>) returns (err: Option<Err>)
      requires |answers| == |uids|
      modifies this
      ensures err.None? <==> forall i :: 0 <= i < |answers| ==> Fine(answers[i])
      ensures State() == if err.None? then MarksOf(uids, answers) else old(State())
      ensures err.Some? ==> exists i :: 0 <= i < |answers| && !Fine(answers[i]) && err.value == Failure(answers[i])
                              && forall j :: 0 <= j < i ==> Fine(answers[j])
      ensures err.None? <==> forall i :: 0 <= i < |answers| ==> answers[i].Snapshot? && answers[i].unwritten.None?
      ensures err.Some? ==> exists i :: 0 <= i < |answers|
                              && (answers[i] == Answer.Failed(err.value)
                                  || (answers[i].Snapshot? && answers[i].unwritten == err))
                              && forall j :: 0 <= j < i ==> answers[j].Snapshot? && answers[j].unwritten.None?
    {
      var times: map<string, int>, untimed: set<string> := map[], {};
      for i := 0 to |uids|
        invariant State() == old(State())
        invariant Marks(times, untimed) == MarksOf(uids[..i], answers[..i])
        invariant forall j :: 0 <= j < i ==> Fine(answers[j])
      {
        assert uids[..i+1][..i] == uids[..i] && answers[..i+1][..i] == answers[..i];
        if answers[i].Failed? {
          return Some(answers[i].err);
        }
        if answers[i].ts.Some? {
          times := times[uids[i] := answers[i].ts.value];
        } else {
          untimed := untimed + {uids[i]};
        }
        if answers[i].unwritten.Some? {
          return answers[i].unwritten;
        }
      }
      assert uids[..|uids|] == uids && answers[..|uids|] == answers;
      cutoffs := times;
      missing := untimed;
      err := None;
    }

    method Keep(f: Frame, live: bool) returns (keep: bool)
      modifies this
      ensures keep == Passes(f, old(State()))
      ensures State() == if live then Seen(f, old(State())) else old(State())
    {
      if !f.Book? || f.uid in missing || f.uid !in cutoffs {
        return true;
      }
      if f.time.None? {
        if live {
          cutoffs := cutoffs - {f.uid};
        }
        return false;
      }
      keep := f.time.value > cutoffs[f.uid];
    }
  }

  // ---- what that means for one instrument ----

  // The frames of one instrument, in arrival order.
  function Of(frames: seq<Frame>, uid: string): seq<Frame> {
    if frames == [] then []
    else
      var f := frames[|frames|-1];
      Of(frames[..|frames|-1], uid) + If(f.Book? && f.uid == uid, f)
  }

  // Those that are timed strictly after the cutoff.
  function Newer(frames: seq<Frame>, uid: string, cutoff: int): seq<Frame> {
    if frames == [] then []
    else
      var f := frames[|frames|-1];
      Newer(frames[..|frames|-1], uid, cutoff)
        + If(f.Book? && f.uid == uid && f.time.Some? && f.time.value > cutoff, f)
  }

  predicate Timed(frames: seq<Frame>, uid: string) {
    forall i :: 0 <= i < |frames| && frames[i].Book? && frames[i].uid == uid ==> frames[i].time.Some?
  }

  predicate Unfiltered(m: Marks, uid: string) {
    uid in m.missing || uid !in m.cutoffs
  }

  // Taking the last frame off a sum.
  lemma SumSnoc(a: seq<Frame>, b: seq<Frame>)
    requires b != []
    ensures (a + b)[..|a + b|-1] == a + b[..|b|-1] && (a + b)[|a + b|-1] == b[|b|-1]
  {}

  lemma {:induction false} OfSum(a: seq<Frame>, b: seq<Frame>, uid: string)
    ensures Of(a + b, uid) == Of(a, uid) + Of(b, uid)
  {
    if b == [] {
      assert a + b == a;
    } else {
      var f := b[|b|-1];
      OfSum(a, b[..|b|-1], uid);
      SumSnoc(a, b);
      Assoc(Of(a, uid), Of(b[..|b|-1], uid), If(f.Book? && f.uid == uid, f));
    }
  }

  lemma {:induction false} NewerSum(a: seq<Frame>, b: seq<Frame>, uid: string, cutoff: int)
    ensures Newer(a + b, uid, cutoff) == Newer(a, uid, cutoff) + Newer(b, uid, cutoff)
  {
    if b == [] {
      assert a + b == a;
    } else {
      var f := b[|b|-1];
      NewerSum(a, b[..|b|-1], uid, cutoff);
      SumSnoc(a, b);
      Assoc(Newer(a, uid, cutoff), Newer(b[..|b|-1], uid, cutoff),
            If(f.Book? && f.uid == uid && f.time.Some? && f.time.value > cutoff, f));
    }
  }

  lemma OfSnoc(a: seq<Frame>, f: Frame, uid: string)
    ensures Of(a + [f], uid) == Of(a, uid) + If(f.Book? && f.uid == uid, f)
  {
    assert (a + [f])[..|a|] == a;
  }

  lemma {:induction false} BufferedOf(frames: seq<Frame>, m: Marks, uid: string)
    ensures Unfiltered(m, uid) ==> Of(FilterBuffered(frames, m), uid) == Of(frames, uid)
    ensures !Unfiltered(m, uid) ==> Of(FilterBuffered(frames, m), uid) == Newer(frames, uid, m.cutoffs[uid])
  {
    if frames != [] {
      var n := |frames| - 1;
      BufferedOf(frames[..n], m, uid);
      SnocIf(FilterBuffered(frames[..n], m), Passes(frames[n], m), frames[n]);
      OfSnoc(FilterBuffered(frames[..n], m), frames[n], uid);
    }
  }

  lemma TimedPrefix(frames: seq<Frame>, uid: string)
    requires frames != [] && Timed(frames, uid)
    ensures Timed(frames[..|frames|-1], uid)
    ensures frames[|frames|-1].Book? && frames[|frames|-1].uid == uid ==> frames[|frames|-1].time.Some?
  {}

  // Frames of one instrument leave the marks of the others alone, and timed ones leave
  // all of them.
  lemma {:induction false} MarksKept(frames: seq<Frame>, m: Marks, uid: string)
    ensures MarksAfter(frames, m).missing == m.missing
    ensures Unfiltered(m, uid) ==> Unfiltered(MarksAfter(frames, m), uid)
  {
    if frames != [] {
      MarksKept(frames[..|frames|-1], m, uid);
    }
  }

  lemma {:induction false} CutoffKept(frames: seq<Frame>, m: Marks, uid: string)
    requires !Unfiltered(m, uid) && Timed(frames, uid)
    ensures !Unfiltered(MarksAfter(frames, m), uid) && MarksAfter(frames, m).cutoffs[uid] == m.cutoffs[uid]
  {
    if frames != [] {
      TimedPrefix(frames, uid);
      CutoffKept(frames[..|frames|-1], m, uid);
    }
  }

  lemma {:induction false} LiveUnfiltered(frames: seq<Frame>, m: Marks, uid: string)
    requires Unfiltered(m, uid)
    ensures Of(FilterLive(frames, m), uid) == Of(frames, uid)
  {
    if frames != [] {
      var n := |frames| - 1;
      LiveUnfiltered(frames[..n], m, uid);
      MarksKept(frames[..n], m, uid);
      SnocIf(FilterLive(frames[..n], m), Passes(frames[n], MarksAfter(frames[..n], m)), frames[n]);
      OfSnoc(FilterLive(frames[..n], m), frames[n], uid);
    }
  }

  lemma {:induction false} LiveTimed(frames: seq<Frame>, m: Marks, uid: string)
    requires !Unfiltered(m, uid) && Timed(frames, uid)
    ensures Of(FilterLive(frames, m), uid) == Newer(frames, uid, m.cutoffs[uid])
  {
    if frames != [] {
      var n := |frames| - 1;
      TimedPrefix(frames, uid);
      LiveTimed(frames[..n], m, uid);
      CutoffKept(frames[..n], m, uid);
      SnocIf(FilterLive(frames[..n], m), Passes(frames[n], MarksAfter(frames[..n], m)), frames[n]);
      OfSnoc(FilterLive(frames[..n], m), frames[n], uid);
    }
  }

  // An instrument with a timed snapshot and only timed frames: exactly the frames
  // strictly newer than the snapshot are delivered, in arrival order.
  lemma TimedExactly(before: seq<Frame>, after: seq<Frame>, m: Marks, uid: string)
    requires !Unfiltered(m, uid) && Timed(after, uid)
    ensures Of(Expected(before, after, m), uid) == Newer(before + after, uid, m.cutoffs[uid])
  {
    OfSum(FilterBuffered(before, m), FilterLive(after, m), uid);
    BufferedOf(before, m, uid);
    LiveTimed(after, m, uid);
    NewerSum(before, after, uid, m.cutoffs[uid]);
  }

  // An instrument without a timed snapshot is not filtered.
  lemma UntimedSnapshotPasses(before: seq<Frame>, after: seq<Frame>, m: Marks, uid: string)
    requires Unfiltered(m, uid)
    ensures Of(Expected(before, after, m), uid) == Of(before + after, uid)
  {
    OfSum(FilterBuffered(before, m), FilterLive(after, m), uid);
    BufferedOf(before, m, uid);
    LiveUnfiltered(after, m, uid);
    OfSum(before, after, uid);
  }

  lemma {:induction false} LiveSplit(a: seq<Frame>, b: seq<Frame>, m: Marks)
    ensures MarksAfter(a + b, m) == MarksAfter(b, MarksAfter(a, m))
    ensures FilterLive(a + b, m) == FilterLive(a, m) + FilterLive(b, MarksAfter(a, m))
  {
    if b == [] {
      assert a + b == a;
    } else {
      var n := |b| - 1;
      LiveSplit(a, b[..n], m);
      SumSnoc(a, b);
      var mid := MarksAfter(a, m);
      Assoc(FilterLive(a, m), FilterLive(b[..n], mid), If(Passes(b[n], MarksAfter(b[..n], mid)), b[n]));
    }
  }

  // A live frame without a time is dropped and opens its instrument's filter.
  lemma UntimedFrame(frames: seq<Frame>, f: Frame, m: Marks)
    requires f.Book? && f.time.None? && !Unfiltered(m, f.uid) && Timed(frames, f.uid)
    ensures FilterLive(frames + [f], m) == FilterLive(frames, m)
    ensures Unfiltered(MarksAfter(frames + [f], m), f.uid)
  {
    CutoffKept(frames, m, f.uid);
    assert (frames + [f])[..|frames|] == frames;
  }

  // Its first untimed live frame is dropped and opens the filter: everything of that
  // instrument after it is delivered.
  lemma UntimedFrameOpens(before: seq<Frame>, timed: seq<Frame>, f: Frame, rest: seq<Frame>, m: Marks)
    requires f.Book? && f.time.None? && !Unfiltered(m, f.uid) && Timed(timed, f.uid)
    ensures Of(Expected(before, timed + [f] + rest, m), f.uid)
              == Newer(before + timed, f.uid, m.cutoffs[f.uid]) + Of(rest, f.uid)
  {
    var uid := f.uid;
    LiveSplit(timed + [f], rest, m);
    UntimedFrame(timed, f, m);
    TimedExactly(before, timed, m, uid);
    LiveUnfiltered(rest, MarksAfter(timed + [f], m), uid);
    var filtered := FilterBuffered(before, m) + FilterLive(timed, m);
    var open := FilterLive(rest, MarksAfter(timed + [f], m));
    Assoc(FilterBuffered(before, m), FilterLive(timed, m), open);
    assert Expected(before, timed + [f] + rest, m) == filtered + open;
    OfSum(filtered, open, uid);
  }

  // ---- what a round of snapshots says about one instrument ----

  // Some snapshot of it came without a time.
  ghost predicate Untimed(uids: seq<string>, answers: seq<Answer>, uid: string)
    requires |uids| == |answers|
  {
    exists k :: 0 <= k < |uids| && uids[k] == uid && answers[k].Snapshot? && answers[k].ts.None?
  }

  // The time of its last timed snapshot.
  function LastTime(uids: seq<string>, answers: seq<Answer>, uid: string): Option<int>
    requires |uids| == |answers|
  {
    if uids == [] then None
    else
      var n := |uids| - 1;
      if uids[n] == uid && answers[n].Snapshot? && answers[n].ts.Some? then answers[n].ts
      else LastTime(uids[..n], answers[..n], uid)
  }

  // It is filtered by the time of its last snapshot, provided that all of them are timed.
  ghost function Cutoff(uids: seq<string>, answers: seq<Answer>, uid: string): Option<int>
    requires |uids| == |answers|
  {
    if Untimed(uids, answers, uid) then None else LastTime(uids, answers, uid)
  }

  lemma {:induction false} MarksMeaning(uids: seq<string>, answers: seq<Answer>, uid: string)
    requires |uids| == |answers|
    ensures uid in MarksOf(uids, answers).missing <==> Untimed(uids, answers, uid)
    ensures uid in MarksOf(uids, answers).cutoffs <==> LastTime(uids, answers, uid).Some?
    ensures uid in MarksOf(uids, answers).cutoffs ==>
              Some(MarksOf(uids, answers).cutoffs[uid]) == LastTime(uids, answers, uid)
  {
    if uids != [] {
      var n := |uids| - 1;
      MarksMeaning(uids[..n], answers[..n], uid);
      if Untimed(uids[..n], answers[..n], uid) {
        var k :| 0 <= k < n && uids[..n][k] == uid && answers[..n][k].Snapshot? && answers[..n][k].ts.None?;
        assert uids[k] == uid && answers[k].Snapshot? && answers[k].ts.None?;
      }
      if Untimed(uids, answers, uid) {
        var k :| 0 <= k <= n && uids[k] == uid && answers[k].Snapshot? && answers[k].ts.None?;
        assert k < n ==> uids[..n][k] == uid && answers[..n][k].Snapshot? && answers[..n][k].ts.None?;
      }
    }
  }

  lemma CutoffMeaning(uids: seq<string>, answers: seq<Answer>, uid: string)
    requires |uids| == |answers|
    ensures Unfiltered(MarksOf(uids, answers), uid) <==> Cutoff(uids, answers, uid).None?
    ensures Cutoff(uids, answers, uid).Some? ==>
              MarksOf(uids, answers).cutoffs[uid] == Cutoff(uids, answers, uid).value
  {
    MarksMeaning(uids, answers, uid);
  }

  lemma OfPrefix(a: seq<Frame>, b: seq<Frame>, uid: string)
    requires a <= b
    ensures Of(a, uid) <= Of(b, uid)
  {
    OfSum(a, b[|a|..], uid);
    assert b == a + b[|a|..];
  }
}
