/** What a not-placed close is worth: reconcile scans the journal, asks the broker and writes
    at different moments, while placements go on. */
module Verdicts {
  import opened Wrappers
  import opened Journal
  import opened Ledgers
  import opened Lifecycles
  import opened Reconciling
  import Protocol

  // ---- what the scan knows of one lifecycle ----

  // The record a reported id is represented by belongs to a lifecycle of it; when there is
  // only one, the record shows exactly whether that lifecycle was sent, with its key and
  // payload.
  lemma RepresentativeOfOne(s: Protocol.State, e: Record) returns (p: int)
    requires Protocol.LooseInv(s) && Speaks(s.log, e)
    ensures p in s.procs && s.procs[p].intent.intentID == e.intentID && e.payload == s.procs[p].intent.payload
    ensures !Closing(e.stage) && (e.stage.SendStarted? ==> e.orderID == s.procs[p].intent.orderID)
    ensures Protocol.SoleLifecycle(s, e.intentID) ==> (Protocol.SentBy(s, p) <==> e.stage.SendStarted?)
  {
    RepresentativeIsOpen(s.log, e.intentID, e);
    var k :| IsLastOpen(s.log, e.intentID, k) && e == s.log[k];
    p := s.owner[k];
    assert Protocol.OwnsRecord(s, k) && Protocol.OpensFirst(s, k);
    if Protocol.SentBy(s, p) && Protocol.SoleLifecycle(s, e.intentID) {
      var i :| 0 <= i < |s.log| && s.owner[i] == p && s.log[i].stage.SendStarted?;
      assert Protocol.OwnsRecord(s, i);
      assert i <= k;
    }
  }

  // A key the broker holds was sent by the one lifecycle of its id, created no later.
  lemma HeldBySole(s: Protocol.State, p: int, key: string)
    requires Protocol.LooseInv(s) && Protocol.SoleLifecycle(s, key) && key in s.held
    requires p in s.procs && s.procs[p].intent.intentID == key
    ensures Protocol.SentBy(s, p) && s.held[key] <= s.day && Protocol.CreatedBy(s.procs[p].intent, s.held[key])
  {
    assert Protocol.Accounted(s, key);
    var q :| Protocol.Carries(s, q, key) && Protocol.CreatedBy(s.procs[q].intent, s.held[key]);
    assert Protocol.LoosePlaced(s, q);
  }

  // The day list was read in state s, and shows the key's order if it was accepted that
  // day; the created-today check comes no earlier.
  ghost predicate Truthful(s: Protocol.State, talk: Talk, key: string) {
    && s.day <= talk.checkDay
    && (talk.list.Listed? && key in s.held && key != "" && s.held[key] == s.day ==> Mentions(talk.list.orders, key))
  }

  // What the lookups say of an intent that was sent, after two misses and a list.
  lemma SentNotPlaced(e: Record, target: Target, talk: Talk)
    requires e.stage.SendStarted? && Decide(e, target, talk).verdict.NotPlaced?
    ensures e.orderID != "" && e.payload.order.Some? && CreatedOn(e.payload.order.value.createdAt, talk.checkDay)
    ensures talk.list.Listed? && !Mentions(talk.list.orders, e.orderID)
  {
    FirstMatchMentions(if talk.list.Listed? then talk.list.orders else [], e.orderID);
  }

  lemma NotHeldWhenAsked(s: Protocol.State, p: int, e: Record, target: Target, talk: Talk)
    requires Protocol.LooseInv(s) && p in s.procs && s.procs[p].intent.intentID == e.intentID
    requires e.stage.SendStarted? && e.orderID == s.procs[p].intent.orderID && e.payload == s.procs[p].intent.payload
    requires Protocol.SoleLifecycle(s, e.intentID) && Truthful(s, talk, e.intentID)
    requires Decide(e, target, talk).verdict.NotPlaced?
    ensures e.intentID !in s.held
  {
    assert Protocol.LoosePlaced(s, p);
    SentNotPlaced(e, target, talk);
    if e.intentID in s.held {
      HeldBySole(s, p, e.intentID);
    }
  }

  // ---- what may still happen to an id ----

  // Nothing of the id is under way: no request of it on the wire, no placement of it running.
  ghost predicate Settled(s: Protocol.State, id: string) {
    id !in s.wire && forall p :: p in s.procs && s.procs[p].intent.intentID == id ==> s.procs[p].pc.Finished?
  }

  // No lifecycle of the id has begun between the two states.
  ghost predicate NoneBegun(s: Protocol.State, later: Protocol.State, id: string) {
    forall p :: p in later.procs && later.procs[p].intent.intentID == id ==> p in s.procs
  }

  // Unless the id is placed again, the broker never comes to hold an order of it.
  ghost predicate NeverLands(s: Protocol.State, id: string) {
    forall end :: Protocol.LooseReaches(s, end) && NoneBegun(s, end, id) ==> id !in end.held
  }

  ghost predicate Grown(s: Protocol.State, s': Protocol.State) {
    forall p :: p in s.procs ==> p in s'.procs && s'.procs[p].intent == s.procs[p].intent
  }

  // What a step may do to the wire, to the broker's orders and to a finished process.
  ghost predicate Bounded(s: Protocol.State, s': Protocol.State) {
    && Grown(s, s')
    && (forall key :: key in s'.wire && key !in s.wire ==> Running(s, key))
    && (forall key :: key in s'.held && key !in s.held ==> key in s.wire)
    && (forall p :: p in s.procs && s.procs[p].pc.Finished? ==> p in s'.procs && s'.procs[p] == s.procs[p])
  }

  ghost predicate Running(s: Protocol.State, key: string) {
    exists p :: p in s.procs && s.procs[p].pc.Started? && s.procs[p].intent.orderID == key
  }

  lemma StepBounded(s: Protocol.State, s': Protocol.State)
    requires |s.owner| == |s.log| && Protocol.NextAnyTime(s, s')
    ensures Bounded(s, s')
  {
    if
    case exists p, i, r, alive :: Protocol.Begin(s, s', p, i, r, alive) =>
    case exists p, r, alive :: Protocol.Start(s, s', p, r, alive) =>
    case exists p :: Protocol.Transmit(s, s', p) =>
      var p :| Protocol.Transmit(s, s', p);
      assert Running(s, s.procs[p].intent.orderID);
    case exists key :: Protocol.Accept(s, s', key) =>
    case exists key :: Protocol.Drop(s, s', key) =>
    case exists p, r :: Protocol.Close(s, s', p, r) =>
    case exists p :: Protocol.Stop(s, s', p) =>
    case exists p, r :: Protocol.Reconcile(s, s', p, r) =>
    case Protocol.Tick(s, s') =>
    case exists p, r :: Protocol.ReconcileAnyTime(s, s', p, r) =>
  }

  ghost predicate Sound(s: Protocol.State, s': Protocol.State) {
    Protocol.LooseInv(s) && Bounded(s, s')
  }

  // The steps from the n-th state to the k-th, as far as the wire, the broker and the
  // processes are concerned.
  ghost predicate Trail(run: seq<Protocol.State>, n: nat, k: nat) {
    && n <= k < |run|
    && (n < k ==> Trail(run, n, k - 1) && Sound(run[k-1], run[k]))
  }

  lemma {:induction false} PathIsTrail(run: seq<Protocol.State>, s: Protocol.State, end: Protocol.State, n: nat, k: nat)
    requires Protocol.LooseInv(s) && Protocol.IsLoosePath(run, s, end) && n <= k < |run|
    ensures Trail(run, n, k)
    decreases k
  {
    if n < k {
      PathIsTrail(run, s, end, n, k - 1);
      Protocol.LoosePathKeeps(run, s, end, k - 1);
      assert Protocol.NextAnyTime(run[k-1], run[k-1+1]);
      StepBounded(run[k-1], run[k]);
    }
  }

  lemma {:induction false} TrailGrows(run: seq<Protocol.State>, n: nat, k: nat)
    requires Trail(run, n, k)
    ensures Grown(run[n], run[k])
    decreases k
  {
    if n < k {
      TrailGrows(run, n, k - 1);
      GrownTwice(run[n], run[k-1], run[k]);
    }
  }

  lemma GrownTwice(a: Protocol.State, b: Protocol.State, c: Protocol.State)
    requires Grown(a, b) && Sound(b, c)
    ensures Grown(a, c)
  {}

  lemma NoneBegunBetween(a: Protocol.State, b: Protocol.State, c: Protocol.State, id: string)
    requires Grown(a, b) && Sound(b, c) && NoneBegun(a, c, id)
    ensures NoneBegun(a, b, id) && NoneBegun(b, c, id)
  {}

  lemma SettledStep(s: Protocol.State, s': Protocol.State, id: string)
    requires Sound(s, s') && Settled(s, id) && NoneBegun(s, s', id)
    ensures Settled(s', id) && (id in s'.held ==> id in s.held)
  {
    RunningIsUnsettled(s, id);
    forall p | p in s'.procs && s'.procs[p].intent.intentID == id ensures s'.procs[p].pc.Finished? {
      assert p in s.procs;
    }
  }

  lemma RunningIsUnsettled(s: Protocol.State, id: string)
    requires Protocol.LooseInv(s)
    ensures Running(s, id) ==> !Settled(s, id)
  {
    if p :| p in s.procs && s.procs[p].pc.Started? && s.procs[p].intent.orderID == id {
      assert Protocol.LoosePlaced(s, p);
    }
  }

  // Once nothing of an id is under way it stays so, and the broker comes to hold no order of
  // it, until a new lifecycle of the id begins.
  lemma {:induction false} SettledStays(run: seq<Protocol.State>, n: nat, k: nat, id: string)
    requires Trail(run, n, k) && Settled(run[n], id) && NoneBegun(run[n], run[k], id)
    ensures Settled(run[k], id) && (id in run[k].held ==> id in run[n].held)
    decreases k
  {
    if n < k {
      TrailGrows(run, n, k - 1);
      NoneBegunBetween(run[n], run[k-1], run[k], id);
      SettledStays(run, n, k - 1, id);
      SettledStep(run[k-1], run[k], id);
    }
  }

  lemma SettledNeverLands(s: Protocol.State, id: string)
    requires Protocol.LooseInv(s) && Settled(s, id) && id !in s.held
    ensures NeverLands(s, id)
  {
    forall end | Protocol.LooseReaches(s, end) && NoneBegun(s, end, id) ensures id !in end.held {
      var path: seq<Protocol.State> :| Protocol.IsLoosePath(path, s, end);
      PathIsTrail(path, s, end, 0, |path| - 1);
      SettledStays(path, 0, |path| - 1, id);
    }
  }

  // Otherwise it may come to hold one, although the close has been written: a request on the
  // wire may be accepted, and a running placement may put one there.
  lemma UnsettledMayLand(s: Protocol.State, id: string, r: Record)
    returns (p: int, closed: Protocol.State, end: Protocol.State)
    requires Protocol.LooseInv(s) && !Settled(s, id) && r.stage.Reconciled? && r.intentID == id
    ensures Protocol.ReconcileAnyTime(s, closed, p, r)
    ensures Protocol.LooseReaches(closed, end) && NoneBegun(s, end, id) && id in end.held
    ensures Protocol.LooseReaches(s, end)
  {
    p := UnderWay(s, id);
    closed := s.(log := s.log + [r], owner := s.owner + [p]);
    assert Protocol.ReconcileAnyTime(s, closed, p, r);
    var sent := closed;
    Protocol.LooseReachesItself(closed);
    if id !in s.wire {
      sent := MaySend(closed, p);
    }
    end := sent.(held := if id in sent.held then sent.held else sent.held[id := sent.day]);
    assert Protocol.Accept(sent, end, id);
    Protocol.LooseReachesMore(closed, sent, end);
    Protocol.LooseReachesItself(s);
    Protocol.LooseReachesMore(s, s, closed);
    Protocol.LooseReachesOn(s, closed, end);
  }

  // A lifecycle of the id that sent its request, or is still running.
  lemma UnderWay(s: Protocol.State, id: string) returns (p: int)
    requires Protocol.LooseInv(s) && !Settled(s, id)
    ensures p in s.procs && s.procs[p].intent.intentID == s.procs[p].intent.orderID == id
    ensures id !in s.wire ==> !s.procs[p].pc.Finished?
  {
    if id in s.wire {
      p :| Protocol.Carries(s, p, id);
    } else {
      p :| p in s.procs && s.procs[p].intent.intentID == id && !s.procs[p].pc.Finished?;
    }
    assert Protocol.LoosePlaced(s, p);
  }

  lemma MaySend(s: Protocol.State, p: int) returns (sent: Protocol.State)
    requires |s.owner| == |s.log| && p in s.procs && !s.procs[p].pc.Finished?
    ensures Protocol.LooseReaches(s, sent) && s.procs[p].intent.orderID in sent.wire
    ensures sent.procs.Keys == s.procs.Keys && sent.held == s.held && |sent.owner| == |sent.log|
  {
    var started := s;
    Protocol.LooseReachesItself(s);
    if s.procs[p].pc.Begun? {
      var r := Stamped(s.procs[p].intent, SendStarted);
      started := s.(log := s.log + [r], owner := s.owner + [p],
                    procs := s.procs[p := s.procs[p].(pc := Protocol.Started)]);
      assert Protocol.Start(s, started, p, r, true);
      Protocol.LooseReachesMore(s, s, started);
    }
    sent := started.(wire := started.wire + {s.procs[p].intent.orderID});
    assert Protocol.Transmit(started, sent, p);
    Protocol.LooseReachesMore(s, started, sent);
  }

  // ---- the worth of a not-placed close ----

  // The state that decides an entry: the scan's for one that was not sent then, which is
  // closed without asking the broker; for the others the one in which the day list was read.
  function Decisive(e: Record, scan: nat, asked: nat): nat {
    if e.stage.IntentCreated? then scan else asked
  }

  lemma LaterOfRun(run: seq<Protocol.State>, n: nat, k: nat)
    requires Protocol.IsLooseRun(run) && n <= k < |run|
    ensures Protocol.LooseInv(run[n]) && Protocol.LooseInv(run[k]) && Grown(run[n], run[k])
  {
    Protocol.LooseRunKeeps(run, n);
    Protocol.LooseRunKeeps(run, k);
    assert Protocol.IsLoosePath(run, run[0], run[|run|-1]);
    PathIsTrail(run, run[0], run[|run|-1], n, k);
    TrailGrows(run, n, k);
  }

  // In the state that decides it, an entry closed as not placed has no order at the broker,
  // whatever else is in flight, if its id has one lifecycle.
  lemma NotHeldWhenDecided(run: seq<Protocol.State>, scan: nat, asked: nat, e: Record, target: Target, talk: Talk)
    requires Protocol.IsLooseRun(run) && scan <= asked < |run| && Speaks(run[scan].log, e)
    requires Protocol.SoleLifecycle(run[Decisive(e, scan, asked)], e.intentID)
    requires Decide(e, target, talk).verdict.NotPlaced?
    requires e.stage.SendStarted? ==> Truthful(run[asked], talk, e.intentID)
    ensures e.intentID !in run[Decisive(e, scan, asked)].held
  {
    LaterOfRun(run, scan, asked);
    var p := RepresentativeOfOne(run[scan], e);
    if e.stage.IntentCreated? {
      if e.intentID in run[scan].held {
        HeldBySole(run[scan], p, e.intentID);
      }
    } else {
      NotHeldWhenAsked(run[asked], p, e, target, talk);
    }
  }

  // The point of closing as not placed is that no order of the id ever appears, whenever the
  // close is written. That holds, until the id is placed again, exactly when nothing of the
  // id was under way in the state that decided it; whether anything is at the close itself
  // does not matter.
  lemma NotPlacedIsSoundIff(run: seq<Protocol.State>, scan: nat, asked: nat, e: Record, target: Target, talk: Talk)
    requires Protocol.IsLooseRun(run) && scan <= asked < |run| && Speaks(run[scan].log, e)
    requires Protocol.SoleLifecycle(run[Decisive(e, scan, asked)], e.intentID)
    requires Decide(e, target, talk).verdict.NotPlaced?
    requires e.stage.SendStarted? ==> Truthful(run[asked], talk, e.intentID)
    ensures Settled(run[Decisive(e, scan, asked)], e.intentID) <==>
            NeverLands(run[Decisive(e, scan, asked)], e.intentID)
  {
    var s, id := run[Decisive(e, scan, asked)], e.intentID;
    LaterOfRun(run, scan, asked);
    NotHeldWhenDecided(run, scan, asked, e, target, talk);
    if Settled(s, id) {
      SettledNeverLands(s, id);
    } else {
      var p, closed, end := UnsettledMayLand(s, id, Reconciliation(e, NO_RESULT));
    }
  }

  // ---- closes that are overtaken ----

  // The states of a run in which an intent is begun, scanned, sent and accepted, and its
  // placement is over before reconcile writes the close it decided at the scan. The outcome
  // is confirmed, or left unknown.
  function Overtaken(i: Intent, day: int, known: bool, n: nat): Protocol.State
    requires n <= 7
  {
    var created, sent := Stamped(i, IntentCreated), Stamped(i, SendStarted);
    var log := [created, sent] + (if known then [Stamped(i, BrokerConfirmed)] else []) + [Stamped(i, Stage.Reconciled)];
    var m := if n < 2 then n else if n < 6 then 2 else if n == 6 then |log| - 1 else |log|;
    var pc := if n <= 1 then Protocol.Begun else if n < 6 then Protocol.Started else Protocol.Finished;
    Protocol.State(log[..m], seq(m, _ => 1), if n == 0 then map[] else map[1 := Protocol.Proc(i, pc)],
                   if n == 3 || n == 4 then {i.orderID} else {},
                   if n < 4 then map[] else map[i.orderID := day], day)
  }

  lemma OvertakenSends(i: Intent, target: Target, day: int, known: bool)
    requires Usable(i, target, day)
    ensures Protocol.Begin(Overtaken(i, day, known, 0), Overtaken(i, day, known, 1), 1, i,
                           Stamped(i, IntentCreated), true)
    ensures Protocol.Start(Overtaken(i, day, known, 1), Overtaken(i, day, known, 2), 1, Stamped(i, SendStarted), true)
    ensures Protocol.Transmit(Overtaken(i, day, known, 2), Overtaken(i, day, known, 3), 1)
    ensures Protocol.Accept(Overtaken(i, day, known, 3), Overtaken(i, day, known, 4), i.orderID)
    ensures Protocol.Drop(Overtaken(i, day, known, 4), Overtaken(i, day, known, 5), i.orderID)
  {}

  lemma OvertakenCloses(i: Intent, target: Target, day: int, known: bool)
    requires Usable(i, target, day)
    ensures Protocol.Next(Overtaken(i, day, known, 5), Overtaken(i, day, known, 6))
    ensures Protocol.ReconcileAnyTime(Overtaken(i, day, known, 6), Overtaken(i, day, known, 7), 1,
                                      Stamped(i, Stage.Reconciled))
  {
    var a, b := Overtaken(i, day, known, 5), Overtaken(i, day, known, 6);
    if known {
      assert Protocol.Close(a, b, 1, Stamped(i, BrokerConfirmed));
    } else {
      assert Protocol.Stop(a, b, 1);
    }
  }

  lemma OvertakenIsARun(i: Intent, target: Target, day: int, known: bool)
    requires Usable(i, target, day)
    ensures Protocol.IsLooseRun(seq(8, n requires 0 <= n < 8 => Overtaken(i, day, known, n)))
  {
    var run := seq(8, n requires 0 <= n < 8 => Overtaken(i, day, known, n));
    OvertakenSends(i, target, day, known);
    OvertakenCloses(i, target, day, known);
    forall n | 0 <= n < 7 ensures Protocol.NextAnyTime(run[n], run[n+1]) {
      assert Protocol.NextAnyTime(Overtaken(i, day, known, n), Overtaken(i, day, known, n + 1));
    }
  }

  // That nothing is under way at the close is not enough, even with one lifecycle: scanned
  // before its send, the intent is closed as not placed whatever the broker would answer,
  // asynchronous or not, while the broker holds its order and nothing reports it any more.
  lemma OvertakenRun(i: Intent, target: Target, day: int, known: bool)
    requires Usable(i, target, day)
    ensures Protocol.IsLooseRun(seq(8, n requires 0 <= n < 8 => Overtaken(i, day, known, n)))
    ensures forall n :: 0 <= n <= 7 ==> Protocol.SoleLifecycle(Overtaken(i, day, known, n), i.intentID)
    ensures Speaks(Overtaken(i, day, known, 1).log, Stamped(i, IntentCreated))
    ensures forall talk :: Decide(Stamped(i, IntentCreated), target, talk).verdict.NotPlaced?
    ensures Settled(Overtaken(i, day, known, 6), i.intentID)
    ensures forall n :: 4 <= n <= 7 ==> i.intentID in Overtaken(i, day, known, n).held
    ensures !Reported(Overtaken(i, day, known, 7).log, i.intentID)
  {
    OvertakenIsARun(i, target, day, known);
    var created, sent, closed := Stamped(i, IntentCreated), Stamped(i, SendStarted), Stamped(i, Stage.Reconciled);
    assert Overtaken(i, day, known, 1).log == [created];
    assert IsLast([created], i.intentID, 0) && IsLastOpen([created], i.intentID, 0);
    var log := Overtaken(i, day, known, 7).log;
    LastCloses(log, created, sent, if known then [Stamped(i, BrokerConfirmed)] else [], closed);
  }

  // One lifecycle that ends in a close is not reported.
  lemma LastCloses(log: seq<Record>, created: Record, sent: Record, more: seq<Record>, closed: Record)
    requires log == [created, sent] + more + [closed] && |more| <= 1
    requires created.stage.IntentCreated? && sent.stage.SendStarted? && Closing(closed.stage)
    requires created.intentID == sent.intentID == closed.intentID
    requires forall r :: r in more ==> Closing(r.stage) && r.intentID == created.intentID
    ensures !Reported(log, created.intentID)
  {
    var id, n := created.intentID, |log| - 1;
    var l2, l3 := [created, sent], [created, sent] + more;
    assert l2[..1] == [created] && [created][..0] == [] && log[..n] == l3;
    assert Opens([created], id) == 1 && Closes([created], id) == 0;
    assert Opens(l2, id) == 1 && Closes(l2, id) == 0;
    if more == [] {
      assert l3 == l2;
    } else {
      assert l3[..2] == l2 && l3[2] == more[0];
    }
    assert Opens(l3, id) == 1;
    assert Opens(log, id) == 1 && Closes(log, id) >= 1;
    assert IsLast(log, id, n);
  }

  // ---- a reconcile run amid placements, as steps of the protocol ----

  // The state after an entry of the run, met in state t: what the run writes belongs to a
  // lifecycle of the entry's id.
  function Wrote(t: Protocol.State, after: seq<Record>, who: int): Protocol.State {
    if |after| <= |t.log| then t else t.(log := after, owner := t.owner + [who])
  }

  // The states the run meets, one before each write, and whose lifecycles it closes.
  datatype Meeting = Meeting(scan: Protocol.State, met: seq<Protocol.State>, who: seq<int>)

  ghost function StateAt(m: Meeting, logs: seq<seq<Record>>, n: nat): Protocol.State
    requires n <= |m.met| == |m.who| && n < |logs|
  {
    if n == 0 then m.scan else Wrote(m.met[n-1], logs[n], m.who[n-1])
  }

  // Between its writes any steps of the protocol happen, which append the rivals' records.
  ghost predicate Amid(m: Meeting, logs: seq<seq<Record>>, entries: seq<Record>, sweep: Sweep) {
    && |m.met| == |m.who| == |entries| && |logs| == |entries| + 1
    && m.scan.log == logs[0]
    && forall k :: 0 <= k < |entries| ==> MeetsAt(m, logs, entries, sweep, k)
  }

  ghost predicate MeetsAt(m: Meeting, logs: seq<seq<Record>>, entries: seq<Record>, sweep: Sweep, k: nat)
    requires k < |m.met| == |m.who| == |entries| && |logs| == |entries| + 1
  {
    && Protocol.LooseReaches(StateAt(m, logs, k), m.met[k])
    && m.met[k].log == logs[k] + sweep.rivals(k) && |m.met[k].owner| == |m.met[k].log|
    && m.who[k] in m.met[k].procs && m.met[k].procs[m.who[k]].intent.intentID == entries[k].intentID
  }

  // There always is such a lifecycle.
  lemma WriterExists(scan: Protocol.State, t: Protocol.State, e: Record) returns (who: int)
    requires Protocol.LooseInv(scan) && Speaks(scan.log, e) && Protocol.LooseReaches(scan, t)
    ensures who in t.procs && t.procs[who].intent.intentID == e.intentID
  {
    who := RepresentativeOfOne(scan, e);
    var path: seq<Protocol.State> :| Protocol.IsLoosePath(path, scan, t);
    PathIsTrail(path, scan, t, 0, |path| - 1);
    TrailGrows(path, 0, |path| - 1);
  }

  // Whatever placements do meanwhile, a run of reconcile is made of the protocol's steps, and
  // they write exactly the records the run writes.
  lemma {:induction false} FlowIsAPath(m: Meeting, logs: seq<seq<Record>>, entries: seq<Record>, sweep: Sweep, n: nat)
    requires Amid(m, logs, entries, sweep) && Swept(logs, entries, sweep) && n <= |entries|
    requires |m.scan.owner| == |m.scan.log|
    ensures Protocol.LooseReaches(m.scan, StateAt(m, logs, n)) && StateAt(m, logs, n).log == logs[n]
    ensures |StateAt(m, logs, n).owner| == |logs[n]|
  {
    if n == 0 {
      Protocol.LooseReachesItself(m.scan);
    } else {
      var k := n - 1;
      FlowIsAPath(m, logs, entries, sweep, k);
      assert MeetsAt(m, logs, entries, sweep, k);
      Protocol.LooseReachesOn(m.scan, StateAt(m, logs, k), m.met[k]);
      OwnCloses(logs, entries, sweep, k);
      WriteIsAStep(m.met[k], Own(logs, sweep, k), logs[n], m.who[k], entries[k], sweep.target);
      if Own(logs, sweep, k) != [] {
        Protocol.LooseReachesMore(m.scan, m.met[k], StateAt(m, logs, n));
      }
    }
  }

  lemma WriteIsAStep(t: Protocol.State, own: seq<Record>, after: seq<Record>, who: int, e: Record, target: Target)
    requires |t.owner| == |t.log| && after == t.log + own && |own| <= 1
    requires forall r :: r in own ==> ClosesEntry(r, e, target)
    requires who in t.procs && t.procs[who].intent.intentID == e.intentID
    ensures var w := Wrote(t, after, who);
            w.log == after && |w.owner| == |after| && if own == [] then w == t else Protocol.NextAnyTime(t, w)
  {
    if own != [] {
      assert own == [own[0]] && own[0] in own && ClosesEntry(own[0], e, target);
      assert Protocol.ReconcileAnyTime(t, Wrote(t, after, who), who, own[0]);
    }
  }

  // ---- two lifecycles under one id ----

  // The states of a run in which an intent is sent and accepted, and then begun again under
  // the same id by a process that goes no further; reconcile then closes the id twice.
  function Twice(i: Intent, day: int, n: nat): Protocol.State
    requires n <= 8
  {
    var created := Stamped(i, IntentCreated);
    var sent := Stamped(i, SendStarted);
    var closed := Stamped(i, Stage.Reconciled);
    var log := [created, sent, created, closed, closed];
    var owner := [1, 1, 2, 2, 1];
    var m := if n == 0 then 0 else if n == 1 then 1 else if n < 6 then 2 else n - 3;
    var first := if n == 1 then Protocol.Begun else if n < 5 then Protocol.Started else Protocol.Finished;
    var procs := if n == 0 then map[] else if n < 6 then map[1 := Protocol.Proc(i, first)]
                 else map[1 := Protocol.Proc(i, first), 2 := Protocol.Proc(i, Protocol.Finished)];
    Protocol.State(log[..m], owner[..m], procs, if n < 3 then {} else {i.orderID},
                   if n < 4 then map[] else map[i.orderID := day], day)
  }

  function Stamped(i: Intent, stage: Stage): Record {
    Draft(i, i.orderID, i.stopOrderID, "", "", stage, "", None)
  }

  ghost predicate Usable(i: Intent, target: Target, day: int) {
    && i.intentID == i.orderID != "" && (i.kind == ORDER_PLACE || i.kind == ORDER_REPLACE)
    && TargetMismatch(i.profile, i.payload, target).None? && Protocol.CreatedBy(i, day)
  }

  lemma TwiceSends(i: Intent, target: Target, day: int)
    requires Usable(i, target, day)
    ensures Protocol.Begin(Twice(i, day, 0), Twice(i, day, 1), 1, i, Stamped(i, IntentCreated), true)
    ensures Protocol.Start(Twice(i, day, 1), Twice(i, day, 2), 1, Stamped(i, SendStarted), true)
    ensures Protocol.Transmit(Twice(i, day, 2), Twice(i, day, 3), 1)
    ensures Protocol.Accept(Twice(i, day, 3), Twice(i, day, 4), i.orderID)
    ensures Protocol.Stop(Twice(i, day, 4), Twice(i, day, 5), 1)
  {}

  lemma TwiceCloses(i: Intent, target: Target, day: int)
    requires Usable(i, target, day)
    ensures Protocol.Begin(Twice(i, day, 5), Twice(i, day, 6), 2, i, Stamped(i, IntentCreated), false)
    ensures Protocol.Reconcile(Twice(i, day, 6), Twice(i, day, 7), 2, Stamped(i, Stage.Reconciled))
    ensures Protocol.Reconcile(Twice(i, day, 7), Twice(i, day, 8), 1, Stamped(i, Stage.Reconciled))
  {}

  lemma TwiceIsARun(i: Intent, target: Target, day: int)
    requires Usable(i, target, day)
    ensures Protocol.IsRun(seq(9, n requires 0 <= n < 9 => Twice(i, day, n)))
  {
    var run := seq(9, n requires 0 <= n < 9 => Twice(i, day, n));
    TwiceSends(i, target, day);
    TwiceCloses(i, target, day);
    forall n | 0 <= n < 8 ensures Protocol.Next(run[n], run[n+1]) {
      assert Protocol.Next(Twice(i, day, n), Twice(i, day, n + 1));
    }
  }

  lemma TwiceLogs(i: Intent, day: int)
    ensures var created, sent := Stamped(i, IntentCreated), Stamped(i, SendStarted);
            var closed := Stamped(i, Stage.Reconciled);
            && Twice(i, day, 6).log == [created, sent, created]
            && Twice(i, day, 7).log == [created, sent, created, closed]
            && Twice(i, day, 8).log == [created, sent, created, closed, closed]
  {}

  // A run of the protocol in which reconcile says not-placed of an order the broker holds,
  // whatever it is answered, and does so until nothing of the id is reported any more.
  lemma SharedIdRun(i: Intent, target: Target, day: int)
    requires Usable(i, target, day)
    ensures Protocol.IsRun(seq(9, n requires 0 <= n < 9 => Twice(i, day, n)))
    ensures forall n :: 6 <= n <= 8 ==> i.intentID in Twice(i, day, n).held
    ensures forall n :: 6 <= n <= 7 ==>
              && Reported(Twice(i, day, n).log, i.intentID)
              && Represents(Twice(i, day, n).log, i.intentID, Stamped(i, IntentCreated))
    ensures forall talk :: Decide(Stamped(i, IntentCreated), target, talk).verdict.NotPlaced?
    ensures !Reported(Twice(i, day, 8).log, i.intentID)
  {
    TwiceIsARun(i, target, day);
    var created, sent, closed := Stamped(i, IntentCreated), Stamped(i, SendStarted), Stamped(i, Stage.Reconciled);
    TwiceLogs(i, day);
    SharedIdHidesSend(created, sent);
    SharedIdLosesSend(created, sent, closed);
    SharedIdAgain(created, sent, closed);
  }
}
