/** Any number of placements and reconcile runs sharing one journal and one broker,
    interleaved step by step, with a crash possible between any two steps. */
module Protocol {
  import opened Journal
  import opened Lifecycles
  import Placement

  // Finished covers a normal return, a failed write and a crash alike.
  datatype Pc = Begun | Started | Finished

  datatype Proc = Proc(intent: Intent, pc: Pc)

  // wire holds the requests the broker may still accept; held maps each accepted key
  // to the day it was accepted.
  datatype State = State(log: seq<Record>, owner: seq<int>, procs: map<int, Proc>,
                         wire: set<string>, held: map<string, int>, day: int)

  const DAY_NANOS := 86_400_000_000_000

  function DayOf(t: int): int {
    t / DAY_NANOS
  }

  // A journaled creation stamp never lies after the given day.
  predicate CreatedBy(i: Intent, day: int) {
    i.payload.order.Some? && i.payload.order.value.createdAt.At? ==> DayOf(i.payload.order.value.createdAt.t) <= day
  }

  predicate Init(s: State) {
    s.log == [] && s.owner == [] && s.procs == map[] && s.wire == {} && s.held == map[]
  }

  ghost predicate Begin(s: State, s': State, p: int, i: Intent, r: Record, alive: bool) {
    && p !in s.procs && i.intentID == i.orderID && CreatedBy(i, s.day)
    && Placement.Writes(r, i, IntentCreated)
    && s' == s.(log := s.log + [r], owner := s.owner + [p],
                procs := s.procs[p := Proc(i, if alive then Begun else Finished)])
  }

  ghost predicate Start(s: State, s': State, p: int, r: Record, alive: bool) {
    && p in s.procs && s.procs[p].pc.Begun?
    && Placement.Writes(r, s.procs[p].intent, SendStarted)
    && s' == s.(log := s.log + [r], owner := s.owner + [p],
                procs := s.procs[p := s.procs[p].(pc := if alive then Started else Finished)])
  }

  ghost predicate Transmit(s: State, s': State, p: int) {
    && p in s.procs && s.procs[p].pc.Started?
    && s' == s.(wire := s.wire + {s.procs[p].intent.orderID})
  }

  ghost predicate Accept(s: State, s': State, key: string) {
    && key in s.wire
    && s' == s.(held := if key in s.held then s.held else s.held[key := s.day])
  }

  ghost predicate Drop(s: State, s': State, key: string) {
    s' == s.(wire := s.wire - {key})
  }

  ghost predicate Close(s: State, s': State, p: int, r: Record) {
    && p in s.procs && s.procs[p].pc.Started?
    && (r.stage.BrokerConfirmed? || r.stage.BrokerRejected?)
    && Placement.Writes(r, s.procs[p].intent, r.stage)
    && s' == s.(log := s.log + [r], owner := s.owner + [p], procs := s.procs[p := s.procs[p].(pc := Finished)])
  }

  // The outcome is left open, a write failed, or the process died.
  ghost predicate Stop(s: State, s': State, p: int) {
    && p in s.procs
    && s' == s.(procs := s.procs[p := s.procs[p].(pc := Finished)])
  }

  // A reconcile run closes a lifecycle that is over and still unclosed.
  ghost predicate Reconcile(s: State, s': State, p: int, r: Record)
    requires |s.owner| == |s.log|
  {
    && p in s.procs && s.procs[p].pc.Finished? && !ClosedBy(s.log, s.owner, p)
    && r.stage.Reconciled? && r.intentID == s.procs[p].intent.intentID
    && s' == s.(log := s.log + [r], owner := s.owner + [p])
  }

  ghost predicate Tick(s: State, s': State) {
    s.day <= s'.day && s' == s.(day := s'.day)
  }

  ghost predicate Next(s: State, s': State)
    requires |s.owner| == |s.log|
  {
    || (exists p, i, r, alive :: Begin(s, s', p, i, r, alive))
    || (exists p, r, alive :: Start(s, s', p, r, alive))
    || (exists p :: Transmit(s, s', p))
    || (exists key :: Accept(s, s', key))
    || (exists key :: Drop(s, s', key))
    || (exists p, r :: Close(s, s', p, r))
    || (exists p :: Stop(s, s', p))
    || (exists p, r :: Reconcile(s, s', p, r))
    || Tick(s, s')
  }

  ghost predicate SentBy(s: State, p: int)
    requires |s.owner| == |s.log|
  {
    exists i :: 0 <= i < |s.log| && s.owner[i] == p && s.log[i].stage.SendStarted?
  }

  ghost predicate Carries(s: State, p: int, key: string)
    requires |s.owner| == |s.log|
  {
    p in s.procs && s.procs[p].intent.orderID == key && SentBy(s, p)
  }

  ghost predicate OwnsRecord(s: State, i: int)
    requires 0 <= i < |s.log| == |s.owner|
  {
    && s.owner[i] in s.procs
    && s.log[i].intentID == s.procs[s.owner[i]].intent.intentID
    && (s.log[i].stage.SendStarted? ==> s.log[i].orderID == s.procs[s.owner[i]].intent.orderID)
    && (s.log[i].stage.IntentCreated? ==> s.log[i].payload == s.procs[s.owner[i]].intent.payload)
    && (s.log[i].stage.SendStarted? ==> s.log[i].payload == s.procs[s.owner[i]].intent.payload)
  }

  ghost predicate Placed(s: State, p: int)
    requires |s.owner| == |s.log| && p in s.procs
  {
    && (exists i :: 0 <= i < |s.log| && OpenedBy(s.log, s.owner, i, p, s.procs[p].intent.intentID))
    && (s.procs[p].pc.Begun? ==> !SentBy(s, p) && !ClosedBy(s.log, s.owner, p))
    && (s.procs[p].pc.Started? ==> SentBy(s, p) && !ClosedBy(s.log, s.owner, p))
    && s.procs[p].intent.intentID == s.procs[p].intent.orderID
    && CreatedBy(s.procs[p].intent, s.day)
  }

  // An accepted key was sent by a lifecycle created no later than its acceptance.
  ghost predicate Accounted(s: State, key: string)
    requires |s.owner| == |s.log| && key in s.held
  {
    s.held[key] <= s.day && exists p :: Carries(s, p, key) && CreatedBy(s.procs[p].intent, s.held[key])
  }

  ghost predicate Inv(s: State) {
    && Interleaving(s.log, s.owner)
    && (forall i :: 0 <= i < |s.log| ==> OwnsRecord(s, i))
    && (forall p :: p in s.procs ==> Placed(s, p))
    && (forall key :: key in s.wire ==> exists p :: Carries(s, p, key))
    && (forall key :: key in s.held ==> Accounted(s, key))
  }

  // A step that only appends record r of lifecycle p and moves p to a new pc.
  lemma AppendStep(s: State, s': State, p: int, r: Record, proc: Proc)
    requires Inv(s)
    requires s' == s.(log := s.log + [r], owner := s.owner + [p], procs := s.procs[p := proc])
    requires p in s.procs ==> proc.intent == s.procs[p].intent
    requires Follows(s'.log, s'.owner, |s.log|) && OwnsRecord(s', |s.log|)
    requires p !in s.procs ==> forall i :: 0 <= i < |s.log| ==> s.owner[i] != p
    requires p in s.procs || r.stage.IntentCreated?
    requires proc.intent.intentID == proc.intent.orderID && CreatedBy(proc.intent, s.day)
    requires proc.pc.Begun? ==> r.stage.IntentCreated? && p !in s.procs
    requires proc.pc.Started? ==> r.stage.SendStarted?
    ensures Inv(s')
  {
    var n := |s.log|;
    forall i | 0 <= i <= n ensures Follows(s'.log, s'.owner, i) {
      if i < n {
        assert Follows(s.log, s.owner, i);
        if !s.log[i].stage.IntentCreated? {
          var j :| 0 <= j < i && OpenedBy(s.log, s.owner, j, s.owner[i], s.log[i].intentID);
          assert OpenedBy(s'.log, s'.owner, j, s'.owner[i], s'.log[i].intentID);
        }
      }
    }
    forall i | 0 <= i <= n ensures OwnsRecord(s', i) {
      if i < n { assert OwnsRecord(s, i); }
    }
    forall q ensures SentBy(s', q) <==> SentBy(s, q) || (q == p && r.stage.SendStarted?) {
      AppendedWitness(s, s', p, r, q);
    }
    forall q ensures ClosedBy(s'.log, s'.owner, q) <==> ClosedBy(s.log, s.owner, q) || (q == p && Closing(r.stage)) {
      AppendedWitness(s, s', p, r, q);
    }
    forall q | q in s'.procs ensures Placed(s', q) {
      if q in s.procs {
        assert Placed(s, q);
        var i :| 0 <= i < n && OpenedBy(s.log, s.owner, i, q, s.procs[q].intent.intentID);
        assert OpenedBy(s'.log, s'.owner, i, q, s.procs[q].intent.intentID);
      } else {
        assert OpenedBy(s'.log, s'.owner, n, p, proc.intent.intentID);
      }
      if q == p && proc.pc.Started? {
        assert !ClosedBy(s.log, s.owner, p);
      }
    }
    forall q, key | Carries(s, q, key) ensures Carries(s', q, key) && s'.procs[q].intent == s.procs[q].intent {}
    KeysKept(s, s');
  }

  lemma AppendedWitness(s: State, s': State, p: int, r: Record, q: int)
    requires |s.owner| == |s.log|
    requires s'.log == s.log + [r] && s'.owner == s.owner + [p]
    ensures SentBy(s', q) <==> SentBy(s, q) || (q == p && r.stage.SendStarted?)
    ensures ClosedBy(s'.log, s'.owner, q) <==> ClosedBy(s.log, s.owner, q) || (q == p && Closing(r.stage))
  {
    var n := |s.log|;
    assert s'.log[n] == r && s'.owner[n] == p;
    if SentBy(s, q) {
      var i :| 0 <= i < n && s.owner[i] == q && s.log[i].stage.SendStarted?;
      assert s'.owner[i] == q && s'.log[i].stage.SendStarted?;
    }
    if ClosedBy(s.log, s.owner, q) {
      var i :| 0 <= i < n && s.owner[i] == q && Closing(s.log[i].stage);
      assert s'.owner[i] == q && Closing(s'.log[i].stage);
    }
  }

  lemma KeysKept(s: State, s': State)
    requires Inv(s) && |s'.owner| == |s'.log|
    requires s'.wire == s.wire && s'.held == s.held && s'.day == s.day
    requires forall q, key :: Carries(s, q, key) ==> Carries(s', q, key) && s'.procs[q].intent == s.procs[q].intent
    ensures forall key :: key in s'.wire ==> exists q :: Carries(s', q, key)
    ensures forall key :: key in s'.held ==> Accounted(s', key)
  {
    forall key | key in s'.wire ensures exists q :: Carries(s', q, key) {
      var q :| Carries(s, q, key);
      assert Carries(s', q, key);
    }
    forall key | key in s'.held ensures Accounted(s', key) {
      assert Accounted(s, key);
      var q :| Carries(s, q, key) && CreatedBy(s.procs[q].intent, s.held[key]);
      assert Carries(s', q, key);
    }
  }

  lemma BeginKeeps(s: State, s': State, p: int, i: Intent, r: Record, alive: bool)
    requires Inv(s) && Begin(s, s', p, i, r, alive)
    ensures Inv(s')
  {
    forall k | 0 <= k < |s.log| ensures s.owner[k] != p { assert OwnsRecord(s, k); }
    AppendStep(s, s', p, r, Proc(i, if alive then Begun else Finished));
  }

  // A later stage of a lifecycle that is open and not yet closed.
  lemma LaterStageFollows(s: State, s': State, p: int, r: Record)
    requires Inv(s) && p in s.procs && !ClosedBy(s.log, s.owner, p)
    requires s'.log == s.log + [r] && s'.owner == s.owner + [p]
    requires !r.stage.IntentCreated? && r.intentID == s.procs[p].intent.intentID
    ensures Follows(s'.log, s'.owner, |s.log|)
  {
    assert Placed(s, p);
    var j :| 0 <= j < |s.log| && OpenedBy(s.log, s.owner, j, p, s.procs[p].intent.intentID);
    assert OpenedBy(s'.log, s'.owner, j, p, r.intentID);
  }

  lemma StartKeeps(s: State, s': State, p: int, r: Record, alive: bool)
    requires Inv(s) && Start(s, s', p, r, alive)
    ensures Inv(s')
  {
    assert Placed(s, p);
    LaterStageFollows(s, s', p, r);
    AppendStep(s, s', p, r, s.procs[p].(pc := if alive then Started else Finished));
  }

  lemma CloseKeeps(s: State, s': State, p: int, r: Record)
    requires Inv(s) && Close(s, s', p, r)
    ensures Inv(s')
  {
    assert Placed(s, p);
    LaterStageFollows(s, s', p, r);
    AppendStep(s, s', p, r, s.procs[p].(pc := Finished));
  }

  lemma ReconcileKeeps(s: State, s': State, p: int, r: Record)
    requires Inv(s) && Reconcile(s, s', p, r)
    ensures Inv(s')
  {
    assert Placed(s, p);
    LaterStageFollows(s, s', p, r);
    assert s.procs[p := s.procs[p]] == s.procs;
    AppendStep(s, s', p, r, s.procs[p]);
  }

  // Steps that leave the journal alone and may only finish processes.
  ghost predicate Quiet(s: State, s': State) {
    && s'.log == s.log && s'.owner == s.owner && s.day <= s'.day
    && s'.procs.Keys == s.procs.Keys
    && forall p :: p in s.procs ==> Calmer(s.procs[p], s'.procs[p])
  }

  predicate Calmer(a: Proc, b: Proc) {
    b == a || b == a.(pc := Finished)
  }

  lemma QuietKeeps(s: State, s': State)
    requires Inv(s) && Quiet(s, s')
    requires forall key :: key in s'.wire ==> exists p :: Carries(s, p, key)
    requires forall key :: key in s'.held ==>
               (key in s.held && s'.held[key] == s.held[key]) || (key in s.wire && s'.held[key] == s.day)
    ensures Inv(s')
  {
    forall i | 0 <= i < |s.log| ensures OwnsRecord(s', i) {
      assert OwnsRecord(s, i);
      var p := s.owner[i];
      assert p in s.procs;
      assert Calmer(s.procs[p], s'.procs[p]);
    }
    forall p | p in s'.procs ensures Placed(s', p) {
      assert Placed(s, p) && Calmer(s.procs[p], s'.procs[p]);
    }
    forall p, key | Carries(s, p, key) ensures Carries(s', p, key) && s'.procs[p].intent == s.procs[p].intent {
      assert Calmer(s.procs[p], s'.procs[p]);
    }
    forall key | key in s'.wire ensures exists p :: Carries(s', p, key) {
      var p :| Carries(s, p, key);
      assert Carries(s', p, key);
    }
    forall key | key in s'.held ensures Accounted(s', key) {
      if key in s.held && s'.held[key] == s.held[key] {
        assert Accounted(s, key);
        var p :| Carries(s, p, key) && CreatedBy(s.procs[p].intent, s.held[key]);
        assert Carries(s', p, key);
      } else {
        var p :| Carries(s, p, key);
        assert Placed(s, p) && Carries(s', p, key);
      }
    }
  }

  lemma TransmitKeeps(s: State, s': State, p: int)
    requires Inv(s) && Transmit(s, s', p)
    ensures Inv(s')
  {
    assert Placed(s, p) && Carries(s, p, s.procs[p].intent.orderID);
    QuietKeeps(s, s');
  }

  lemma StepKeeps(s: State, s': State)
    requires Inv(s) && Next(s, s')
    ensures Inv(s')
  {
    if
    case exists p, i, r, alive :: Begin(s, s', p, i, r, alive) =>
      var p, i, r, alive :| Begin(s, s', p, i, r, alive);
      BeginKeeps(s, s', p, i, r, alive);
    case exists p, r, alive :: Start(s, s', p, r, alive) =>
      var p, r, alive :| Start(s, s', p, r, alive);
      StartKeeps(s, s', p, r, alive);
    case exists p :: Transmit(s, s', p) =>
      var p :| Transmit(s, s', p);
      TransmitKeeps(s, s', p);
    case exists key :: Accept(s, s', key) => QuietKeeps(s, s');
    case exists key :: Drop(s, s', key) => QuietKeeps(s, s');
    case exists p, r :: Close(s, s', p, r) =>
      var p, r :| Close(s, s', p, r);
      CloseKeeps(s, s', p, r);
    case exists p :: Stop(s, s', p) => QuietKeeps(s, s');
    case exists p, r :: Reconcile(s, s', p, r) =>
      var p, r :| Reconcile(s, s', p, r);
      ReconcileKeeps(s, s', p, r);
    case Tick(s, s') => QuietKeeps(s, s');
  }

  ghost predicate IsRun(run: seq<State>) {
    && run != [] && Init(run[0])
    && (forall k :: 0 <= k < |run| ==> |run[k].owner| == |run[k].log|)
    && forall k :: 0 <= k < |run| - 1 ==> Next(run[k], run[k + 1])
  }

  lemma {:induction false} RunKeeps(run: seq<State>, k: nat)
    requires IsRun(run) && k < |run|
    ensures Inv(run[k])
  {
    if k > 0 {
      RunKeeps(run, k - 1);
      assert Next(run[k - 1], run[k - 1 + 1]);
      StepKeeps(run[k - 1], run[k]);
    }
  }

  // Write-ahead safety over every run: whatever key the broker holds has a durable
  // send-started record, and every lifecycle that may have sent is either closed or its
  // intent id is reported by the recovery scan.
  lemma NothingSentIsForgotten(run: seq<State>, k: nat)
    requires IsRun(run) && k < |run|
    ensures forall key :: key in run[k].held ==> Placement.SendJournaled(run[k].log, key)
    ensures forall p :: p in run[k].procs && SentBy(run[k], p) ==>
              ClosedBy(run[k].log, run[k].owner, p) || Reported(run[k].log, run[k].procs[p].intent.intentID)
  {
    RunKeeps(run, k);
    var s := run[k];
    forall key | key in s.held ensures Placement.SendJournaled(s.log, key) {
      assert Accounted(s, key);
      var p :| Carries(s, p, key) && CreatedBy(s.procs[p].intent, s.held[key]);
      var i :| 0 <= i < |s.log| && s.owner[i] == p && s.log[i].stage.SendStarted?;
      assert OwnsRecord(s, i);
    }
    forall p | p in s.procs && SentBy(s, p) && !ClosedBy(s.log, s.owner, p)
      ensures Reported(s.log, s.procs[p].intent.intentID)
    {
      var id := s.procs[p].intent.intentID;
      assert Placed(s, p);
      var i :| 0 <= i < |s.log| && OpenedBy(s.log, s.owner, i, p, id);
      assert p in Unclosed(s.log, s.owner, id);
      ReportedIffUnclosed(s.log, s.owner, id);
    }
  }

  // ---- reconcile at any time ----

  // A reconcile run may also close an id while a placement of it is under way, or once more
  // after it was closed: it looks at the journal, not at the processes.
  ghost predicate ReconcileAnyTime(s: State, s': State, p: int, r: Record) {
    && p in s.procs && r.stage.Reconciled? && r.intentID == s.procs[p].intent.intentID
    && s' == s.(log := s.log + [r], owner := s.owner + [p])
  }

  ghost predicate NextAnyTime(s: State, s': State)
    requires |s.owner| == |s.log|
  {
    Next(s, s') || exists p, r :: ReconcileAnyTime(s, s', p, r)
  }

  ghost predicate IsLooseRun(run: seq<State>) {
    && run != [] && Init(run[0])
    && (forall k :: 0 <= k < |run| ==> |run[k].owner| == |run[k].log|)
    && forall k :: 0 <= k < |run| - 1 ==> NextAnyTime(run[k], run[k + 1])
  }

  ghost predicate SoleLifecycle(s: State, id: string) {
    forall p, q ::
      p in s.procs && q in s.procs && s.procs[p].intent.intentID == s.procs[q].intent.intentID == id ==> p == q
  }

  // What is left of the invariant when closes may come at any time.
  ghost predicate LooseInv(s: State) {
    && |s.owner| == |s.log|
    && (forall i :: 0 <= i < |s.log| ==> OwnsRecord(s, i) && OpensFirst(s, i))
    && (forall p :: p in s.procs ==> LoosePlaced(s, p))
    && (forall key :: key in s.wire ==> exists p :: Carries(s, p, key))
    && (forall key :: key in s.held ==> Accounted(s, key))
  }

  // Intent-created is the first record of its lifecycle.
  ghost predicate OpensFirst(s: State, i: int)
    requires 0 <= i < |s.log| == |s.owner|
  {
    s.log[i].stage.IntentCreated? ==> forall j :: 0 <= j < i ==> s.owner[j] != s.owner[i]
  }

  ghost predicate LoosePlaced(s: State, p: int)
    requires |s.owner| == |s.log| && p in s.procs
  {
    && s.procs[p].intent.intentID == s.procs[p].intent.orderID && CreatedBy(s.procs[p].intent, s.day)
    && (s.procs[p].pc.Begun? ==> !SentBy(s, p))
    && (s.procs[p].pc.Started? ==> SentBy(s, p))
  }

  // What a step does: the journal grows by at most one record, of a process whose intent it
  // shows; processes keep their intents, and one that was not begun never is again.
  ghost predicate Steps(s: State, s': State)
    requires |s.owner| == |s.log|
  {
    && |s'.owner| == |s'.log| && s.log <= s'.log && s.owner <= s'.owner && |s'.log| <= |s.log| + 1
    && s.day <= s'.day
    && (|s'.log| > |s.log| ==> Records(s, s'))
    && (forall p :: p in s.procs ==> p in s'.procs && s'.procs[p].intent == s.procs[p].intent)
    && (forall p :: p in s'.procs ==> Moves(s, s', p))
    && (forall key :: key in s'.wire && key !in s.wire ==> exists p :: Carries(s, p, key))
    && (forall key :: key in s'.held ==>
          || (key in s.held && s'.held[key] == s.held[key])
          || (key in s.wire && s'.held[key] == s.day))
  }

  ghost predicate Records(s: State, s': State)
    requires |s.owner| == |s.log| < |s'.log| == |s'.owner|
  {
    var n, p := |s.log|, s'.owner[|s.log|];
    && OwnsRecord(s', n)
    && (s'.log[n].stage.IntentCreated? ==> p !in s.procs)
    && (s'.log[n].stage.SendStarted? ==> p in s.procs && !s'.procs[p].pc.Begun?)
  }

  ghost predicate Moves(s: State, s': State, p: int)
    requires |s.owner| == |s.log| && |s'.owner| == |s'.log| && p in s'.procs
  {
    && (p !in s.procs ==> s'.procs[p].intent.intentID == s'.procs[p].intent.orderID
                          && CreatedBy(s'.procs[p].intent, s'.day) && !s'.procs[p].pc.Started?)
    && (p in s.procs && s'.procs[p].pc.Begun? ==> s.procs[p].pc.Begun?)
    && (p in s.procs && s'.procs[p].pc.Started? ==>
          s.procs[p].pc.Started?
          || (|s'.log| > |s.log| && s'.owner[|s.log|] == p && s'.log[|s.log|].stage.SendStarted?))
  }

  lemma StepsKeep(s: State, s': State)
    requires LooseInv(s) && Steps(s, s')
    ensures LooseInv(s')
  {
    forall i | 0 <= i < |s'.log| ensures OwnsRecord(s', i) && OpensFirst(s', i) {
      OlderRecord(s, s', i);
    }
    forall p | p in s'.procs ensures LoosePlaced(s', p) {
      StillPlaced(s, s', p);
    }
    forall p, key | Carries(s, p, key) ensures Carries(s', p, key) && s'.procs[p].intent == s.procs[p].intent {
      SentStays(s, s', p);
    }
    forall key | key in s'.wire ensures exists p :: Carries(s', p, key) {
      var p :| Carries(s, p, key);
      assert Carries(s', p, key);
    }
    forall key | key in s'.held ensures Accounted(s', key) {
      StillAccounted(s, s', key);
    }
  }

  lemma OlderRecord(s: State, s': State, i: int)
    requires LooseInv(s) && Steps(s, s') && 0 <= i < |s'.log|
    ensures OwnsRecord(s', i) && OpensFirst(s', i)
  {
    if i < |s.log| {
      assert OwnsRecord(s, i) && OpensFirst(s, i) && s'.log[i] == s.log[i];
      assert forall j :: 0 <= j <= i ==> s'.owner[j] == s.owner[j];
    } else {
      forall j | 0 <= j < i ensures s'.owner[j] in s.procs {
        assert OwnsRecord(s, j) && s'.owner[j] == s.owner[j];
      }
    }
  }

  lemma SentStays(s: State, s': State, p: int)
    requires LooseInv(s) && Steps(s, s')
    ensures SentBy(s, p) ==> SentBy(s', p)
    ensures SentBy(s', p) && !SentBy(s, p) ==>
              |s'.log| > |s.log| && s'.owner[|s.log|] == p && s'.log[|s.log|].stage.SendStarted?
  {
    if SentBy(s, p) {
      var i :| 0 <= i < |s.log| && s.owner[i] == p && s.log[i].stage.SendStarted?;
      assert s'.owner[i] == p && s'.log[i].stage.SendStarted?;
    }
    if SentBy(s', p) {
      var i :| 0 <= i < |s'.log| && s'.owner[i] == p && s'.log[i].stage.SendStarted?;
      assert i < |s.log| ==> s.log[i] == s'.log[i] && s.owner[i] == s'.owner[i];
    }
  }

  lemma StillPlaced(s: State, s': State, p: int)
    requires LooseInv(s) && Steps(s, s') && p in s'.procs
    ensures LoosePlaced(s', p)
  {
    assert Moves(s, s', p);
    SentStays(s, s', p);
    if SentBy(s, p) {
      var i :| 0 <= i < |s.log| && s.owner[i] == p && s.log[i].stage.SendStarted?;
      assert OwnsRecord(s, i);
    }
    if p in s.procs {
      assert LoosePlaced(s, p);
    }
  }

  lemma StillAccounted(s: State, s': State, key: string)
    requires LooseInv(s) && Steps(s, s') && key in s'.held
    requires |s'.owner| == |s'.log|
    requires forall p, k :: Carries(s, p, k) ==> Carries(s', p, k) && s'.procs[p].intent == s.procs[p].intent
    ensures Accounted(s', key)
  {
    if key in s.held && s'.held[key] == s.held[key] {
      assert Accounted(s, key);
      var p :| Carries(s, p, key) && CreatedBy(s.procs[p].intent, s.held[key]);
      assert Carries(s', p, key);
    } else {
      var p :| Carries(s, p, key);
      assert LoosePlaced(s, p) && Carries(s', p, key);
    }
  }

  lemma BeginSteps(s: State, s': State, p: int, i: Intent, r: Record, alive: bool)
    requires LooseInv(s) && Begin(s, s', p, i, r, alive)
    ensures Steps(s, s')
  {}

  lemma StartSteps(s: State, s': State, p: int, r: Record, alive: bool)
    requires LooseInv(s) && Start(s, s', p, r, alive)
    ensures Steps(s, s')
  {
    assert LoosePlaced(s, p);
  }

  lemma CloseSteps(s: State, s': State, p: int, r: Record)
    requires LooseInv(s) && (Close(s, s', p, r) || ReconcileAnyTime(s, s', p, r))
    ensures Steps(s, s')
  {}

  lemma TransmitSteps(s: State, s': State, p: int)
    requires LooseInv(s) && Transmit(s, s', p)
    ensures Steps(s, s')
  {
    assert LoosePlaced(s, p) && Carries(s, p, s.procs[p].intent.orderID);
  }

  lemma BrokerSteps(s: State, s': State)
    requires LooseInv(s)
    requires || (exists key :: Accept(s, s', key)) || (exists key :: Drop(s, s', key))
             || (exists p :: Stop(s, s', p)) || Tick(s, s')
    ensures Steps(s, s')
  {}

  lemma NextSteps(s: State, s': State)
    requires LooseInv(s) && NextAnyTime(s, s')
    ensures Steps(s, s')
  {
    if
    case exists p, i, r, alive :: Begin(s, s', p, i, r, alive) =>
      var p, i, r, alive :| Begin(s, s', p, i, r, alive);
      BeginSteps(s, s', p, i, r, alive);
    case exists p, r, alive :: Start(s, s', p, r, alive) =>
      var p, r, alive :| Start(s, s', p, r, alive);
      StartSteps(s, s', p, r, alive);
    case exists p :: Transmit(s, s', p) =>
      var p :| Transmit(s, s', p);
      TransmitSteps(s, s', p);
    case exists key :: Accept(s, s', key) => BrokerSteps(s, s');
    case exists key :: Drop(s, s', key) => BrokerSteps(s, s');
    case exists p, r :: Close(s, s', p, r) =>
      var p, r :| Close(s, s', p, r);
      CloseSteps(s, s', p, r);
    case exists p :: Stop(s, s', p) => BrokerSteps(s, s');
    case exists p, r :: Reconcile(s, s', p, r) =>
      var p, r :| Reconcile(s, s', p, r);
      assert ReconcileAnyTime(s, s', p, r);
      CloseSteps(s, s', p, r);
    case Tick(s, s') => BrokerSteps(s, s');
    case exists p, r :: ReconcileAnyTime(s, s', p, r) =>
      var p, r :| ReconcileAnyTime(s, s', p, r);
      CloseSteps(s, s', p, r);
  }

  lemma {:induction false} LooseRunKeeps(run: seq<State>, k: nat)
    requires IsLooseRun(run) && k < |run|
    ensures LooseInv(run[k])
  {
    if k > 0 {
      LooseRunKeeps(run, k - 1);
      assert NextAnyTime(run[k - 1], run[k - 1 + 1]);
      NextSteps(run[k - 1], run[k]);
      StepsKeep(run[k - 1], run[k]);
    }
  }

  // A close of the lifecycle that was written after its send-started record.
  ghost predicate ClosedAfterSend(s: State, p: int)
    requires |s.owner| == |s.log|
  {
    exists i, j :: 0 <= i < j < |s.log| && s.owner[i] == s.owner[j] == p
                   && s.log[i].stage.SendStarted? && Closing(s.log[j].stage)
  }

  // Write-ahead safety when reconcile may run at any time: a held key has its send-started
  // record, and a sent lifecycle whose id is its own was closed after it was sent, or its
  // id is reported.
  lemma NothingSentIsForgottenAnyTime(run: seq<State>, k: nat)
    requires IsLooseRun(run) && k < |run|
    ensures forall key :: key in run[k].held ==> Placement.SendJournaled(run[k].log, key)
    ensures forall p :: p in run[k].procs && SentBy(run[k], p)
                        && SoleLifecycle(run[k], run[k].procs[p].intent.intentID) ==>
              ClosedAfterSend(run[k], p) || Reported(run[k].log, run[k].procs[p].intent.intentID)
  {
    LooseRunKeeps(run, k);
    var s := run[k];
    forall key | key in s.held ensures Placement.SendJournaled(s.log, key) {
      assert Accounted(s, key);
      var p :| Carries(s, p, key) && CreatedBy(s.procs[p].intent, s.held[key]);
      var i :| 0 <= i < |s.log| && s.owner[i] == p && s.log[i].stage.SendStarted?;
      assert OwnsRecord(s, i);
    }
    forall p | p in s.procs && SentBy(s, p) && SoleLifecycle(s, s.procs[p].intent.intentID)
        && !ClosedAfterSend(s, p)
      ensures Reported(s.log, s.procs[p].intent.intentID)
    {
      UnclosedIsReported(s, p);
    }
  }

  lemma UnclosedIsReported(s: State, p: int)
    requires LooseInv(s) && p in s.procs && SentBy(s, p) && SoleLifecycle(s, s.procs[p].intent.intentID)
    requires !ClosedAfterSend(s, p)
    ensures Reported(s.log, s.procs[p].intent.intentID)
  {
    var id := s.procs[p].intent.intentID;
    var i :| 0 <= i < |s.log| && s.owner[i] == p && s.log[i].stage.SendStarted?;
    assert OwnsRecord(s, i);
    LastExists(s.log, id, i);
    var last :| IsLast(s.log, id, last);
    assert OwnsRecord(s, last);
    assert s.owner[last] == p && i <= last;
  }

  // t is reached from s by steps that include closes at any time.
  ghost predicate LooseReaches(s: State, t: State) {
    exists path: seq<State> :: IsLoosePath(path, s, t)
  }

  ghost predicate IsLoosePath(path: seq<State>, s: State, t: State) {
    && path != [] && path[0] == s && path[|path|-1] == t
    && (forall k :: 0 <= k < |path| ==> |path[k].owner| == |path[k].log|)
    && forall k :: 0 <= k < |path| - 1 ==> NextAnyTime(path[k], path[k + 1])
  }

  lemma LooseReachesItself(s: State)
    requires |s.owner| == |s.log|
    ensures LooseReaches(s, s)
  {
    assert IsLoosePath([s], s, s);
  }

  lemma LooseReachesMore(a: State, b: State, c: State)
    requires LooseReaches(a, b) && |b.owner| == |b.log| && |c.owner| == |c.log| && NextAnyTime(b, c)
    ensures LooseReaches(a, c)
  {
    var path: seq<State> :| IsLoosePath(path, a, b);
    var after := path + [c];
    forall k | 0 <= k < |after| - 1 ensures NextAnyTime(after[k], after[k + 1]) {
      if k < |path| - 1 {
        assert after[k] == path[k] && after[k + 1] == path[k + 1];
      }
    }
    assert IsLoosePath(after, a, c);
  }

  lemma LooseReachesOn(a: State, b: State, c: State)
    requires LooseReaches(a, b) && LooseReaches(b, c)
    ensures LooseReaches(a, c)
  {
    var path: seq<State> :| IsLoosePath(path, a, b);
    var more: seq<State> :| IsLoosePath(more, b, c);
    var all := path + more[1..];
    forall k | 0 <= k < |all| - 1 ensures NextAnyTime(all[k], all[k + 1]) {
      var m := k - |path| + 1;
      if k < |path| - 1 {
        assert all[k] == path[k] && all[k + 1] == path[k + 1];
      } else {
        assert all[k] == more[m] && all[k + 1] == more[m + 1];
      }
    }
    assert IsLoosePath(all, a, c);
  }

  lemma {:induction false} LoosePathKeeps(path: seq<State>, s: State, t: State, k: nat)
    requires LooseInv(s) && IsLoosePath(path, s, t) && k < |path|
    ensures LooseInv(path[k])
  {
    if k > 0 {
      LoosePathKeeps(path, s, t, k - 1);
      assert NextAnyTime(path[k - 1], path[k - 1 + 1]);
      NextSteps(path[k - 1], path[k]);
      StepsKeep(path[k - 1], path[k]);
    }
  }

  // ---- what the placement procedure writes is a run of the protocol ----

  // The records a placement may leave, as its procedure promises them.
  ghost predicate PlacementRecords(records: seq<Record>, i: Intent) {
    && 1 <= |records| <= 3
    && Placement.Writes(records[0], i, IntentCreated)
    && (|records| >= 2 ==> Placement.Writes(records[1], i, SendStarted))
    && (|records| == 3 ==> (records[2].stage.BrokerConfirmed? || records[2].stage.BrokerRejected?)
                           && Placement.Writes(records[2], i, records[2].stage))
  }

  // b is reached from a by some number of steps.
  ghost predicate Reaches(a: State, b: State) {
    exists run: seq<State> :: IsPath(run, a, b)
  }

  ghost predicate IsPath(run: seq<State>, a: State, b: State) {
    && run != [] && run[0] == a && run[|run|-1] == b
    && (forall k :: 0 <= k < |run| ==> |run[k].owner| == |run[k].log|)
    && forall k :: 0 <= k < |run| - 1 ==> Next(run[k], run[k + 1])
  }

  lemma ReachesMore(a: State, b: State, c: State)
    requires Reaches(a, b) && |b.owner| == |b.log| && |c.owner| == |c.log| && Next(b, c)
    ensures Reaches(a, c)
  {
    var run: seq<State> :| IsPath(run, a, b);
    var after := run + [c];
    forall k | 0 <= k < |after| - 1 ensures Next(after[k], after[k + 1]) {
      if k < |run| - 1 {
        assert after[k] == run[k] && after[k + 1] == run[k + 1];
      }
    }
    assert IsPath(after, a, c);
  }

  // The state after k records of lifecycle p.
  function After(s: State, p: int, i: Intent, records: seq<Record>, k: nat, pc: Pc, wire: set<string>): State
    requires k <= |records|
  {
    s.(log := s.log + records[..k], owner := s.owner + seq(k, _ => p), procs := s.procs[p := Proc(i, pc)], wire := wire)
  }

  lemma WriteStep(s: State, p: int, i: Intent, records: seq<Record>, k: nat, from: Pc, to: Pc, wire: set<string>)
    requires |s.owner| == |s.log| && PlacementRecords(records, i) && k < |records|
    requires (from, to) == (if k == 1 then (Begun, Started) else (Started, Finished)) && k > 0
    ensures Next(After(s, p, i, records, k, from, wire), After(s, p, i, records, k + 1, to, wire))
  {
    var a, b := After(s, p, i, records, k, from, wire), After(s, p, i, records, k + 1, to, wire);
    assert b.log == a.log + [records[k]] && b.owner == a.owner + [p];
    assert b.procs == a.procs[p := a.procs[p].(pc := to)];
    if k == 1 {
      assert Start(a, b, p, records[k], true);
    } else {
      assert Close(a, b, p, records[k]);
    }
  }

  lemma BeginStep(s: State, p: int, i: Intent, records: seq<Record>)
    requires |s.owner| == |s.log| && p !in s.procs && i.intentID == i.orderID && CreatedBy(i, s.day)
    requires PlacementRecords(records, i)
    ensures Next(s, After(s, p, i, records, 1, Begun, s.wire))
  {
    assert records[..1] == [records[0]] && seq(1, _ => p) == [p];
    assert Begin(s, After(s, p, i, records, 1, Begun, s.wire), p, i, records[0], true);
  }

  lemma TransmitStep(s: State, p: int, i: Intent, records: seq<Record>)
    requires |s.owner| == |s.log| && |records| >= 2
    ensures Next(After(s, p, i, records, 2, Started, s.wire), After(s, p, i, records, 2, Started, s.wire + {i.orderID}))
  {
    assert Transmit(After(s, p, i, records, 2, Started, s.wire),
        After(s, p, i, records, 2, Started, s.wire + {i.orderID}), p);
  }

  lemma StopStep(s: State, p: int, i: Intent, records: seq<Record>, pc: Pc, wire: set<string>)
    requires |s.owner| == |s.log|
    ensures Next(After(s, p, i, records, |records|, pc, wire), After(s, p, i, records, |records|, Finished, wire))
  {
    var a, b := After(s, p, i, records, |records|, pc, wire), After(s, p, i, records, |records|, Finished, wire);
    assert b.procs == a.procs[p := a.procs[p].(pc := Finished)];
    assert Stop(a, b, p);
  }

  lemma Sends(s: State, p: int, i: Intent, records: seq<Record>, transmitted: bool)
    requires |s.owner| == |s.log| && PlacementRecords(records, i) && |records| >= 2
    requires Reaches(s, After(s, p, i, records, 1, Begun, s.wire))
    ensures Reaches(s, After(s, p, i, records, 2, Started, if transmitted then s.wire + {i.orderID} else s.wire))
  {
    WriteStep(s, p, i, records, 1, Begun, Started, s.wire);
    ReachesMore(s, After(s, p, i, records, 1, Begun, s.wire), After(s, p, i, records, 2, Started, s.wire));
    if transmitted {
      TransmitStep(s, p, i, records);
      ReachesMore(s, After(s, p, i, records, 2, Started, s.wire),
          After(s, p, i, records, 2, Started, s.wire + {i.orderID}));
    }
  }

  lemma Ends(s: State, p: int, i: Intent, records: seq<Record>, wire: set<string>)
    requires |s.owner| == |s.log| && PlacementRecords(records, i)
    requires |records| == 1 ==> Reaches(s, After(s, p, i, records, 1, Begun, wire))
    requires |records| >= 2 ==> Reaches(s, After(s, p, i, records, 2, Started, wire))
    ensures Reaches(s, After(s, p, i, records, |records|, Finished, wire))
  {
    if |records| == 3 {
      WriteStep(s, p, i, records, 2, Started, Finished, wire);
      ReachesMore(s, After(s, p, i, records, 2, Started, wire), After(s, p, i, records, 3, Finished, wire));
    } else {
      var pc := if |records| == 1 then Begun else Started;
      StopStep(s, p, i, records, pc, wire);
      ReachesMore(s, After(s, p, i, records, |records|, pc, wire), After(s, p, i, records, |records|, Finished, wire));
    }
  }

  // Whatever a placement wrote, and whether or not its request went out, the protocol has
  // steps that write exactly those records, put exactly that request on the wire and end
  // with the process finished.
  lemma PlacementIsARun(s: State, p: int, i: Intent, records: seq<Record>, transmitted: bool) returns (end: State)
    requires |s.owner| == |s.log| && p !in s.procs && i.intentID == i.orderID && CreatedBy(i, s.day)
    requires PlacementRecords(records, i) && (transmitted ==> |records| >= 2)
    ensures Reaches(s, end)
    ensures end.log == s.log + records && end.procs == s.procs[p := Proc(i, Finished)]
    ensures end.wire == (if transmitted then s.wire + {i.orderID} else s.wire)
    ensures end.held == s.held && end.day == s.day
  {
    var wire := if transmitted then s.wire + {i.orderID} else s.wire;
    assert IsPath([s], s, s);
    BeginStep(s, p, i, records);
    ReachesMore(s, s, After(s, p, i, records, 1, Begun, s.wire));
    if |records| >= 2 {
      Sends(s, p, i, records, transmitted);
    }
    Ends(s, p, i, records, wire);
    end := After(s, p, i, records, |records|, Finished, wire);
    assert records[..|records|] == records;
  }
}
