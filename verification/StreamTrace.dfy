/** What a stream consumer may observe: a monitor over the events of a run, and what
    every accepted trace therefore satisfies. */
module StreamTraces {
  import opened Wrappers
  import opened OrderBooks

  datatype Kind = Connected | Disconnected | Resubscribed | Lagging

  datatype Reason = Unspecified | ConnectError | ResubscribeError | ReconcileError | BufferOverflow | WatchdogTimeout
                  | Eof | StreamError | Shutdown

  // What a run hears and what it does. Heard: a session opened or refused, a request sent or
  // not, a message or an error from the stream, all snapshots of a round, the watchdog
  // expired, the context cancelled. Done: a lifecycle event, a message handed to the consumer,
  // the receive loop started with its watchdog armed, an error taken up, a wait chosen by so
  // many failures in a row.
  datatype Event =
    | Life(kind: Kind, attempt: int, subscriptions: int, reason: Reason, err: Option<Err>, final: bool, time: int)
    | Opened
    | Refused(cause: Err)
    | Sent(request: int)
    | Unsent(cause: Err)
    | Got(frame: Frame, activity: bool, time: int)
    | Reconciled(answers: seq<Answer>)
    | Delivered(frame: Frame)
    | Listening(armed: int, time: int)
    | Broke(cause: Err)
    | Lost(time: int)
    | Expired(time: int)
    | Waits(failures: nat)
    | Cancelled

  // filtered: the order-book reconciliation is configured; otherwise nothing is buffered.
  // replay and subscriptions: what the registry asks every connection to start with.
  // uids: the instruments of which the reconciliation takes snapshots.
  datatype Config = Config(filtered: bool, uids: seq<string>, maxBuffer: nat, watchdog: int,
                           replay: seq<int>, subscriptions: nat)

  // Between an input and the reaction it calls for the phase says which input it was.
  datatype Phase = Idle | Rejected(cause: Err) | Replaying(done: nat) | Halted(cause: Err) | Greeting | Up | Overflow
                 | Quiet | Lag(reason: Reason) | Unsettled(cause: Err) | Torn(cause: Err) | Failing(cause: Err) | Paused
                 | Closing(connected: bool) | Fatal | Ended

  // One connection: what it has received before and after its snapshots, what it has
  // delivered of that, a message that is passed straight on, when it was last active, and
  // since when it has been listened to.
  datatype Conn = Conn(subscriptions: int, before: seq<Frame>, after: seq<Frame>, marks: Option<Marks>,
                       sent: seq<Frame>, owed: Option<Frame>, active: int, since: Option<int>)

  // failures: how many attempts and connections have failed in a row.
  datatype Mon = Mon(connections: nat, failures: nat, phase: Phase, conn: Conn)

  const NO_CONN := Conn(0, [], [], None, [], None, 0, None)
  const START := Mon(0, 0, Idle, NO_CONN)

  // One answer for every instrument, every one of them a snapshot that was written out.
  predicate Taken(cfg: Config, answers: seq<Answer>) {
    |answers| == |cfg.uids| && forall i :: 0 <= i < |answers| ==> Fine(answers[i])
  }

  // Everything received so far has been dealt with.
  predicate Settled(c: Conn) {
    c.owed.None? && (c.marks.Some? ==> c.sent == Expected(c.before, c.after, c.marks.value))
  }

  // An error that a new connection cannot cure is the end of the run.
  function AfterLoss(err: Option<Err>): Phase {
    if err.Some? && !Reconnectable(err.value) then Fatal else Paused
  }

  // One more failure, after which the run ends or pauses.
  function Failed(m: Mon, err: Option<Err>): Mon {
    m.(failures := m.failures + 1, phase := AfterLoss(err))
  }

  function StreamErrorReason(err: Err): Reason {
    if err.eof then Eof else StreamError
  }

  // Outside every connection, with the run still going.
  predicate Unconnected(m: Mon) {
    || m.phase == Idle || m.phase.Rejected? || m.phase.Replaying? || m.phase.Halted? || m.phase == Paused
    || m.phase == Closing(false)
  }

  // What stops a round of snapshots: its first failure.
  function FirstFailure(answers: seq<Answer>): Option<Err> {
    if answers == [] then None
    else if Fine(answers[0]) then FirstFailure(answers[1..])
    else Some(Failure(answers[0]))
  }

  lemma {:induction false} FirstFailureMeans(answers: seq<Answer>)
    ensures FirstFailure(answers).None? <==> forall i :: 0 <= i < |answers| ==> Fine(answers[i])
    ensures FirstFailure(answers).Some? ==>
              exists i :: 0 <= i < |answers| && !Fine(answers[i]) && FirstFailure(answers) == Some(Failure(answers[i]))
                          && forall j :: 0 <= j < i ==> Fine(answers[j])
  {
    if answers != [] && Fine(answers[0]) {
      FirstFailureMeans(answers[1..]);
      assert forall j :: 0 < j < |answers| ==> answers[j] == answers[1..][j-1];
      if FirstFailure(answers).Some? {
        var i :| 0 <= i < |answers[1..]| && !Fine(answers[1..][i])
                 && FirstFailure(answers) == Some(Failure(answers[1..][i]))
                 && forall j :: 0 <= j < i ==> Fine(answers[1..][j]);
        assert !Fine(answers[i+1]);
      }
    }
  }

  // The run shuts down: its context is cancelled, or an error says that it is.
  predicate MayEnd(m: Mon) {
    m.phase.Closing? || ((m.phase.Torn? || m.phase.Unsettled?) && m.phase.cause.canceled)
  }

  // Where the run looks whether its context is cancelled.
  predicate MayNotice(m: Mon) {
    || m.phase == Idle || m.phase.Replaying? || (m.phase == Up && m.conn.owed.None?)
    || m.phase.Torn? || m.phase.Unsettled?
  }

  function NextLife(cfg: Config, m: Mon, e: Event): Option<Mon>
    requires e.Life?
  {
    var here := e.attempt == m.connections && e.subscriptions == m.conn.subscriptions && !e.final;
    match e.kind
    case Connected =>
      if m.phase == Replaying(|cfg.replay|) && e.attempt == m.connections + 1 && e.reason == Unspecified && !e.final
         && e.subscriptions == cfg.subscriptions && e.err.None?
      then Some(Mon(m.connections + 1, m.failures, if m.connections > 0 then Greeting else Up,
                    Conn(e.subscriptions, [], [], None, [], None, e.time, None)))
      else None
    case Resubscribed =>
      if m.phase == Greeting && here && e.reason == Unspecified && e.err.None? then Some(m.(phase := Up)) else None
    case Lagging =>
      if e.err.Some? then None
      else if m.phase == Overflow && here && e.reason == BufferOverflow then Some(m.(phase := Lag(BufferOverflow)))
      else if m.phase == Quiet && here && e.reason == WatchdogTimeout && e.time >= m.conn.active + cfg.watchdog
      then Some(m.(phase := Lag(WatchdogTimeout)))
      else None
    case Disconnected =>
      if e.final then
        if MayEnd(m) && e.attempt == m.connections && e.reason == Shutdown && e.subscriptions == 0 && e.err.None?
        then Some(m.(phase := Ended)) else None
      else if Losing(cfg, m, e) then Some(Failed(m, e.err)) else None
  }

  // A connection, or an attempt at one, is lost for what the phase says.
  predicate Losing(cfg: Config, m: Mon, e: Event)
    requires e.Life?
  {
    var here := e.attempt == m.connections && e.subscriptions == m.conn.subscriptions;
    match m.phase
    case Rejected(cause) =>
      e.attempt == m.failures + 1 && e.subscriptions == 0 && e.reason == ConnectError && e.err == Some(cause)
    case Halted(cause) =>
      && e.attempt == m.failures + 1 && e.subscriptions == cfg.subscriptions
      && e.reason == ResubscribeError && e.err == Some(cause)
    case Unsettled(cause) => here && e.reason == ReconcileError && e.err == Some(cause)
    case Failing(cause) => here && e.reason == StreamErrorReason(cause) && e.err == Some(cause)
    case Lag(reason) => here && e.reason == reason && e.err.None?
    case _ => false
  }

  function NextGot(cfg: Config, m: Mon, e: Event): Option<Mon>
    requires e.Got?
  {
    if !Attentive(m) then None
    else
      var c := m.conn.(active := if e.activity then e.time else m.conn.active);
      if !(cfg.filtered && e.frame.Book?) then Some(m.(conn := c.(owed := Some(e.frame))))
      else if c.marks.Some? then Some(m.(conn := c.(after := c.after + [e.frame])))
      else if |c.before| < cfg.maxBuffer then Some(m.(conn := c.(before := c.before + [e.frame])))
      else Some(m.(phase := Overflow, conn := c))
  }

  function NextDelivered(cfg: Config, m: Mon, f: Frame): Option<Mon> {
    var c := m.conn;
    if m.phase != Up then None
    else if c.owed == Some(f) then Some(m.(conn := c.(owed := None)))
    else if c.owed.None? && cfg.filtered && f.Book? && c.marks.Some?
            && c.sent + [f] <= Expected(c.before, c.after, c.marks.value)
    then Some(m.(conn := c.(sent := c.sent + [f])))
    else None
  }

  // A connection that has been listened to for a whole watchdog interval clears the failures
  // before it.
  predicate Steady(cfg: Config, m: Mon, time: int)
    requires m.conn.since.Some?
  {
    time - m.conn.since.value >= cfg.watchdog
  }

  // Between two messages of a connection that is listened to.
  predicate Attentive(m: Mon) {
    m.phase == Up && Settled(m.conn) && m.conn.since.Some?
  }

  // The monitor: what may come next, and where it leads.
  function Next(cfg: Config, m: Mon, e: Event): Option<Mon> {
    match e
    case Life(_, _, _, _, _, _, _) => NextLife(cfg, m, e)
    case Opened => if m.phase == Idle then Some(m.(phase := Replaying(0))) else None
    case Refused(cause) => if m.phase == Idle then Some(m.(phase := Rejected(cause))) else None
    case Sent(request) =>
      if m.phase.Replaying? && m.phase.done < |cfg.replay| && request == cfg.replay[m.phase.done]
      then Some(m.(phase := Replaying(m.phase.done + 1))) else None
    case Unsent(cause) =>
      if m.phase.Replaying? && m.phase.done < |cfg.replay| then Some(m.(phase := Halted(cause))) else None
    case Got(_, _, _) => NextGot(cfg, m, e)
    case Reconciled(answers) =>
      if Attentive(m) && cfg.filtered && m.conn.marks.None? && |answers| == |cfg.uids|
      then Some(match FirstFailure(answers)
                case None => m.(conn := m.conn.(marks := Some(MarksOf(cfg.uids, answers))))
                case Some(cause) => m.(phase := Unsettled(cause)))
      else None
    case Delivered(f) => NextDelivered(cfg, m, f)
    case Listening(armed, time) =>
      if m.phase == Up && m.conn.since.None? then Some(m.(conn := m.conn.(active := armed, since := Some(time))))
      else None
    case Broke(cause) => if Attentive(m) then Some(m.(phase := Torn(cause))) else None
    case Lost(time) =>
      if m.phase.Torn? && m.conn.since.Some?
      then Some(m.(phase := Failing(m.phase.cause), failures := if Steady(cfg, m, time) then 0 else m.failures))
      else None
    case Expired(time) =>
      if Attentive(m) && time >= m.conn.active + cfg.watchdog then Some(m.(phase := Quiet)) else None
    case Waits(failures) =>
      if m.phase == Paused && failures == m.failures then Some(m.(phase := Idle)) else None
    case Cancelled => if MayNotice(m) then Some(m.(phase := Closing(!Unconnected(m)))) else None
  }

  function Scan(cfg: Config, trace: seq<Event>): Option<Mon> {
    if trace == [] then Some(START)
    else
      match Scan(cfg, trace[..|trace|-1])
      case None => None
      case Some(m) => Next(cfg, m, trace[|trace|-1])
  }

  ghost predicate Accepted(cfg: Config, trace: seq<Event>) {
    Scan(cfg, trace).Some?
  }

  lemma ScanSnoc(cfg: Config, trace: seq<Event>, e: Event)
    requires Accepted(cfg, trace)
    ensures Scan(cfg, trace + [e]) == Next(cfg, Scan(cfg, trace).value, e)
  {
    assert (trace + [e])[..|trace|] == trace;
  }

  // ---- what accepted traces satisfy ----

  lemma {:induction false} PrefixAccepted(cfg: Config, trace: seq<Event>, n: nat)
    requires Accepted(cfg, trace) && n <= |trace|
    ensures Accepted(cfg, trace[..n])
    decreases |trace|
  {
    if n == |trace| {
      assert trace[..n] == trace;
    } else {
      PrefixAccepted(cfg, trace[..|trace|-1], n);
      assert trace[..|trace|-1][..n] == trace[..n];
    }
  }

  lemma LastStep(cfg: Config, trace: seq<Event>)
    requires trace != [] && Accepted(cfg, trace)
    ensures var n: nat := |trace| - 1;
            && Accepted(cfg, trace[..n])
            && Next(cfg, Scan(cfg, trace[..n]).value, trace[n]) == Some(Scan(cfg, trace).value)
  {}

  // The monitor's state just before event i, and the step it takes there.
  lemma StepAt(cfg: Config, trace: seq<Event>, i: nat) returns (m: Mon, m': Mon)
    requires Accepted(cfg, trace) && i < |trace|
    ensures Scan(cfg, trace[..i]) == Some(m) && Scan(cfg, trace[..i+1]) == Some(m')
    ensures Next(cfg, m, trace[i]) == Some(m')
  {
    PrefixAccepted(cfg, trace, i);
    PrefixAccepted(cfg, trace, i + 1);
    assert trace[..i+1] == trace[..i] + [trace[i]];
    ScanSnoc(cfg, trace[..i], trace[i]);
    m := Scan(cfg, trace[..i]).value;
    m' := Scan(cfg, trace[..i+1]).value;
  }

  predicate Is(e: Event, kind: Kind) {
    e.Life? && e.kind == kind
  }

  function Connections(trace: seq<Event>): nat {
    if trace == [] then 0
    else Connections(trace[..|trace|-1]) + if Is(trace[|trace|-1], Connected) then 1 else 0
  }

  lemma {:induction false} CountsConnections(cfg: Config, trace: seq<Event>)
    requires Accepted(cfg, trace)
    ensures Scan(cfg, trace).value.connections == Connections(trace)
  {
    if trace != [] {
      CountsConnections(cfg, trace[..|trace|-1]);
    }
  }

  // Connected attempts are 1, 2, 3, ...
  lemma ConnectedNumbered(cfg: Config, trace: seq<Event>, i: nat)
    requires Accepted(cfg, trace) && i < |trace| && Is(trace[i], Connected)
    ensures trace[i].attempt == Connections(trace[..i]) + 1
  {
    var m, m' := StepAt(cfg, trace, i);
    CountsConnections(cfg, trace[..i]);
  }

  lemma OnReplaying(cfg: Config, m: Mon, e: Event, m': Mon)
    requires Next(cfg, m, e) == Some(m') && m'.phase.Replaying?
    ensures (e == Opened && m'.phase.done == 0)
            || (m.phase.Replaying? && m'.phase.done == m.phase.done + 1 <= |cfg.replay|
                && e == Sent(cfg.replay[m.phase.done]))
  {}

  // The requests sent since the session was opened.
  ghost predicate Replayed(cfg: Config, trace: seq<Event>, done: nat) {
    && done <= |cfg.replay| && done < |trace| && trace[|trace|-done-1] == Opened
    && forall k :: 0 <= k < done ==> trace[|trace|-done+k] == Sent(cfg.replay[k])
  }

  lemma ReplayedMore(cfg: Config, trace: seq<Event>, done: nat)
    requires done < |cfg.replay| && Replayed(cfg, trace, done)
    ensures Replayed(cfg, trace + [Sent(cfg.replay[done])], done + 1)
  {}

  lemma {:induction false} ReplaySoFar(cfg: Config, trace: seq<Event>)
    requires Accepted(cfg, trace) && Scan(cfg, trace).value.phase.Replaying?
    ensures Replayed(cfg, trace, Scan(cfg, trace).value.phase.done)
  {
    var n := |trace| - 1;
    var m, m' := Scan(cfg, trace[..n]).value, Scan(cfg, trace).value;
    OnReplaying(cfg, m, trace[n], m');
    if trace[n] != Opened {
      ReplaySoFar(cfg, trace[..n]);
      ReplayedMore(cfg, trace[..n], m.phase.done);
      assert trace[..n] + [trace[n]] == trace;
    }
  }

  // Every connection starts with the registry's whole replay list, in order, on a fresh
  // session and with nothing in between.
  lemma ConnectedReplays(cfg: Config, trace: seq<Event>, i: nat)
    requires Accepted(cfg, trace) && i < |trace| && Is(trace[i], Connected)
    ensures var r := |cfg.replay|;
            && r < i && trace[i-r-1] == Opened && trace[i].subscriptions == cfg.subscriptions
            && forall k :: 0 <= k < r ==> trace[i-r+k] == Sent(cfg.replay[k])
  {
    var m, m' := StepAt(cfg, trace, i);
    ReplaySoFar(cfg, trace[..i]);
  }

  lemma OnConnected(cfg: Config, m: Mon, e: Event, m': Mon)
    requires Next(cfg, m, e) == Some(m')
    ensures Is(e, Connected) ==> (m'.phase == Greeting <==> e.attempt > 1)
    ensures m'.phase == Greeting ==>
              Is(e, Connected) && e.attempt == m'.connections && e.subscriptions == m'.conn.subscriptions
  {}

  lemma OnGreeting(cfg: Config, m: Mon, e: Event, m': Mon)
    requires Next(cfg, m, e) == Some(m')
    ensures Is(e, Resubscribed) <==> m.phase == Greeting
    ensures Is(e, Resubscribed) ==> e.attempt == m.connections && e.subscriptions == m.conn.subscriptions
  {}

  // Resubscribed immediately follows Connected k exactly when k > 1 ...
  lemma ResubscribedFollows(cfg: Config, trace: seq<Event>, i: nat)
    requires Accepted(cfg, trace) && i + 1 < |trace| && Is(trace[i], Connected)
    ensures Is(trace[i+1], Resubscribed) <==> trace[i].attempt > 1
  {
    var m, m' := StepAt(cfg, trace, i);
    OnConnected(cfg, m, trace[i], m');
    var n, n' := StepAt(cfg, trace, i + 1);
    OnGreeting(cfg, n, trace[i+1], n');
  }

  // ... and comes nowhere else.
  lemma ResubscribedOnlyThere(cfg: Config, trace: seq<Event>, i: nat)
    requires Accepted(cfg, trace) && i < |trace| && Is(trace[i], Resubscribed)
    ensures i > 0 && Is(trace[i-1], Connected) && trace[i-1].attempt == trace[i].attempt > 1
    ensures trace[i-1].subscriptions == trace[i].subscriptions
  {
    var m, m' := StepAt(cfg, trace, i);
    OnGreeting(cfg, m, trace[i], m');
    BeginsIdle(cfg, trace[..i]);
    var n, n' := StepAt(cfg, trace, i - 1);
    OnConnected(cfg, n, trace[i-1], n');
  }

  lemma OnLagging(cfg: Config, m: Mon, e: Event, m': Mon)
    requires Next(cfg, m, e) == Some(m')
    ensures Is(e, Lagging) <==> m'.phase.Lag?
    ensures m'.phase.Lag? ==> e.reason == m'.phase.reason && e.attempt == m'.connections
  {}

  lemma OnLag(cfg: Config, m: Mon, e: Event, m': Mon)
    requires Next(cfg, m, e) == Some(m')
    ensures m.phase.Lag? ==> Is(e, Disconnected) && e.reason == m.phase.reason && e.attempt == m.connections && !e.final
    ensures Is(e, Disconnected) && e.reason in {WatchdogTimeout, BufferOverflow} ==> m.phase.Lag?
  {}

  // Lagging is immediately followed by Disconnected with the same reason and attempt, and
  // those reasons only ever follow it.
  lemma LaggingDisconnects(cfg: Config, trace: seq<Event>, i: nat)
    requires Accepted(cfg, trace) && i + 1 < |trace|
    ensures Is(trace[i], Lagging) ==>
              Is(trace[i+1], Disconnected) && trace[i+1].reason == trace[i].reason
              && trace[i+1].attempt == trace[i].attempt && !trace[i+1].final
    ensures Is(trace[i+1], Disconnected) && trace[i+1].reason in {WatchdogTimeout, BufferOverflow} ==>
              Is(trace[i], Lagging)
  {
    var m, m' := StepAt(cfg, trace, i);
    OnLagging(cfg, m, trace[i], m');
    var n, n' := StepAt(cfg, trace, i + 1);
    OnLag(cfg, n, trace[i+1], n');
  }

  predicate NonFinalDisconnect(e: Event) {
    Is(e, Disconnected) && !e.final
  }

  // Only a non-final Disconnected leads out of a connection, Connected into one.
  lemma OnConnection(cfg: Config, m: Mon, e: Event, m': Mon)
    requires Next(cfg, m, e) == Some(m') && Unconnected(m')
    ensures NonFinalDisconnect(e) || (Unconnected(m) && !Is(e, Connected))
  {}

  // Once connected, the monitor leaves the connection only after a non-final Disconnected.
  lemma {:induction false} BusyUntilDisconnected(cfg: Config, trace: seq<Event>, i: nat)
    requires Accepted(cfg, trace) && i < |trace| && Is(trace[i], Connected)
    requires forall k :: i < k < |trace| ==> !NonFinalDisconnect(trace[k])
    ensures !Unconnected(Scan(cfg, trace).value)
  {
    var n := |trace| - 1;
    if i < n {
      BusyUntilDisconnected(cfg, trace[..n], i);
    }
    LastStep(cfg, trace);
    var m' := Scan(cfg, trace).value;
    if Unconnected(m') {
      OnConnection(cfg, Scan(cfg, trace[..n]).value, trace[n], m');
    }
  }

  // A non-final Disconnected separates any two Connected events.
  lemma ConnectionsSeparated(cfg: Config, trace: seq<Event>, i: nat, j: nat)
    requires Accepted(cfg, trace) && i < j < |trace| && Is(trace[i], Connected) && Is(trace[j], Connected)
    ensures exists k :: i < k < j && NonFinalDisconnect(trace[k])
  {
    if forall k :: i < k < j ==> !NonFinalDisconnect(trace[k]) {
      PrefixAccepted(cfg, trace, j);
      BusyUntilDisconnected(cfg, trace[..j], i);
      var m, m' := StepAt(cfg, trace, j);
    }
  }

  // The Connected event of the connection that is up after n events.
  ghost predicate Opens(trace: seq<Event>, i: nat, n: nat) {
    i < n <= |trace| && Is(trace[i], Connected) && forall k :: i < k < n ==> !Is(trace[k], Disconnected)
  }

  predicate InConnection(m: Mon) {
    !Unconnected(m) && m.phase != Ended && m.phase != Fatal
  }

  lemma BeginsIdle(cfg: Config, trace: seq<Event>)
    requires Accepted(cfg, trace) && InConnection(Scan(cfg, trace).value)
    ensures trace != []
  {}

  lemma OpensLater(trace: seq<Event>, i: nat, n: nat)
    requires Opens(trace, i, n) && n < |trace| && !Is(trace[n], Disconnected)
    ensures Opens(trace, i, n + 1)
  {}

  // Only Connected starts a connection, and only Disconnected ends one.
  lemma ConnectionStep(cfg: Config, m: Mon, e: Event)
    requires Next(cfg, m, e).Some? && InConnection(Next(cfg, m, e).value)
    ensures Is(e, Connected) || (InConnection(m) && !Is(e, Disconnected))
  {}

  lemma {:induction false} UpSince(cfg: Config, trace: seq<Event>, n: nat) returns (i: nat)
    requires Accepted(cfg, trace) && n <= |trace|
    requires Accepted(cfg, trace[..n]) && InConnection(Scan(cfg, trace[..n]).value)
    ensures Opens(trace, i, n)
  {
    BeginsIdle(cfg, trace[..n]);
    var m, m' := StepAt(cfg, trace, n - 1);
    ConnectionStep(cfg, m, trace[n-1]);
    if Is(trace[n-1], Connected) {
      i := n - 1;
    } else {
      i := UpSince(cfg, trace, n - 1);
      OpensLater(trace, i, n - 1);
    }
  }

  // No message is taken or delivered outside a connection.
  lemma MessagesInsideConnections(cfg: Config, trace: seq<Event>, n: nat) returns (i: nat)
    requires Accepted(cfg, trace) && n < |trace| && (trace[n].Got? || trace[n].Reconciled? || trace[n].Delivered?)
    ensures Opens(trace, i, n)
  {
    var m, m' := StepAt(cfg, trace, n);
    i := UpSince(cfg, trace, n);
  }

  lemma NothingAfterEnded(cfg: Config, m: Mon, e: Event)
    requires m.phase == Ended
    ensures Next(cfg, m, e).None?
  {}

  // The Final event ends the trace, so there is at most one.
  lemma FinalIsLast(cfg: Config, trace: seq<Event>, i: nat)
    requires Accepted(cfg, trace) && i < |trace| && trace[i].Life? && trace[i].final
    ensures i == |trace| - 1 && Scan(cfg, trace).value.phase == Ended
  {
    var m, m' := StepAt(cfg, trace, i);
    FinalStep(cfg, m, trace[i], m');
    if i + 1 < |trace| {
      NothingAfterEnded(cfg, m', trace[i+1]);
      var n, n' := StepAt(cfg, trace, i + 1);
      assert false;
    }
    assert trace[..|trace|] == trace;
  }

  // What no new connection cures: the broker refuses the caller, or the request itself.
  predicate Incurable(err: Option<Err>) {
    err.Some? && err.value.code in {Unauthenticated, PermissionDenied, InvalidArgument, FailedPrecondition, NotFound,
                                    Unimplemented}
  }

  predicate Lose(e: Event) {
    Is(e, Disconnected) && !e.final
  }

  lemma OnLoss(cfg: Config, m: Mon, e: Event, m': Mon)
    requires Next(cfg, m, e) == Some(m')
    ensures Lose(e) && Incurable(e.err) <==> m'.phase == Fatal
    ensures Lose(e) && !Incurable(e.err) <==> m'.phase == Paused
    ensures Is(e, Disconnected) && Incurable(e.err) ==> !e.final
  {}

  lemma NothingAfterFatal(cfg: Config, m: Mon, e: Event)
    requires m.phase == Fatal
    ensures Next(cfg, m, e).None?
  {}

  lemma OnlyWaitsPaused(cfg: Config, m: Mon, e: Event)
    requires m.phase == Paused && Next(cfg, m, e).Some?
    ensures e.Waits?
  {}

  // Nothing follows a Disconnected whose error is one of those; after any other that is not
  // final the run goes on, with a wait.
  lemma FatalIsLast(cfg: Config, trace: seq<Event>, i: nat)
    requires Accepted(cfg, trace) && i < |trace| && Is(trace[i], Disconnected)
    ensures Incurable(trace[i].err) ==> i == |trace| - 1 && Scan(cfg, trace).value.phase == Fatal
    ensures !Incurable(trace[i].err) && !trace[i].final ==>
              && Accepted(cfg, trace[..i+1]) && Scan(cfg, trace[..i+1]).value.phase == Paused
              && (i + 1 < |trace| ==> trace[i+1].Waits?)
  {
    var m, m' := StepAt(cfg, trace, i);
    OnLoss(cfg, m, trace[i], m');
    if i + 1 == |trace| {
      assert trace[..i+1] == trace;
    } else if Incurable(trace[i].err) {
      NothingAfterFatal(cfg, m', trace[i+1]);
      var n, n' := StepAt(cfg, trace, i + 1);
      assert false;
    } else if !trace[i].final {
      var n, n' := StepAt(cfg, trace, i + 1);
      OnlyWaitsPaused(cfg, n, trace[i+1]);
    }
  }

  // The trace ends with a loss that no new connection cures.
  predicate EndsFatally(trace: seq<Event>) {
    trace != [] && Is(trace[|trace|-1], Disconnected) && Incurable(trace[|trace|-1].err)
  }

  lemma FatalIff(cfg: Config, trace: seq<Event>)
    requires Accepted(cfg, trace)
    ensures Scan(cfg, trace).value.phase == Fatal <==> EndsFatally(trace)
    ensures !EndsFatally(trace) ==>
              forall i :: 0 <= i < |trace| && Is(trace[i], Disconnected) ==> !Incurable(trace[i].err)
  {
    if trace != [] {
      LastStep(cfg, trace);
      OnLoss(cfg, Scan(cfg, trace[..|trace|-1]).value, trace[|trace|-1], Scan(cfg, trace).value);
    }
    forall i | 0 <= i < |trace| && Is(trace[i], Disconnected) && Incurable(trace[i].err) ensures EndsFatally(trace) {
      FatalIsLast(cfg, trace, i);
    }
  }

  // ---- failures in a row ----

  // Since when the current connection has been listened to.
  function ListenedSince(trace: seq<Event>): Option<int> {
    if trace == [] then None
    else
      var e := trace[|trace|-1];
      if Is(e, Connected) then None
      else if e.Listening? then Some(e.time)
      else ListenedSince(trace[..|trace|-1])
  }

  // The losses so far, not counting those before a connection that was listened to for a
  // whole watchdog interval before an error came from the stream.
  function Losses(watchdog: int, trace: seq<Event>): nat {
    if trace == [] then 0
    else
      var rest, e := trace[..|trace|-1], trace[|trace|-1];
      if Lose(e) then Losses(watchdog, rest) + 1
      else if e.Lost? && ListenedSince(rest).Some? && e.time - ListenedSince(rest).value >= watchdog then 0
      else Losses(watchdog, rest)
  }

  lemma LossStep(cfg: Config, m: Mon, e: Event, m': Mon)
    requires Next(cfg, m, e) == Some(m')
    ensures m'.failures == if Lose(e) then m.failures + 1
                           else if e.Lost? && m.conn.since.Some? && e.time - m.conn.since.value >= cfg.watchdog then 0
                           else m.failures
  {}

  lemma SinceStep(cfg: Config, m: Mon, e: Event, m': Mon)
    requires Next(cfg, m, e) == Some(m')
    ensures m'.conn.since == if Is(e, Connected) then None else if e.Listening? then Some(e.time) else m.conn.since
  {}

  lemma {:induction false} CountsLosses(cfg: Config, trace: seq<Event>)
    requires Accepted(cfg, trace)
    ensures Scan(cfg, trace).value.failures == Losses(cfg.watchdog, trace)
    ensures Scan(cfg, trace).value.conn.since == ListenedSince(trace)
  {
    if trace != [] {
      var n := |trace| - 1;
      LastStep(cfg, trace);
      CountsLosses(cfg, trace[..n]);
      LossStep(cfg, Scan(cfg, trace[..n]).value, trace[n], Scan(cfg, trace).value);
      SinceStep(cfg, Scan(cfg, trace[..n]).value, trace[n], Scan(cfg, trace).value);
    }
  }

  lemma CountStep(cfg: Config, m: Mon, e: Event, m': Mon)
    requires Next(cfg, m, e) == Some(m') && (m.phase.Lag? ==> m.phase.reason in {WatchdogTimeout, BufferOverflow})
    ensures Lose(e) && e.reason in {ConnectError, ResubscribeError} ==> e.attempt == m.failures + 1
    ensures e.Waits? ==> e.failures == m.failures && m.phase == Paused
  {}

  lemma LagReasons(cfg: Config, trace: seq<Event>)
    requires Accepted(cfg, trace)
    ensures var m := Scan(cfg, trace).value; m.phase.Lag? ==> m.phase.reason in {WatchdogTimeout, BufferOverflow}
  {}

  lemma PausedAfterLoss(cfg: Config, trace: seq<Event>)
    requires Accepted(cfg, trace) && Scan(cfg, trace).value.phase == Paused
    ensures trace != [] && Lose(trace[|trace|-1])
  {
    LastStep(cfg, trace);
    var n := |trace| - 1;
    OnLoss(cfg, Scan(cfg, trace[..n]).value, trace[n], Scan(cfg, trace).value);
  }

  // An attempt that fails before it connects is numbered by the losses in a row, itself
  // included, and every wait is for the losses so far.
  lemma FailuresCounted(cfg: Config, trace: seq<Event>, i: nat)
    requires Accepted(cfg, trace) && i < |trace|
    ensures Lose(trace[i]) && trace[i].reason in {ConnectError, ResubscribeError} ==>
              trace[i].attempt == Losses(cfg.watchdog, trace[..i]) + 1
    ensures trace[i].Waits? ==> trace[i].failures == Losses(cfg.watchdog, trace[..i]) && i > 0 && Lose(trace[i-1])
  {
    var m, m' := StepAt(cfg, trace, i);
    CountsLosses(cfg, trace[..i]);
    LagReasons(cfg, trace[..i]);
    CountStep(cfg, m, trace[i], m');
    if trace[i].Waits? {
      PausedAfterLoss(cfg, trace[..i]);
    }
  }

  ghost predicate EndsFinal(trace: seq<Event>) {
    trace != [] && trace[|trace|-1].Life? && trace[|trace|-1].final
  }

  // The monitor has ended exactly when the trace ends with its one Final event.
  lemma EndedIffFinal(cfg: Config, trace: seq<Event>)
    requires Accepted(cfg, trace)
    ensures Scan(cfg, trace).value.phase == Ended <==> EndsFinal(trace)
    ensures !EndsFinal(trace) ==> forall i :: 0 <= i < |trace| && trace[i].Life? ==> !trace[i].final
  {
    if trace != [] {
      var m, m' := StepAt(cfg, trace, |trace| - 1);
      assert trace[..|trace|] == trace;
    }
    forall i | 0 <= i < |trace| && trace[i].Life? && trace[i].final ensures EndsFinal(trace) {
      FinalIsLast(cfg, trace, i);
    }
  }

  // ---- what the lifecycle events carry ----

  lemma FinalStep(cfg: Config, m: Mon, e: Event, m': Mon)
    requires Next(cfg, m, e) == Some(m') && e.Life? && e.final
    ensures e == Life(Disconnected, m.connections, 0, Shutdown, None, true, e.time) && m'.phase == Ended
  {}

  // The Final event: how many connections there were, a clean shutdown and no error.
  lemma FinalCarries(cfg: Config, trace: seq<Event>, i: nat)
    requires Accepted(cfg, trace) && i < |trace| && trace[i].Life? && trace[i].final
    ensures trace[i] == Life(Disconnected, Connections(trace[..i]), 0, Shutdown, None, true, trace[i].time)
  {
    var m, m' := StepAt(cfg, trace, i);
    CountsConnections(cfg, trace[..i]);
    FinalStep(cfg, m, trace[i], m');
  }

  lemma AfterRefused(cfg: Config, trace: seq<Event>)
    requires Accepted(cfg, trace) && Scan(cfg, trace).value.phase.Rejected?
    ensures trace != [] && trace[|trace|-1] == Refused(Scan(cfg, trace).value.phase.cause)
  {}

  lemma AfterUnsent(cfg: Config, trace: seq<Event>)
    requires Accepted(cfg, trace) && Scan(cfg, trace).value.phase.Halted?
    ensures trace != [] && trace[|trace|-1] == Unsent(Scan(cfg, trace).value.phase.cause)
    ensures Scan(cfg, trace[..|trace|-1]).value.phase.Replaying?
            && Scan(cfg, trace[..|trace|-1]).value.phase.done < |cfg.replay|
  {}

  lemma AfterBroke(cfg: Config, trace: seq<Event>)
    requires Accepted(cfg, trace) && Scan(cfg, trace).value.phase.Torn?
    ensures trace != [] && trace[|trace|-1] == Broke(Scan(cfg, trace).value.phase.cause)
  {}

  lemma AfterLost(cfg: Config, trace: seq<Event>)
    requires Accepted(cfg, trace) && Scan(cfg, trace).value.phase.Failing?
    ensures |trace| > 1 && trace[|trace|-1].Lost?
    ensures trace[|trace|-2] == Broke(Scan(cfg, trace).value.phase.cause)
  {
    var n := |trace| - 1;
    LastStep(cfg, trace);
    AfterBroke(cfg, trace[..n]);
  }

  lemma AfterSnapshots(cfg: Config, trace: seq<Event>)
    requires Accepted(cfg, trace) && Scan(cfg, trace).value.phase.Unsettled?
    ensures trace != [] && trace[|trace|-1].Reconciled?
    ensures FirstFailure(trace[|trace|-1].answers) == Some(Scan(cfg, trace).value.phase.cause)
  {}

  lemma AfterLagging(cfg: Config, trace: seq<Event>)
    requires Accepted(cfg, trace) && Scan(cfg, trace).value.phase.Lag?
    ensures trace != [] && Is(trace[|trace|-1], Lagging)
    ensures trace[|trace|-1].reason == Scan(cfg, trace).value.phase.reason
  {}

  // A session was opened, and some of the requests have not been sent on it yet.
  ghost predicate HalfReplayed(cfg: Config, trace: seq<Event>) {
    exists done: nat :: done < |cfg.replay| && Replayed(cfg, trace, done)
  }

  // An attempt fails for the error that refused the session or stopped the replay, numbered
  // by the failures in a row; the replay had requests left.
  lemma AttemptLost(cfg: Config, trace: seq<Event>, i: nat)
    requires Accepted(cfg, trace) && i < |trace| && Lose(trace[i])
    requires trace[i].reason in {ConnectError, ResubscribeError}
    ensures i > 0 && trace[i].err.Some?
    ensures trace[i].reason == ConnectError ==> trace[i-1] == Refused(trace[i].err.value) && trace[i].subscriptions == 0
    ensures trace[i].reason == ResubscribeError ==>
              && trace[i-1] == Unsent(trace[i].err.value) && trace[i].subscriptions == cfg.subscriptions
              && HalfReplayed(cfg, trace[..i-1])
  {
    var m, m' := StepAt(cfg, trace, i);
    var before := trace[..i];
    LagReasons(cfg, before);
    if m.phase.Rejected? {
      AfterRefused(cfg, before);
    } else {
      AfterUnsent(cfg, before);
      assert before[..i-1] == trace[..i-1];
      ReplaySoFar(cfg, before[..i-1]);
    }
  }

  // A connection is lost under its own number, for the error that came from the stream, for
  // the first snapshot that failed, or for the gap just reported.
  lemma ConnectionLost(cfg: Config, trace: seq<Event>, i: nat)
    requires Accepted(cfg, trace) && i < |trace| && Lose(trace[i])
    requires trace[i].reason !in {ConnectError, ResubscribeError}
    ensures i > 0 && trace[i].attempt == Connections(trace[..i]) && exists j: nat :: Opens(trace, j, i)
    ensures trace[i].reason in {Eof, StreamError, ReconcileError, WatchdogTimeout, BufferOverflow}
    ensures trace[i].reason in {Eof, StreamError} ==>
              && i > 1 && trace[i-1].Lost? && trace[i].err.Some? && trace[i-2] == Broke(trace[i].err.value)
              && (trace[i].reason == Eof <==> trace[i].err.value.eof)
    ensures trace[i].reason == ReconcileError ==> trace[i-1].Reconciled? && FailsFirst(trace[i-1].answers, trace[i].err)
    ensures trace[i].reason in {WatchdogTimeout, BufferOverflow} ==>
              Is(trace[i-1], Lagging) && trace[i-1].reason == trace[i].reason && trace[i].err.None?
  {
    var m, m' := StepAt(cfg, trace, i);
    var before := trace[..i];
    LagReasons(cfg, before);
    CountsConnections(cfg, before);
    assert InConnection(m);
    var j := UpSince(cfg, trace, i);
    if m.phase.Failing? {
      AfterLost(cfg, before);
    } else if m.phase.Unsettled? {
      AfterSnapshots(cfg, before);
      FirstFailureMeans(before[i-1].answers);
    } else {
      AfterLagging(cfg, before);
    }
  }

  // The error of the first answer that is not a snapshot written out.
  ghost predicate FailsFirst(answers: seq<Answer>, err: Option<Err>) {
    exists i :: 0 <= i < |answers| && !Fine(answers[i]) && err == Some(Failure(answers[i]))
                && forall j :: 0 <= j < i ==> Fine(answers[j])
  }

  lemma ReactionStep(cfg: Config, m: Mon, e: Event, m': Mon, r: Event)
    requires Next(cfg, m, e) == Some(m') && Next(cfg, m', r).Some?
    ensures e.Refused? ==> Lose(r) && r.reason == ConnectError && r.err == Some(e.cause)
    ensures e.Unsent? ==> Lose(r) && r.reason == ResubscribeError && r.err == Some(e.cause)
    ensures e.Broke? ==> r.Lost? || r.Cancelled? || (r.Life? && r.final && e.cause.canceled)
    ensures e.Lost? ==> Lose(r) && r.reason in {Eof, StreamError}
    ensures e.Expired? ==> Is(r, Lagging) && r.reason == WatchdogTimeout
    ensures e.Cancelled? ==> r.Life? && r.final
    ensures e.Waits? ==> r.Opened? || r.Refused? || r.Cancelled?
    ensures e.Reconciled? && FirstFailure(e.answers).Some? ==>
              || (Lose(r) && r.reason == ReconcileError)
              || r.Cancelled? || (r.Life? && r.final && FirstFailure(e.answers).value.canceled)
  {}

  // Every input gets its reaction at once: nothing refused, broken, expired or cancelled is
  // passed over.
  lemma InputsAnswered(cfg: Config, trace: seq<Event>, i: nat)
    requires Accepted(cfg, trace) && i + 1 < |trace|
    ensures var e, r := trace[i], trace[i+1];
            && (e.Refused? ==> Lose(r) && r.reason == ConnectError && r.err == Some(e.cause))
            && (e.Unsent? ==> Lose(r) && r.reason == ResubscribeError && r.err == Some(e.cause))
            && (e.Broke? ==> r.Lost? || r.Cancelled? || (r.Life? && r.final && e.cause.canceled))
            && (e.Lost? ==> Lose(r) && r.reason in {Eof, StreamError})
            && (e.Expired? ==> Is(r, Lagging) && r.reason == WatchdogTimeout)
            && (e.Cancelled? ==> r.Life? && r.final)
            && (e.Waits? ==> r.Opened? || r.Refused? || r.Cancelled?)
            && (e.Reconciled? && (exists j :: 0 <= j < |e.answers| && !Fine(e.answers[j])) ==>
                  || (Lose(r) && r.reason == ReconcileError) || r.Cancelled? || (r.Life? && r.final))
  {
    var m, m' := StepAt(cfg, trace, i);
    var n, n' := StepAt(cfg, trace, i + 1);
    if trace[i].Reconciled? {
      FirstFailureMeans(trace[i].answers);
    }
    ReactionStep(cfg, m, trace[i], m', trace[i+1]);
  }

  // The event before the Final one: the context was cancelled, or an error said so.
  ghost predicate SaysCancelled(e: Event) {
    || e.Cancelled?
    || (e.Broke? && e.cause.canceled)
    || (e.Reconciled? && exists err: Err :: FailsFirst(e.answers, Some(err)) && err.canceled)
  }

  lemma AfterCancelled(cfg: Config, trace: seq<Event>)
    requires Accepted(cfg, trace) && Scan(cfg, trace).value.phase.Closing?
    ensures trace != [] && trace[|trace|-1].Cancelled?
  {}

  // The run ends cleanly only for a cancellation.
  lemma FinalNeedsCancel(cfg: Config, trace: seq<Event>, i: nat)
    requires Accepted(cfg, trace) && i < |trace| && trace[i].Life? && trace[i].final
    ensures i > 0 && SaysCancelled(trace[i-1])
  {
    var m, m' := StepAt(cfg, trace, i);
    MayEndSaysCancelled(cfg, trace[..i]);
  }

  lemma MayEndSaysCancelled(cfg: Config, trace: seq<Event>)
    requires Accepted(cfg, trace) && MayEnd(Scan(cfg, trace).value)
    ensures trace != [] && SaysCancelled(trace[|trace|-1])
    ensures !Scan(cfg, trace).value.phase.Closing? ==> !trace[|trace|-1].Cancelled?
  {
    var m := Scan(cfg, trace).value;
    if m.phase.Torn? {
      AfterBroke(cfg, trace);
    } else if m.phase.Unsettled? {
      AfterSnapshots(cfg, trace);
      FirstFailureMeans(trace[|trace|-1].answers);
      assert FailsFirst(trace[|trace|-1].answers, Some(m.phase.cause));
    } else {
      AfterCancelled(cfg, trace);
    }
  }

  // ---- the messages of one connection ----

  predicate PassedOn(cfg: Config, f: Frame) {
    !(cfg.filtered && f.Book?)
  }

  // A message that is not filtered is delivered at once, and only then.
  lemma PassedStraightOn(cfg: Config, trace: seq<Event>, n: nat)
    requires Accepted(cfg, trace) && n + 1 < |trace|
    ensures trace[n].Got? && PassedOn(cfg, trace[n].frame) ==> trace[n+1] == Delivered(trace[n].frame)
    ensures trace[n+1].Delivered? && PassedOn(cfg, trace[n+1].frame) ==>
              trace[n].Got? && trace[n].frame == trace[n+1].frame
  {
    var m, m' := StepAt(cfg, trace, n);
    var k, k' := StepAt(cfg, trace, n + 1);
    OwedOnlyAfterGot(cfg, trace[..n+1]);
    StraightOn(cfg, m, trace[n], m', trace[n+1], k');
  }

  lemma StraightOn(cfg: Config, m: Mon, e: Event, m': Mon, e': Event, m'': Mon)
    requires Next(cfg, m, e) == Some(m') && Next(cfg, m', e') == Some(m'')
    requires m'.conn.owed.Some? ==> e.Got? && m'.conn.owed.value == e.frame
    ensures e.Got? && PassedOn(cfg, e.frame) ==> e' == Delivered(e.frame)
    ensures e'.Delivered? && PassedOn(cfg, e'.frame) ==> e.Got? && e.frame == e'.frame
  {}

  lemma OwedOnlyAfterGot(cfg: Config, trace: seq<Event>)
    requires Accepted(cfg, trace)
    ensures var m := Scan(cfg, trace).value;
            m.conn.owed.Some? ==> trace != [] && trace[|trace|-1].Got? && m.conn.owed.value == trace[|trace|-1].frame
  {}

  // The snapshots taken on a connection, once they are complete.
  function SnapshotsIn(events: seq<Event>): Option<seq<Answer>> {
    if events == [] then None
    else
      var rest := events[..|events|-1];
      var e := events[|events|-1];
      if SnapshotsIn(rest).Some? then SnapshotsIn(rest)
      else if e.Reconciled? && forall i :: 0 <= i < |e.answers| ==> Fine(e.answers[i]) then Some(e.answers)
      else None
  }

  // What they are filtered by.
  function MarksIn(cfg: Config, events: seq<Event>): Option<Marks> {
    match SnapshotsIn(events)
    case None => None
    case Some(answers) => if Taken(cfg, answers) then Some(MarksOf(cfg.uids, answers)) else None
  }

  // The order-book frames taken from the stream before and after that.
  function GotBefore(events: seq<Event>): seq<Frame> {
    if events == [] then []
    else
      var rest := events[..|events|-1];
      var e := events[|events|-1];
      if e.Got? && e.frame.Book? && SnapshotsIn(rest).None? then GotBefore(rest) + [e.frame] else GotBefore(rest)
  }

  function GotAfter(events: seq<Event>): seq<Frame> {
    if events == [] then []
    else
      var rest := events[..|events|-1];
      var e := events[|events|-1];
      if e.Got? && e.frame.Book? && SnapshotsIn(rest).Some? then GotAfter(rest) + [e.frame] else GotAfter(rest)
  }

  function DeliveredBooks(events: seq<Event>): seq<Frame> {
    if events == [] then []
    else
      var rest := events[..|events|-1];
      var e := events[|events|-1];
      if e.Delivered? && e.frame.Book? then DeliveredBooks(rest) + [e.frame] else DeliveredBooks(rest)
  }

  predicate Overflowed(m: Mon) {
    m.phase == Overflow || m.phase == Lag(BufferOverflow)
  }

  // What the monitor remembers of a connection is what its events say.
  ghost predicate Tells(cfg: Config, m: Mon, events: seq<Event>) {
    && InConnection(m) && m.conn.marks == MarksIn(cfg, events)
    && (SnapshotsIn(events).Some? ==> Taken(cfg, SnapshotsIn(events).value))
    && m.conn.after == GotAfter(events) && m.conn.sent == DeliveredBooks(events)
    && (if Overflowed(m) then m.conn.marks.None? else m.conn.before == GotBefore(events))
    && (m.conn.owed.Some? ==> !m.conn.owed.value.Book?)
    && |m.conn.before| <= cfg.maxBuffer
    && match m.conn.marks
       case None => m.conn.sent == []
       case Some(marks) => m.conn.sent <= Expected(m.conn.before, m.conn.after, marks)
  }

  // Receiving another live frame only extends what is to be delivered.
  lemma ExpectedGrows(before: seq<Frame>, after: seq<Frame>, f: Frame, marks: Marks)
    ensures Expected(before, after, marks) <= Expected(before, after + [f], marks)
  {
    assert (after + [f])[..|after|] == after;
  }

  // A lifecycle event inside a connection changes only the phase.
  lemma LifeKeepsConn(cfg: Config, m: Mon, m': Mon, e: Event)
    requires Next(cfg, m, e) == Some(m') && e.Life? && !Is(e, Connected) && !Is(e, Disconnected)
    ensures m' == m.(phase := m'.phase) && InConnection(m) && InConnection(m')
    ensures Overflowed(m') ==> Overflowed(m)
    ensures Overflowed(m) ==> Overflowed(m')
  {}

  lemma TellsStep(cfg: Config, m: Mon, m': Mon, events: seq<Event>, e: Event)
    requires cfg.filtered && Tells(cfg, m, events) && Next(cfg, m, e) == Some(m') && !Is(e, Connected)
               && !Is(e, Disconnected)
    ensures Tells(cfg, m', events + [e])
  {
    assert (events + [e])[..|events|] == events;
    match e {
      case Life(_, _, _, _, _, _, _) =>
        LifeKeepsConn(cfg, m, m', e);
      case Got(_, _, _) =>
        if e.frame.Book? && m.conn.marks.Some? {
          ExpectedGrows(m.conn.before, m.conn.after, e.frame, m.conn.marks.value);
        }
      case Reconciled(answers) =>
        FirstFailureMeans(answers);
      case _ =>
    }
  }

  lemma TellsStart(cfg: Config, m: Mon, m': Mon, e: Event)
    requires Next(cfg, m, e) == Some(m') && Is(e, Connected)
    ensures Tells(cfg, m', [])
  {}

  ghost predicate TellsAt(cfg: Config, trace: seq<Event>, events: seq<Event>) {
    Accepted(cfg, trace) && Tells(cfg, Scan(cfg, trace).value, events)
  }

  lemma TellsFirst(cfg: Config, trace: seq<Event>)
    requires trace != [] && Accepted(cfg, trace) && Is(trace[|trace|-1], Connected)
    ensures TellsAt(cfg, trace, [])
  {
    var n := |trace| - 1;
    TellsStart(cfg, Scan(cfg, trace[..n]).value, Scan(cfg, trace).value, trace[n]);
  }

  lemma TellsNext(cfg: Config, trace: seq<Event>, events: seq<Event>)
    requires cfg.filtered && trace != [] && Accepted(cfg, trace)
    requires events != [] && events[|events|-1] == trace[|trace|-1]
    requires TellsAt(cfg, trace[..|trace|-1], events[..|events|-1])
    requires var e := trace[|trace|-1]; !Is(e, Connected) && !Is(e, Disconnected)
    ensures TellsAt(cfg, trace, events)
  {
    var n := |trace| - 1;
    LastStep(cfg, trace);
    TellsLast(cfg, Scan(cfg, trace[..n]).value, Scan(cfg, trace).value, events);
  }

  lemma TellsLast(cfg: Config, m: Mon, m': Mon, events: seq<Event>)
    requires cfg.filtered && events != [] && Tells(cfg, m, events[..|events|-1])
    requires var e := events[|events|-1]; Next(cfg, m, e) == Some(m') && !Is(e, Connected) && !Is(e, Disconnected)
    ensures Tells(cfg, m', events)
  {
    var before, e := events[..|events|-1], events[|events|-1];
    TellsStep(cfg, m, m', before, e);
    assert before + [e] == events;
  }

  lemma PrefixOf(cfg: Config, trace: seq<Event>)
    requires trace != [] && Accepted(cfg, trace)
    ensures Accepted(cfg, trace[..|trace|-1])
  {}

  // The monitor after the whole trace, against the events since event i.
  ghost predicate TellsFrom(cfg: Config, trace: seq<Event>, i: nat) {
    i < |trace| && TellsAt(cfg, trace, trace[i+1..])
  }

  lemma TellsFromFirst(cfg: Config, trace: seq<Event>)
    requires trace != [] && Accepted(cfg, trace) && Is(trace[|trace|-1], Connected)
    ensures TellsFrom(cfg, trace, |trace| - 1)
  {
    assert trace[|trace|-1+1..] == [];
    TellsFirst(cfg, trace);
  }

  lemma TellsFromNext(cfg: Config, trace: seq<Event>, i: nat)
    requires cfg.filtered && trace != [] && Accepted(cfg, trace) && TellsFrom(cfg, trace[..|trace|-1], i)
    requires var e := trace[|trace|-1]; !Is(e, Connected) && !Is(e, Disconnected)
    ensures TellsFrom(cfg, trace, i)
  {
    var events := trace[i+1..];
    assert events[..|events|-1] == trace[..|trace|-1][i+1..];
    TellsNext(cfg, trace, events);
  }

  // The same connection goes on after event i.
  ghost predicate GoesOn(trace: seq<Event>, i: nat) {
    forall k :: i < k < |trace| ==> !Is(trace[k], Connected) && !Is(trace[k], Disconnected)
  }

  lemma GoesOnBefore(trace: seq<Event>, i: nat)
    requires GoesOn(trace, i) && i < |trace| - 1
    ensures GoesOn(trace[..|trace|-1], i) && trace[..|trace|-1][i] == trace[i]
    ensures !Is(trace[|trace|-1], Connected) && !Is(trace[|trace|-1], Disconnected)
  {}

  lemma {:induction false} EventsTell(cfg: Config, trace: seq<Event>, i: nat)
    requires cfg.filtered && Accepted(cfg, trace) && i < |trace| && Is(trace[i], Connected) && GoesOn(trace, i)
    ensures TellsFrom(cfg, trace, i)
  {
    var n := |trace| - 1;
    if i == n {
      TellsFromFirst(cfg, trace);
    } else {
      PrefixOf(cfg, trace);
      GoesOnBefore(trace, i);
      EventsTell(cfg, trace[..n], i);
      TellsFromNext(cfg, trace, i);
    }
  }

  lemma ConnectionTells(cfg: Config, trace: seq<Event>, i: nat, n: nat)
    requires cfg.filtered && Accepted(cfg, trace) && Opens(trace, i, n)
    requires forall k :: i < k < n ==> !Is(trace[k], Connected)
    ensures Accepted(cfg, trace[..n]) && Tells(cfg, Scan(cfg, trace[..n]).value, trace[i+1..n])
  {
    PrefixAccepted(cfg, trace, n);
    EventsTell(cfg, trace[..n], i);
    assert trace[..n][i+1..] == trace[i+1..n];
  }

  // No order-book frame is delivered before the snapshots are complete. After that the
  // frames delivered are, up to teardown, the buffered and then the later ones filtered
  // in arrival order; and the buffer never held more than its maximum.
  ghost predicate DeliversInOrder(cfg: Config, events: seq<Event>) {
    match MarksIn(cfg, events)
    case None => DeliveredBooks(events) == []
    case Some(marks) =>
      && |GotBefore(events)| <= cfg.maxBuffer
      && DeliveredBooks(events) <= Expected(GotBefore(events), GotAfter(events), marks)
  }

  // Nothing is left out.
  ghost predicate DeliversAll(cfg: Config, events: seq<Event>) {
    MarksIn(cfg, events).Some? ==>
      DeliveredBooks(events) == Expected(GotBefore(events), GotAfter(events), MarksIn(cfg, events).value)
  }

  lemma TellsDelivers(cfg: Config, m: Mon, events: seq<Event>)
    requires Tells(cfg, m, events)
    ensures DeliversInOrder(cfg, events)
    ensures Settled(m.conn) ==> DeliversAll(cfg, events)
    ensures Overflowed(m) || m.conn.marks.None? ==> DeliversAll(cfg, events)
  {}

  lemma OneOpening(cfg: Config, trace: seq<Event>, i: nat, n: nat)
    requires Accepted(cfg, trace) && Opens(trace, i, n)
    ensures forall k :: i < k < n ==> !Is(trace[k], Connected)
  {
    forall k | i < k < n ensures !Is(trace[k], Connected) {
      if Is(trace[k], Connected) {
        ConnectionsSeparated(cfg, trace, i, k);
      }
    }
  }

  // On every connection, all along.
  lemma ConnectionDelivers(cfg: Config, trace: seq<Event>, i: nat, n: nat)
    requires cfg.filtered && Accepted(cfg, trace) && Opens(trace, i, n)
    ensures DeliversInOrder(cfg, trace[i+1..n])
    ensures n < |trace| && !trace[n].Delivered? && !trace[n].Cancelled? && !(trace[n].Life? && trace[n].final) ==>
              DeliversAll(cfg, trace[i+1..n])
  {
    OneOpening(cfg, trace, i, n);
    ConnectionTells(cfg, trace, i, n);
    TellsDelivers(cfg, Scan(cfg, trace[..n]).value, trace[i+1..n]);
    if n < |trace| && CarriesOn(trace[n]) {
      var m, m' := StepAt(cfg, trace, n);
      SettledAlong(cfg, trace[..n]);
      LagReasons(cfg, trace[..n]);
      CarryingOnIsSettled(cfg, m, trace[n], m');
    }
  }

  // Anything but the end of the run or a message still to be handed over.
  predicate CarriesOn(e: Event) {
    !e.Delivered? && !e.Cancelled? && !(e.Life? && e.final)
  }

  // Phases entered only with everything received dealt with.
  predicate StaysSettled(phase: Phase) {
    phase == Lag(WatchdogTimeout) || phase == Quiet || phase.Torn? || phase.Failing? || phase.Unsettled?
  }

  lemma CarryingOnIsSettled(cfg: Config, m: Mon, e: Event, m': Mon)
    requires Next(cfg, m, e) == Some(m') && InConnection(m) && CarriesOn(e)
    requires StaysSettled(m.phase) ==> Settled(m.conn)
    requires m.phase.Lag? ==> m.phase.reason in {WatchdogTimeout, BufferOverflow}
    requires m.phase == Greeting || m.conn.since.None? ==> m.conn.marks.None?
    ensures Settled(m.conn) || Overflowed(m) || m.conn.marks.None?
  {}

  // One frame too many for the buffer.
  ghost predicate OneTooMany(cfg: Config, trace: seq<Event>, i: nat, n: nat)
    requires i < n < |trace|
  {
    && trace[n].Got? && trace[n].frame.Book? && cfg.filtered
    && SnapshotsIn(trace[i+1..n]).None? && |GotBefore(trace[i+1..n])| == cfg.maxBuffer
  }

  lemma OverflowStep(cfg: Config, m: Mon, e: Event, m': Mon)
    requires Next(cfg, m, e) == Some(m')
    ensures m'.phase == Overflow <==>
            e.Got? && e.frame.Book? && cfg.filtered && m.conn.marks.None? && |m.conn.before| >= cfg.maxBuffer
    ensures e.Got? ==> m.phase == Up
  {}

  lemma OnOverflow(cfg: Config, m: Mon, e: Event, m': Mon)
    requires Next(cfg, m, e) == Some(m')
    ensures m.phase == Overflow <==> Is(e, Lagging) && e.reason == BufferOverflow
  {}

  lemma BufferTold(cfg: Config, m: Mon, events: seq<Event>)
    requires Tells(cfg, m, events) && m.phase == Up
    ensures m.conn.marks.None? <==> SnapshotsIn(events).None?
    ensures m.conn.before == GotBefore(events) && |m.conn.before| <= cfg.maxBuffer
  {}

  lemma OverflowTold(cfg: Config, m: Mon, events: seq<Event>, e: Event, m': Mon)
    requires cfg.filtered && Tells(cfg, m, events) && Next(cfg, m, e) == Some(m')
    ensures m'.phase == Overflow <==>
            e.Got? && e.frame.Book? && SnapshotsIn(events).None? && |GotBefore(events)| == cfg.maxBuffer
  {
    OverflowStep(cfg, m, e, m');
    if m.phase == Up {
      BufferTold(cfg, m, events);
    }
  }

  // The gap of a full buffer is reported right after the first frame that finds no room in
  // it while the snapshots are taken, and only then.
  lemma OverflowExactly(cfg: Config, trace: seq<Event>, i: nat, n: nat)
    requires cfg.filtered && Accepted(cfg, trace) && Opens(trace, i, n) && n + 1 < |trace|
    ensures OneTooMany(cfg, trace, i, n) <==> Is(trace[n+1], Lagging) && trace[n+1].reason == BufferOverflow
  {
    OneOpening(cfg, trace, i, n);
    ConnectionTells(cfg, trace, i, n);
    var m, m' := StepAt(cfg, trace, n);
    OverflowTold(cfg, m, trace[i+1..n], trace[n], m');
    OverflowNext(cfg, trace, n, m');
  }

  lemma OverflowNext(cfg: Config, trace: seq<Event>, n: nat, m': Mon)
    requires Accepted(cfg, trace) && n + 1 < |trace| && Scan(cfg, trace[..n+1]) == Some(m')
    ensures m'.phase == Overflow <==> Is(trace[n+1], Lagging) && trace[n+1].reason == BufferOverflow
  {
    var k, k' := StepAt(cfg, trace, n + 1);
    OnOverflow(cfg, k, trace[n+1], k');
  }

  lemma SettledStep(cfg: Config, m: Mon, e: Event, m': Mon)
    requires Next(cfg, m, e) == Some(m') && (StaysSettled(m.phase) ==> Settled(m.conn))
    ensures StaysSettled(m'.phase) ==> Settled(m'.conn)
  {}

  lemma GreetingStep(cfg: Config, m: Mon, e: Event, m': Mon)
    requires Next(cfg, m, e) == Some(m')
    requires m.conn.since.None? ==> m.conn.marks.None?
    ensures m'.phase == Greeting || m'.conn.since.None? ==> m'.conn.marks.None?
  {}

  // A connection that has failed or gone quiet has delivered everything.
  lemma {:induction false} SettledAlong(cfg: Config, trace: seq<Event>)
    requires Accepted(cfg, trace)
    ensures var m := Scan(cfg, trace).value;
            && (StaysSettled(m.phase) ==> Settled(m.conn))
            && (m.phase == Greeting || m.conn.since.None? ==> m.conn.marks.None?)
  {
    if trace != [] {
      var n := |trace| - 1;
      LastStep(cfg, trace);
      SettledAlong(cfg, trace[..n]);
      SettledStep(cfg, Scan(cfg, trace[..n]).value, trace[n], Scan(cfg, trace).value);
      GreetingStep(cfg, Scan(cfg, trace[..n]).value, trace[n], Scan(cfg, trace).value);
    }
  }

  // A watchdog Lagging comes only after a full watchdog interval without activity since
  // the connection was made.
  function LastActive(trace: seq<Event>): int {
    if trace == [] then 0
    else
      var e := trace[|trace|-1];
      if e.Listening? then e.armed
      else if Is(e, Connected) || (e.Got? && e.activity) then e.time
      else LastActive(trace[..|trace|-1])
  }

  lemma {:induction false} ActiveIsLast(cfg: Config, trace: seq<Event>)
    requires Accepted(cfg, trace)
    ensures Scan(cfg, trace).value.conn.active == LastActive(trace)
  {
    if trace != [] {
      ActiveIsLast(cfg, trace[..|trace|-1]);
    }
  }

  lemma WatchdogNeedsSilence(cfg: Config, trace: seq<Event>, n: nat)
    requires Accepted(cfg, trace) && n < |trace| && Is(trace[n], Lagging) && trace[n].reason == WatchdogTimeout
    ensures trace[n].time >= LastActive(trace[..n]) + cfg.watchdog
  {
    var m, m' := StepAt(cfg, trace, n);
    ActiveIsLast(cfg, trace[..n]);
  }

  // ---- the frames of one instrument on one connection ----

  // got is what has been delivered of want: all of it when nothing is outstanding.
  predicate Delivers(got: seq<Frame>, want: seq<Frame>, all: bool) {
    got <= want && (all ==> got == want)
  }

  // The next event is not the end of the run, nor a message still to be handed over.
  ghost predicate CarriesOnAt(trace: seq<Event>, n: nat) {
    n < |trace| && CarriesOn(trace[n])
  }

  lemma InstrumentExpected(cfg: Config, trace: seq<Event>, i: nat, n: nat, answers: seq<Answer>, uid: string)
    requires cfg.filtered && Accepted(cfg, trace) && Opens(trace, i, n)
    requires SnapshotsIn(trace[i+1..n]) == Some(answers)
    ensures Taken(cfg, answers)
    ensures var events := trace[i+1..n];
            Delivers(Of(DeliveredBooks(events), uid),
                     Of(Expected(GotBefore(events), GotAfter(events), MarksOf(cfg.uids, answers)), uid),
                     CarriesOnAt(trace, n))
  {
    var events := trace[i+1..n];
    OneOpening(cfg, trace, i, n);
    ConnectionTells(cfg, trace, i, n);
    ConnectionDelivers(cfg, trace, i, n);
    OfPrefix(DeliveredBooks(events), Expected(GotBefore(events), GotAfter(events), MarksOf(cfg.uids, answers)), uid);
  }

  // An instrument whose snapshots on this very connection are timed, the last one t: exactly
  // the frames strictly newer than t, in arrival order, as long as the live ones are timed.
  lemma NewerThanSnapshot(cfg: Config, trace: seq<Event>, i: nat, n: nat, answers: seq<Answer>, uid: string)
    requires cfg.filtered && Accepted(cfg, trace) && Opens(trace, i, n)
    requires SnapshotsIn(trace[i+1..n]) == Some(answers) && |answers| == |cfg.uids|
    requires Cutoff(cfg.uids, answers, uid).Some? && Timed(GotAfter(trace[i+1..n]), uid)
    ensures var events := trace[i+1..n];
            Delivers(Of(DeliveredBooks(events), uid),
                     Newer(GotBefore(events) + GotAfter(events), uid, Cutoff(cfg.uids, answers, uid).value),
                     CarriesOnAt(trace, n))
  {
    var events := trace[i+1..n];
    InstrumentExpected(cfg, trace, i, n, answers, uid);
    CutoffMeaning(cfg.uids, answers, uid);
    TimedExactly(GotBefore(events), GotAfter(events), MarksOf(cfg.uids, answers), uid);
  }

  // Its first live frame without a time is dropped, and everything of it after that frame
  // is delivered.
  lemma UntimedLiveFrameOpens(cfg: Config, trace: seq<Event>, i: nat, n: nat, answers: seq<Answer>,
                              timed: seq<Frame>, f: Frame, rest: seq<Frame>)
    requires cfg.filtered && Accepted(cfg, trace) && Opens(trace, i, n)
    requires SnapshotsIn(trace[i+1..n]) == Some(answers) && |answers| == |cfg.uids|
    requires GotAfter(trace[i+1..n]) == timed + [f] + rest && f.Book? && f.time.None?
    requires Cutoff(cfg.uids, answers, f.uid).Some? && Timed(timed, f.uid)
    ensures var events := trace[i+1..n];
            Delivers(Of(DeliveredBooks(events), f.uid),
                     Newer(GotBefore(events) + timed, f.uid, Cutoff(cfg.uids, answers, f.uid).value) + Of(rest, f.uid),
                     CarriesOnAt(trace, n))
  {
    var events := trace[i+1..n];
    InstrumentExpected(cfg, trace, i, n, answers, f.uid);
    CutoffMeaning(cfg.uids, answers, f.uid);
    UntimedFrameOpens(GotBefore(events), timed, f, rest, MarksOf(cfg.uids, answers));
  }

  // An instrument without a snapshot, or with one that has no time, is not filtered.
  lemma WithoutCutoffPasses(cfg: Config, trace: seq<Event>, i: nat, n: nat, answers: seq<Answer>, uid: string)
    requires cfg.filtered && Accepted(cfg, trace) && Opens(trace, i, n)
    requires SnapshotsIn(trace[i+1..n]) == Some(answers) && |answers| == |cfg.uids|
    requires Cutoff(cfg.uids, answers, uid).None?
    ensures var events := trace[i+1..n];
            Delivers(Of(DeliveredBooks(events), uid), Of(GotBefore(events) + GotAfter(events), uid),
                     CarriesOnAt(trace, n))
  {
    var events := trace[i+1..n];
    InstrumentExpected(cfg, trace, i, n, answers, uid);
    CutoffMeaning(cfg.uids, answers, uid);
    UntimedSnapshotPasses(GotBefore(events), GotAfter(events), MarksOf(cfg.uids, answers), uid);
  }
}
