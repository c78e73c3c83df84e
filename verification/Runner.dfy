/** The stream runner: it reconnects, replays subscriptions under a rolling cap, buffers
    messages while snapshots are taken and reports every transition. The select loops are
    a nondeterministic choice of what happens next; fuel bounds how many choices a run is
    observed for, so that every finite prefix of every run is covered. */
module Streams {
  import opened Wrappers
  import opened Environments
  import opened OrderBooks
  import opened Registries
  import opened ReplayLimiting
  import opened StreamTraces

  // Thirty seconds in nanoseconds.
  const DEFAULT_WATCHDOG := 30_000_000_000
  const DEFAULT_RECONCILE_BUFFER := 10_000

  // What opening a stream gives.
  datatype Opening = OpenFailed(err: Err) | Session(canReceive: bool, canSend: bool)

  // What a select picks; Nothing when the arm it looks at is not ready.
  datatype Choice = Nothing | CtxDone | ReconcileDone(answers: seq<Answer>) | Message(frame: Frame, activity: bool)
                  | ReceiveError(err: Err) | TimerFired

  // A connection: its number, its subscriptions, when its receive loop started, and how many
  // failures in a row came before it.
  datatype Link = Link(connection: nat, subs: nat, connectedAt: int, failures: nat)

  // How a connection ends: to be reconnected, by shutdown, with an error, or not yet.
  datatype Received = Reconnect | Stopped | Broken | Unfinished

  // How a run ends: cleanly, with an error, or not yet.
  datatype Result = Nil | Error | Running

  class Runner {
    const hasOpen: bool
    const registry: Registry?<int>
    // What the registry holds while the run lasts.
    ghost const replay: seq<int>
    ghost const subscriptions: nat
    const books: BookFilter?
    const watchdog: int
    const maxReconcileBuffer: int
    const replayLimit: int
    const replayWindow: int
    // Everything the consumer has observed, and whether one of its callbacks has failed.
    var trace: seq<Event>
    var callbackFailed: bool
    // Whether a session was opened that cannot receive, or cannot send what is registered.
    var unusable: bool
    // How many requests have been sent.
    var sends: nat

    constructor (hasOpen: bool, registry: Registry?<int>, books: BookFilter?, watchdog: int, maxReconcileBuffer: int,
                 replayLimit: int, replayWindow: int)
      requires registry != null ==> registry.Valid()
      ensures this.hasOpen == hasOpen && this.registry == registry && this.books == books && Listed()
      ensures this.watchdog == watchdog && this.maxReconcileBuffer == maxReconcileBuffer
      ensures this.replayLimit == replayLimit && this.replayWindow == replayWindow
      ensures trace == [] && !callbackFailed && !unusable && sends == 0
    {
      this.hasOpen, this.registry, this.books := hasOpen, registry, books;
      this.watchdog, this.maxReconcileBuffer := watchdog, maxReconcileBuffer;
      this.replayLimit, this.replayWindow := replayLimit, replayWindow;
      replay := if registry == null then [] else Requests(registry.Contents());
      subscriptions := if registry == null then 0 else Subscriptions(registry.Contents());
      trace, callbackFailed, unusable, sends := [], false, false, 0;
    }

    // The registry still holds what it held when the runner was made.
    ghost predicate Listed()
      reads registry
    {
      if registry == null then replay == [] && subscriptions == 0
      else
        && registry.Valid() && replay == Requests(registry.Contents())
        && subscriptions == Subscriptions(registry.Contents())
    }

    function Watchdog(): int {
      if watchdog <= 0 then DEFAULT_WATCHDOG else watchdog
    }

    function MaxBuffer(): nat {
      if maxReconcileBuffer <= 0 then DEFAULT_RECONCILE_BUFFER else maxReconcileBuffer
    }

    ghost function Cfg(): Config {
      Config(books != null, if books == null then [] else books.uids, MaxBuffer(), Watchdog(), replay, subscriptions)
    }

    ghost predicate Ok()
      reads this
    {
      Accepted(Cfg(), trace)
    }

    ghost function State(): Mon
      reads this
      requires Ok()
    {
      Scan(Cfg(), trace).value
    }

    method Log(e: Event)
      requires Ok() && Next(Cfg(), State(), e).Some?
      modifies this`trace
      ensures Ok() && Some(State()) == Next(Cfg(), old(State()), e) && trace == old(trace) + [e]
    {
      ScanSnoc(Cfg(), trace, e);
      trace := trace + [e];
    }

    // The consumer's callbacks may fail; nothing is handed to it after that.
    method Emit(e: Event) returns (failed: bool)
      requires Ok() && e.Life? && Next(Cfg(), State(), e).Some? && !callbackFailed
      modifies this`trace, this`callbackFailed
      ensures Ok() && Some(State()) == Next(Cfg(), old(State()), e) && trace == old(trace) + [e]
      ensures callbackFailed == (old(callbackFailed) || failed)
    {
      Log(e);
      failed := *;
      callbackFailed := callbackFailed || failed;
    }

    method Deliver(f: Frame) returns (failed: bool)
      requires Ok() && Next(Cfg(), State(), Delivered(f)).Some? && !callbackFailed
      modifies this`trace, this`callbackFailed
      ensures Ok() && Some(State()) == Next(Cfg(), old(State()), Delivered(f))
      ensures callbackFailed == (old(callbackFailed) || failed)
    {
      Log(Delivered(f));
      failed := *;
      callbackFailed := callbackFailed || failed;
    }

    // ---- what the run hears ----

    // Whether the context is cancelled; once it says so the run may only end.
    method ContextDone(env: Env) returns (cancelled: bool)
      requires Ok() && MayNotice(State())
      modifies this`trace, env
      ensures Ok() && env.Later() && cancelled == env.cancelled
      ensures State() == if cancelled then old(State()).(phase := Closing(!Unconnected(old(State())))) else old(State())
    {
      cancelled := env.Err();
      if cancelled {
        Log(Event.Cancelled);
      }
    }

    method Dial() returns (opening: Opening)
      requires Ok() && State().phase == Idle
      modifies this`trace
      ensures Ok()
      ensures State() == old(State()).(phase := match opening
                                                case OpenFailed(err) => Rejected(err)
                                                case Session(_, _) => Replaying(0))
    {
      opening := *;
      match opening {
        case OpenFailed(err) => Log(Refused(err));
        case Session(_, _) => Log(Opened);
      }
    }

    method Send(request: int, ghost done: nat) returns (err: Option<Err>)
      requires Ok() && State().phase == Replaying(done) && done < |replay| && request == replay[done]
      modifies this`trace, this`sends
      ensures Ok() && sends == old(sends) + 1
      ensures State() == old(State()).(phase := if err.Some? then Halted(err.value) else Replaying(done + 1))
    {
      sends := sends + 1;
      err := *;
      if err.Some? {
        Log(Unsent(err.value));
      } else {
        Log(Sent(request));
      }
    }

    // Waits for whatever comes next.
    method Select(env: Env, ghost link: Link, reconciling: bool, ghost buffered: seq<Frame>, deadline: int)
      returns (choice: Choice, now: int)
      requires Receiving(link, reconciling, buffered) && deadline == State().conn.active + Watchdog()
      modifies this`trace, env
      ensures Ok() && env.Later() && now <= env.clock
      ensures match choice
              case Nothing => State() == old(State())
              case CtxDone => Leaving(env) && State().connections == link.connection && !callbackFailed
              case ReconcileDone(answers) =>
                reconciling && SnapshotsBack(link, answers, buffered) && State().conn.active == old(State()).conn.active
              case Message(f, activity) =>
                && Heard(link, f, reconciling, buffered)
                && State().conn.active == if activity then now else old(State()).conn.active
              case ReceiveError(err) => Erred(link, Torn(err))
              case TimerFired => Erred(link, Quiet) && env.clock >= State().conn.active + Watchdog()
    {
      now := env.Now();
      choice := *;
      match choice {
        case Nothing =>
        case CtxDone =>
          if env.cancelled {
            HearCancelled(env, link, reconciling, buffered);
          } else {
            choice := Nothing;
          }
        case ReconcileDone(answers) =>
          if reconciling && |answers| == |books.uids| {
            HearSnapshots(link, answers, buffered);
          } else {
            choice := Nothing;
          }
        case Message(f, activity) => HearMessage(link, f, activity, now, reconciling, buffered);
        case ReceiveError(err) => HearError(link, err, reconciling, buffered);
        case TimerFired =>
          if now >= deadline {
            HearTimer(link, now, reconciling, buffered);
          } else {
            choice := Nothing;
          }
      }
    }

    method HearCancelled(env: Env, ghost link: Link, ghost reconciling: bool, ghost buffered: seq<Frame>)
      requires Receiving(link, reconciling, buffered) && env.cancelled
      modifies this`trace
      ensures Leaving(env) && State().connections == link.connection && !callbackFailed
    {
      Log(Event.Cancelled);
    }

    method HearError(ghost link: Link, err: Err, ghost reconciling: bool, ghost buffered: seq<Frame>)
      requires Receiving(link, reconciling, buffered)
      modifies this`trace
      ensures Erred(link, Torn(err))
    {
      Log(Broke(err));
    }

    method HearTimer(ghost link: Link, now: int, ghost reconciling: bool, ghost buffered: seq<Frame>)
      requires Receiving(link, reconciling, buffered) && now >= State().conn.active + Watchdog()
      modifies this`trace
      ensures Erred(link, Quiet) && State().conn == old(State()).conn
    {
      Log(Expired(now));
    }

    method HearMessage(ghost link: Link, f: Frame, activity: bool, now: int, ghost reconciling: bool,
                       ghost buffered: seq<Frame>)
      requires Receiving(link, reconciling, buffered)
      modifies this`trace
      ensures Heard(link, f, reconciling, buffered)
      ensures State().conn.active == if activity then now else old(State()).conn.active
    {
      Log(Got(f, activity, now));
      if !reconciling && books != null && f.Book? {
        ghost var after := State().conn.after;
        assert after[..|after|-1] == old(State()).conn.after;
      }
    }

    method HearSnapshots(ghost link: Link, answers: seq<Answer>, ghost buffered: seq<Frame>)
      requires Receiving(link, true, buffered) && |answers| == |books.uids|
      modifies this`trace
      ensures SnapshotsBack(link, answers, buffered) && State().conn.active == old(State()).conn.active
    {
      Log(Reconciled(answers));
    }

    // The connection has just failed or gone quiet.
    ghost predicate Erred(link: Link, phase: Phase)
      reads this
    {
      && Ok() && State().phase == phase && State().connections == link.connection && !callbackFailed
      && State().conn.subscriptions == link.subs && State().failures == link.failures
      && State().conn.since == Some(link.connectedAt)
    }

    method Shutdown(env: Env, connections: nat) returns (result: Result)
      requires Leaving(env) && State().connections == connections && !callbackFailed
      modifies this`trace, this`callbackFailed, env
      ensures Ok() && State().phase == Ended && env.Later() && Excused(env)
      ensures result == if callbackFailed then Error else Nil
    {
      MayEndSaysCancelled(Cfg(), trace);
      var now := env.Now();
      var failed := Emit(Life(Disconnected, connections, 0, Reason.Shutdown, None, true, now));
      result := if failed then Error else Nil;
    }

    // The run may end cleanly.
    ghost predicate Leaving(env: Env)
      reads this, env
    {
      Ok() && MayEnd(State()) && (State().phase.Closing? ==> env.cancelled)
    }

    // It did so because its context is cancelled, or because an error said so.
    ghost predicate Excused(env: Env)
      reads this, env
    {
      |trace| > 1 && SaysCancelled(trace[|trace|-2]) && (trace[|trace|-2].Cancelled? ==> env.cancelled)
    }

    // ---- one connection ----

    // Up, with so many failures in a row before it.
    ghost predicate Here(connection: nat, subs: nat, failures: nat)
      reads this
    {
      && Ok() && State().phase == Up && State().connections == connection && State().conn.subscriptions == subs
      && State().failures == failures && State().conn.owed.None? && !callbackFailed
    }

    // Listened to.
    ghost predicate Linked(link: Link)
      reads this
    {
      Here(link.connection, link.subs, link.failures) && State().conn.since == Some(link.connectedAt)
    }

    // Between two choices of the receive loop.
    ghost predicate Receiving(link: Link, reconciling: bool, buffered: seq<Frame>)
      reads this, books
    {
      Linked(link) &&
      var c := State().conn;
      if reconciling then
        && books != null && c.marks.None? && c.before == buffered && |buffered| <= MaxBuffer() && AllBooks(buffered)
        && c.after == [] && c.sent == []
      else if books == null then
        c.marks.None?
      else
        c.marks.Some? && books.State() == MarksAfter(c.after, c.marks.value)
        && c.sent == Expected(c.before, c.after, c.marks.value)
    }

    static predicate AllBooks(frames: seq<Frame>) {
      forall k :: 0 <= k < |frames| ==> frames[k].Book?
    }

    // How a finished connection leaves the monitor.
    ghost predicate Left(out: Received, connection: nat, failures: nat, env: Env)
      reads this, env
    {
      && Ok() && State().connections == connection
      && match out
         case Reconnect => State().phase == Paused && State().failures == failures && !callbackFailed
         case Stopped => Leaving(env) && !callbackFailed
         case Broken => State().phase == Fatal || (State().phase != Ended && callbackFailed)
         case Unfinished => State().phase == Up && !callbackFailed
    }

    // Tearing a connection down joins the snapshots still in progress, which may yet succeed.
    method Stop(pending: bool)
      modifies books
    {
      if pending && books != null {
        var answers: seq<Answer> := *;
        if |answers| == |books.uids| {
          var _ := books.Reconcile(answers);
        }
      }
    }

    method Disconnect(env: Env, connection: nat, subs: nat, reason: Reason, err: Option<Err>) returns (failed: bool)
      requires Ok()
      requires forall now :: Next(Cfg(), State(), Life(Disconnected, connection, subs, reason, err, false, now)).Some?
      requires !callbackFailed
      modifies this`trace, this`callbackFailed, env
      ensures Ok() && env.Later() && callbackFailed == failed
      ensures State() == StreamTraces.Failed(old(State()), err)
    {
      var now := env.Now();
      failed := Emit(Life(Disconnected, connection, subs, reason, err, false, now));
    }

    // Hands over what was buffered, filtered by the snapshots just taken, unless the context
    // is cancelled on the way.
    method Flush(env: Env, link: Link, buffered: seq<Frame>, ghost marks: Marks) returns (out: Option<Received>)
      requires Flushing(link, buffered, 0, marks)
      modifies this`trace, this`callbackFailed, env, books
      ensures env.Later()
      ensures match out
              case None => Receiving(link, false, []) && State().conn.active == old(State().conn.active)
              case Some(r) => Left(r, link.connection, link.failures, env) && (r.Stopped? || r.Broken?)
    {
      for i := 0 to |buffered|
        invariant Flushing(link, buffered, i, marks) && env.Later()
        invariant State().conn.active == old(State().conn.active)
      {
        var failed := DeliverBuffered(link, buffered, i, marks);
        if failed {
          return Some(Broken);
        }
        var cancelled := ContextDone(env);
        if cancelled {
          return Some(Received.Stopped);
        }
      }
      assert buffered[..|buffered|] == buffered;
      out := None;
    }

    ghost predicate Flushing(link: Link, buffered: seq<Frame>, i: nat, marks: Marks)
      reads this, books
    {
      && Linked(link) && books != null && books.State() == marks && i <= |buffered| && AllBooks(buffered)
      && State().conn.marks == Some(marks) && State().conn.before == buffered && State().conn.after == []
      && State().conn.sent == FilterBuffered(buffered[..i], marks)
    }

    method DeliverBuffered(ghost link: Link, buffered: seq<Frame>, i: nat, ghost marks: Marks) returns (failed: bool)
      requires i < |buffered| && Flushing(link, buffered, i, marks)
      modifies this`trace, this`callbackFailed, books
      ensures if failed then callbackFailed && Ok() && State().connections == link.connection && State().phase == Up
              else Flushing(link, buffered, i + 1, marks) && State().conn.active == old(State().conn.active)
    {
      BufferedStep(buffered, i, marks);
      var keep := books.Keep(buffered[i], false);
      if !keep {
        return false;
      }
      assert Expected(buffered, [], marks) == FilterBuffered(buffered, marks);
      assert State().conn.sent + [buffered[i]] == FilterBuffered(buffered[..i+1], marks);
      failed := Deliver(buffered[i]);
    }

    // All snapshots are back: everything buffered may be handed over, or the first failure
    // ends the connection.
    ghost predicate SnapshotsBack(link: Link, answers: seq<Answer>, buffered: seq<Frame>)
      reads this, books
    {
      && Ok() && State().connections == link.connection && State().conn.subscriptions == link.subs
      && State().failures == link.failures && State().conn.since == Some(link.connectedAt) && !callbackFailed
      && books != null && |answers| == |books.uids| && AllBooks(buffered)
      && State().conn.owed.None? && State().conn.before == buffered
      && State().conn.after == [] && State().conn.sent == []
      && match FirstFailure(answers)
         case None => State().phase == Up && State().conn.marks == Some(MarksOf(books.uids, answers))
         case Some(cause) => State().phase == Unsettled(cause)
    }

    // The snapshots are done: flush the buffer, or give the connection up.
    method OnReconciled(env: Env, link: Link, answers: seq<Answer>, buffered: seq<Frame>)
      returns (out: Option<Received>, failures: nat)
      requires SnapshotsBack(link, answers, buffered)
      modifies this`trace, this`callbackFailed, env, books
      ensures env.Later()
      ensures match out
              case None => Receiving(link, false, []) && State().conn.active == old(State().conn.active)
              case Some(r) => Left(r, link.connection, failures, env) && !r.Unfinished?
    {
      failures := link.failures;
      FirstFailureMeans(answers);
      var err := books.Reconcile(answers);
      assert err == FirstFailure(answers);
      var cancelled := ContextDone(env);
      if err.Some? {
        if cancelled || err.value.canceled {
          return Some(Received.Stopped), failures;
        }
        failures := failures + 1;
        var failed := Disconnect(env, link.connection, link.subs, ReconcileError, err);
        if failed || !Reconnectable(err.value) {
          return Some(Broken), failures;
        }
        return Some(Reconnect), failures;
      }
      if cancelled {
        return Some(Received.Stopped), failures;
      }
      out := Flush(env, link, buffered, books.State());
    }

    method OnReceiveError(env: Env, link: Link, err: Err, pending: bool) returns (out: Received, failures: nat)
      requires Erred(link, Torn(err))
      modifies this`trace, this`callbackFailed, env, books
      ensures env.Later() && Left(out, link.connection, failures, env) && !out.Unfinished?
    {
      failures := link.failures;
      Stop(pending);
      var cancelled := ContextDone(env);
      if cancelled || err.canceled {
        return Received.Stopped, failures;
      }
      var now := env.Now();
      Log(Lost(now));
      if now - link.connectedAt >= Watchdog() {
        failures := 0;
      }
      failures := failures + 1;
      var failed := Disconnect(env, link.connection, link.subs, StreamErrorReason(err), Some(err));
      if failed || !Reconnectable(err) {
        return Broken, failures;
      }
      out := Reconnect;
    }

    // Reports a gap and gives the connection up.
    method Lagged(env: Env, link: Link, reason: Reason) returns (out: Received, failures: nat)
      requires Ok() && State().connections == link.connection && State().failures == link.failures && !callbackFailed
      requires if State().phase == Quiet then reason == WatchdogTimeout && env.clock >= State().conn.active + Watchdog()
               else State().phase == Overflow && reason == BufferOverflow
      requires State().conn.subscriptions == link.subs
      modifies this`trace, this`callbackFailed, env
      ensures env.Later() && Left(out, link.connection, failures, env) && (out.Reconnect? || out.Broken?)
    {
      failures := link.failures + 1;
      var now := env.Now();
      var failed := Emit(Life(Lagging, link.connection, link.subs, reason, None, false, now));
      if failed {
        return Broken, failures;
      }
      failed := Disconnect(env, link.connection, link.subs, reason, None);
      out := if failed then Broken else Reconnect;
    }

    // A message has been taken from the stream, and nothing done about it yet.
    ghost predicate Heard(link: Link, f: Frame, reconciling: bool, buffered: seq<Frame>)
      reads this, books
    {
      && Ok() && State().connections == link.connection && State().conn.subscriptions == link.subs
      && State().failures == link.failures && State().conn.since == Some(link.connectedAt) && !callbackFailed
      && var c := State().conn;
      if reconciling && f.Book? then
        && books != null && c.owed.None? && c.marks.None? && c.after == [] && c.sent == [] && AllBooks(buffered)
        && |buffered| <= MaxBuffer()
        && (if |buffered| < MaxBuffer() then State().phase == Up && c.before == buffered + [f]
            else State().phase == Overflow && c.before == buffered)
      else if books == null || !f.Book? then
        && State().phase == Up && c.owed == Some(f)
        && (if reconciling then
              && books != null && c.marks.None? && c.before == buffered && |buffered| <= MaxBuffer()
              && AllBooks(buffered) && c.after == [] && c.sent == []
            else if books == null then c.marks.None?
            else
              && c.marks.Some? && books.State() == MarksAfter(c.after, c.marks.value)
              && c.sent == Expected(c.before, c.after, c.marks.value))
      else State().phase == Up && JustReceived(c, f, books.State())
    }

    // An order-book frame while snapshots are taken: buffered, or one too many.
    method Buffer(env: Env, link: Link, f: Frame, buffered0: seq<Frame>)
      returns (out: Option<Received>, buffered: seq<Frame>, failures: nat)
      requires f.Book? && Heard(link, f, true, buffered0)
      modifies this`trace, this`callbackFailed, env, books
      ensures env.Later()
      ensures match out
              case None => Receiving(link, true, buffered) && State().conn.active == old(State()).conn.active
              case Some(r) => Left(r, link.connection, failures, env) && (r.Reconnect? || r.Broken?)
    {
      buffered, failures := buffered0, link.failures;
      if |buffered| >= MaxBuffer() {
        Stop(true);
        var gone;
        gone, failures := Lagged(env, link, BufferOverflow);
        return Some(gone), buffered, failures;
      }
      buffered := buffered + [f];
      out := None;
    }

    method OnMessage(env: Env, link: Link, f: Frame, activity: bool, now: int, reconciling: bool, buffered0: seq<Frame>,
                     deadline0: int)
      returns (out: Option<Received>, buffered: seq<Frame>, deadline: int, failures: nat)
      requires Heard(link, f, reconciling, buffered0)
      requires if activity then State().conn.active == now else deadline0 == State().conn.active + Watchdog()
      modifies this`trace, this`callbackFailed, env, books
      ensures env.Later()
      ensures match out
              case None => Receiving(link, reconciling, buffered) && deadline == State().conn.active + Watchdog()
              case Some(r) => Left(r, link.connection, failures, env) && (r.Reconnect? || r.Broken?)
    {
      buffered, deadline, failures := buffered0, deadline0, link.failures;
      if activity {
        deadline := now + Watchdog();
      }
      if reconciling && f.Book? {
        out, buffered, failures := Buffer(env, link, f, buffered);
        return;
      }
      var failed := DeliverLive(f, reconciling);
      if failed {
        Stop(reconciling);
        return Some(Broken), buffered, deadline, failures;
      }
      out := None;
    }

    // The last live frame received is f, and everything before it has been dealt with.
    static ghost predicate JustReceived(c: Conn, f: Frame, marks: Marks) {
      && c.owed.None? && c.marks.Some? && c.after != [] && c.after[|c.after|-1] == f
      && marks == MarksAfter(c.after[..|c.after|-1], c.marks.value)
      && c.sent == Expected(c.before, c.after[..|c.after|-1], c.marks.value)
    }

    // A message past the buffer: filtered once the snapshots are complete.
    method DeliverLive(f: Frame, reconciling: bool) returns (failed: bool)
      requires Ok() && State().phase == Up && !callbackFailed && (reconciling ==> !f.Book?)
      requires var c := State().conn;
               if books == null || !f.Book? then c.owed == Some(f) else JustReceived(c, f, books.State())
      modifies this`trace, this`callbackFailed, books
      ensures Ok() && State() == old(State()).(conn := State().conn) && callbackFailed == failed
      ensures var was, c := old(State().conn), State().conn;
              if books == null || !f.Book? then c == was.(owed := None)
              else c == was.(sent := Expected(was.before, was.after, was.marks.value))
      ensures books != null ==>
                books.State() == if f.Book? then MarksAfter(State().conn.after, State().conn.marks.value)
                                                  else old(books.State())
    {
      if books != null && f.Book? {
        LiveStep(State().conn.before, State().conn.after, State().conn.marks.value);
      }
      if !reconciling && books != null {
        var keep := books.Keep(f, true);
        if !keep {
          return false;
        }
      }
      failed := Deliver(f);
    }

    // Waits on whatever comes next until the connection ends.
    method Receive(env: Env, connection: nat, subs: nat, failures0: nat, fuel: nat)
      returns (out: Received, failures: nat, left: nat)
      requires Here(connection, subs, failures0) && State().conn.since.None? && State().conn.marks.None?
      requires var c := State().conn; c.before == [] && c.after == [] && c.sent == []
      modifies this`trace, this`callbackFailed, env, books
      ensures env.Later() && Left(out, connection, failures, env) && left <= fuel && (out.Unfinished? ==> left == 0)
    {
      failures, left := failures0, fuel;
      var armed := env.Now();
      var deadline := armed + Watchdog();
      var connectedAt := env.Now();
      Log(Listening(armed, connectedAt));
      var link := Link(connection, subs, connectedAt, failures);
      var reconciling := books != null;
      var buffered := [];
      while left > 0
        invariant Receiving(link, reconciling, buffered) && env.Later() && left <= fuel
        invariant deadline == State().conn.active + Watchdog()
      {
        left := left - 1;
        var choice, now := Select(env, link, reconciling, buffered, deadline);
        match choice {
          case Nothing =>
          case CtxDone =>
            Stop(reconciling);
            return Received.Stopped, failures, left;
          case ReconcileDone(answers) =>
            var gone;
            gone, failures := OnReconciled(env, link, answers, buffered);
            if gone.Some? {
              return gone.value, failures, left;
            }
            reconciling, buffered := false, [];
          case Message(f, activity) =>
            var gone;
            gone, buffered, deadline, failures :=
              OnMessage(env, link, f, activity, now, reconciling, buffered, deadline);
            if gone.Some? {
              return gone.value, failures, left;
            }
          case ReceiveError(err) =>
            out, failures := OnReceiveError(env, link, err, reconciling);
            return;
          case TimerFired =>
            Stop(reconciling);
            out, failures := Lagged(env, link, WatchdogTimeout);
            return;
        }
      }
      out := Unfinished;
    }

    // ---- the whole run ----

    // Between connections, after so many failures in a row.
    ghost predicate Resting(connections: nat, failures: nat)
      reads this
    {
      && Ok() && State().phase == Idle && State().connections == connections && State().failures == failures
      && !callbackFailed
    }

    // A session on which the first requests have been sent.
    ghost predicate Sending(connections: nat, failures: nat, done: nat)
      reads this
    {
      && Ok() && State().phase == Replaying(done) && State().connections == connections
      && State().failures == failures && !callbackFailed
    }

    ghost predicate HalfSent(connections: nat, failures: nat)
      reads this
    {
      exists done: nat :: Sending(connections, failures, done)
    }

    // An attempt has failed before a connection was made.
    ghost predicate Attempted(connections: nat, subs: nat, reason: Reason, err: Err, failures: nat)
      reads this
    {
      && Ok() && State().connections == connections && State().failures == failures && !callbackFailed
      && ((reason == ConnectError && subs == 0 && State().phase == Rejected(err))
          || (reason == ResubscribeError && subs == subscriptions && State().phase == Halted(err)))
    }

    method FailedAttempt(env: Env, ghost connections: nat, subs: nat, reason: Reason, err: Err, failures: nat)
      returns (failed: bool)
      requires failures >= 1 && Attempted(connections, subs, reason, err, failures - 1)
      modifies this`trace, this`callbackFailed, env
      ensures Ok() && env.Later() && State() == StreamTraces.Failed(old(State()), Some(err)) && callbackFailed == failed
    {
      var now := env.Now();
      failed := Emit(Life(Disconnected, failures, subs, reason, Some(err), false, now));
    }

    // Sends the registered requests again, each with a grant of its own.
    method Replay(env: Env, limiter: ReplayLimiter, ghost connections: nat, ghost failures: nat, requests: seq<int>)
      returns (waitErr: bool, sendErr: Option<Err>)
      requires Sending(connections, failures, 0) && requests == replay
      requires limiter.Valid(env.clock) && |limiter.grants| == sends
      modifies this`trace, this`sends, env, limiter
      ensures env.Later() && limiter.Valid(env.clock) && |limiter.grants| == sends
      ensures if waitErr then env.cancelled && HalfSent(connections, failures)
              else if sendErr.None? then Sending(connections, failures, |replay|)
              else Attempted(connections, subscriptions, ResubscribeError, sendErr.value, failures)
    {
      waitErr, sendErr := false, None;
      for i := 0 to |requests|
        invariant !waitErr && sendErr.None? && Sending(connections, failures, i)
        invariant env.Later() && limiter.Valid(env.clock) && |limiter.grants| == sends
      {
        var passes, at;
        waitErr, passes, at := limiter.WaitN(env, 1);
        if waitErr {
          assert Sending(connections, failures, i);
          return;
        }
        sendErr := Send(requests[i], i);
        if sendErr.Some? {
          return;
        }
      }
    }

    // Waits before the next attempt, the longer the more failures; a cancelled wait shuts
    // the run down.
    method BackOff(env: Env, connections: nat, failures: nat) returns (out: Option<Result>)
      requires Ok() && State().phase == Paused && State().connections == connections && State().failures == failures
      requires !callbackFailed
      modifies this`trace, this`callbackFailed, env
      ensures env.Later() && Finished(out, connections, failures, env) && out != Some(Running)
    {
      Log(Waits(failures));
      var delay: int := *;
      var err := env.Wait(delay);
      if err {
        Log(Event.Cancelled);
        var result := Shutdown(env, connections);
        return Some(result);
      }
      out := None;
    }

    // What a finished run, or one between connections, has shown its consumer.
    ghost predicate Finished(out: Option<Result>, connections: nat, failures: nat, env: Env)
      reads this, env
    {
      match out
      case None => Resting(connections, failures)
      case Some(Nil) => Ok() && State().phase == Ended && !callbackFailed && Excused(env)
      case Some(Error) =>
        Ok() && (State().phase == Fatal || callbackFailed || (unusable && State().phase == Replaying(0)))
      case Some(Running) => Ok() && (State().phase == Idle || State().phase == Up) && !callbackFailed
    }

    method Announce(env: Env, connection: nat, subs: nat, ghost failures: nat) returns (failed: bool)
      requires connection > 0 && Sending(connection - 1, failures, |replay|) && subs == subscriptions
      modifies this`trace, this`callbackFailed, env
      ensures env.Later() && Ok() && callbackFailed == failed
      ensures !failed ==> Here(connection, subs, failures)
      ensures !failed ==> var c := State().conn;
                c.since.None? && c.marks.None? && c.before == [] && c.after == [] && c.sent == []
    {
      var now := env.Now();
      failed := Emit(Life(Connected, connection, subs, Unspecified, None, false, now));
      if !failed && connection > 1 {
        now := env.Now();
        failed := Emit(Life(Resubscribed, connection, subs, Unspecified, None, false, now));
      }
    }

    // From a replayed session to the end of its connection.
    method Serve(env: Env, connection: nat, subs: nat, failures0: nat, fuel: nat)
      returns (out: Option<Result>, failures: nat, left: nat)
      requires connection > 0 && Sending(connection - 1, failures0, |replay|) && subs == subscriptions
      modifies this`trace, this`callbackFailed, env, books
      ensures env.Later() && Finished(out, connection, failures, env)
      ensures left <= fuel && (out == Some(Running) ==> left == 0)
    {
      failures, left := failures0, fuel;
      var failed := Announce(env, connection, subs, failures);
      if failed {
        return Some(Error), failures, left;
      }
      var cancelled := ContextDone(env);
      if cancelled {
        var result := Shutdown(env, connection);
        return Some(result), failures, left;
      }
      var ended;
      ended, failures, left := Receive(env, connection, subs, failures, left);
      match ended {
        case Broken =>
          out := Some(Error);
        case Stopped =>
          var result := Shutdown(env, connection);
          out := Some(result);
        case Unfinished =>
          out := Some(Running);
        case Reconnect =>
          out := BackOff(env, connection, failures);
      }
    }

    // An attempt that failed before a connection was made.
    method Retry(env: Env, connections: nat, subs: nat, reason: Reason, err: Err, failures: nat)
      returns (out: Option<Result>)
      requires failures >= 1 && Attempted(connections, subs, reason, err, failures - 1)
      modifies this`trace, this`callbackFailed, env
      ensures env.Later() && Finished(out, connections, failures, env) && out != Some(Running)
    {
      var failed := FailedAttempt(env, connections, subs, reason, err, failures);
      if failed || !Reconnectable(err) {
        return Some(Error);
      }
      out := BackOff(env, connections, failures);
    }

    // An open session: the registered requests are replayed on it, then it is served.
    method Connect(env: Env, limiter: ReplayLimiter, connections0: nat, requests: seq<int>, count: nat, failures0: nat,
                   fuel: nat)
      returns (out: Option<Result>, connections: nat, failures: nat, left: nat)
      requires Sending(connections0, failures0, 0) && requests == replay && count == subscriptions
      requires limiter.Valid(env.clock) && |limiter.grants| == sends
      modifies this`trace, this`callbackFailed, this`sends, env, books, limiter
      ensures env.Later() && Finished(out, connections, failures, env)
      ensures left <= fuel && (out == Some(Running) ==> left == 0)
      ensures limiter.Valid(env.clock) && |limiter.grants| == sends
    {
      connections, failures, left := connections0, failures0, fuel;
      var waitErr, sendErr := Replay(env, limiter, connections, failures, requests);
      ghost var now := env.clock;
      if waitErr {
        // A wait for one grant fails only once the context is cancelled, so the runner's
        // other way out, returning the limiter's own error, is never taken.
        assert env.cancelled;
        Log(Event.Cancelled);
        var result := Shutdown(env, connections);
        out := Some(result);
      } else if sendErr.Some? {
        failures := failures + 1;
        out := Retry(env, connections, count, ResubscribeError, sendErr.value, failures);
      } else {
        connections := connections + 1;
        out, failures, left := Serve(env, connections, count, failures, left);
      }
      limiter.ValidLater(1, now, env.clock);
    }

    // One turn of the reconnect loop.
    method Attempt(env: Env, limiter: ReplayLimiter, connections0: nat, failures0: nat, fuel: nat)
      returns (out: Option<Result>, connections: nat, failures: nat, left: nat)
      requires Resting(connections0, failures0) && Listed()
      requires limiter.Valid(env.clock) && |limiter.grants| == sends
      modifies this`trace, this`callbackFailed, this`unusable, this`sends, env, books, limiter
      ensures env.Later() && Finished(out, connections, failures, env)
      ensures left <= fuel && (out == Some(Running) ==> left == 0)
      ensures out != Some(Error) ==> unusable == old(unusable)
      ensures limiter.Valid(env.clock) && |limiter.grants| == sends
    {
      connections, failures, left := connections0, failures0, fuel;
      ghost var now := env.clock;
      var cancelled := ContextDone(env);
      if cancelled {
        var result := Shutdown(env, connections);
        limiter.ValidLater(1, now, env.clock);
        return Some(result), connections, failures, left;
      }
      limiter.ValidLater(1, now, env.clock);
      var requests: seq<int>, count: nat := [], 0;
      if registry != null {
        requests, count := registry.ReplaySnapshot();
      }
      out, connections, failures, left := Open(env, limiter, connections, requests, count, failures, left);
    }

    method Open(env: Env, limiter: ReplayLimiter, connections0: nat, requests: seq<int>, count: nat, failures0: nat,
                fuel: nat)
      returns (out: Option<Result>, connections: nat, failures: nat, left: nat)
      requires Resting(connections0, failures0) && requests == replay && count == subscriptions
      requires limiter.Valid(env.clock) && |limiter.grants| == sends
      modifies this`trace, this`callbackFailed, this`unusable, this`sends, env, books, limiter
      ensures env.Later() && Finished(out, connections, failures, env)
      ensures left <= fuel && (out == Some(Running) ==> left == 0)
      ensures out != Some(Error) ==> unusable == old(unusable)
      ensures limiter.Valid(env.clock) && |limiter.grants| == sends
    {
      connections, failures, left := connections0, failures0, fuel;
      var opening := Dial();
      match opening {
        case OpenFailed(err) =>
          failures := failures + 1;
          ghost var before := env.clock;
          out := Retry(env, connections, 0, ConnectError, err, failures);
          limiter.ValidLater(1, before, env.clock);
        case Session(canReceive, canSend) =>
          if !canReceive || (|requests| > 0 && !canSend) {
            unusable := true;
            out := Some(Error);
          } else {
            out, connections, failures, left := Connect(env, limiter, connections, requests, count, failures, left);
          }
      }
    }

    // The reconnect loop.
    method Loop(env: Env, limiter: ReplayLimiter, fuel: nat) returns (result: Result, left: nat)
      requires Resting(0, 0) && Listed() && !unusable && limiter.Valid(env.clock) && |limiter.grants| == sends
      modifies this, env, books, limiter
      ensures env.Later() && limiter.Valid(env.clock) && |limiter.grants| == sends
      ensures exists connections: nat, failures: nat :: Finished(Some(result), connections, failures, env)
      ensures unusable ==> result.Error?
      ensures left <= fuel && (result.Running? ==> left == 0)
    {
      var connections: nat, failures: nat := 0, 0;
      left := fuel;
      while left > 0
        invariant left <= fuel
        invariant Resting(connections, failures) && env.Later() && Listed() && !unusable
        invariant limiter.Valid(env.clock) && |limiter.grants| == sends
      {
        left := left - 1;
        var out;
        out, connections, failures, left := Attempt(env, limiter, connections, failures, left);
        if out.Some? {
          assert Finished(Some(out.value), connections, failures, env);
          return out.value, left;
        }
      }
      result := Running;
      assert Finished(Some(result), connections, failures, env);
    }

    // A whole run: whatever the broker, the clock, the context and the callbacks do, the
    // trace is accepted, every replayed request had a grant of its own, no window holds
    // more grants than the limit, and the run ends with nil exactly when its trace ends
    // with the Final event and no callback has failed. Without a failed callback or an
    // unusable session it ends with an error exactly when the last event is a loss that no
    // new connection cures, and no such loss comes before.
    method Run(env: Env, fuel: nat) returns (result: Result, limiter: ReplayLimiter, left: nat)
      requires trace == [] && !callbackFailed && !unusable && sends == 0 && Listed()
      modifies this, env, books
      ensures Accepted(Config(books != null, if books == null then [] else books.uids,
                              if maxReconcileBuffer <= 0 then 10_000 else maxReconcileBuffer,
                              if watchdog <= 0 then 30_000_000_000 else watchdog, replay, subscriptions), trace)
      ensures env.Later() && fresh(limiter) && |limiter.grants| == sends
      ensures limiter.limit == if replayLimit <= 0 then 100 else replayLimit
      ensures limiter.window == if replayWindow <= 0 then 60_000_000_000 else replayWindow
      ensures forall t: int :: |InWindow(limiter.grants, t, limiter.window)| <= limiter.limit
      ensures !result.Running? && !callbackFailed ==> (result.Nil? <==> EndsFinal(trace))
      ensures !callbackFailed && !unusable && hasOpen ==> (result.Error? <==> EndsFatally(trace))
      ensures !result.Error? ==> !EndsFatally(trace)
      ensures !hasOpen ==> result.Error? && trace == []
      ensures callbackFailed || unusable ==> result.Error?
      ensures result.Running? ==> !EndsFinal(trace) && left == 0
      ensures result.Nil? ==> Excused(env)
    {
      limiter := new ReplayLimiter(replayLimit, replayWindow, env.clock);
      result, left := Error, fuel;
      if hasOpen {
        result, left := Loop(env, limiter, fuel);
      }
      EndedIffFinal(Cfg(), trace);
      FatalIff(Cfg(), trace);
      forall t: int ensures |InWindow(limiter.grants, t, limiter.window)| <= limiter.limit {
        limiter.NeverOver(env.clock, t);
      }
    }
  }

  lemma LiveStep(before: seq<Frame>, after: seq<Frame>, m: Marks)
    requires after != []
    ensures var n: nat := |after| - 1;
            && MarksAfter(after, m) == Seen(after[n], MarksAfter(after[..n], m))
            && Expected(before, after, m) ==
               Expected(before, after[..n], m) + If(Passes(after[n], MarksAfter(after[..n], m)), after[n])
  {
    var n := |after| - 1;
    Assoc(FilterBuffered(before, m), FilterLive(after[..n], m),
          If(Passes(after[n], MarksAfter(after[..n], m)), after[n]));
  }

  // One more buffered frame: what has been delivered stays a prefix of what will be.
  lemma {:induction false} BufferedPrefix(frames: seq<Frame>, i: nat, m: Marks)
    requires i <= |frames|
    ensures FilterBuffered(frames[..i], m) <= FilterBuffered(frames, m)
  {
    if i < |frames| {
      BufferedPrefix(frames[..|frames|-1], i, m);
      assert frames[..|frames|-1][..i] == frames[..i];
    } else {
      assert frames[..i] == frames;
    }
  }

  lemma BufferedStep(frames: seq<Frame>, i: nat, m: Marks)
    requires i < |frames|
    ensures FilterBuffered(frames[..i+1], m) == FilterBuffered(frames[..i], m) + If(Passes(frames[i], m), frames[i])
    ensures FilterBuffered(frames[..i+1], m) <= FilterBuffered(frames, m)
  {
    assert frames[..i+1][..i] == frames[..i];
    BufferedPrefix(frames, i + 1, m);
  }
}
