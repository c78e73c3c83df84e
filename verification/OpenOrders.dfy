/** The open-order cap: count, check and send under one account lock, across processes
    and across the two order books that share the cap. */
module OpenOrders {
  import opened Wrappers

  datatype Policy = Policy(maxOpenOrders: int)

  datatype Violation = Violation(limit: int, actual: int)

  // No policy and a non-positive cap both mean no cap.
  function CheckOpenOrders(p: Option<Policy>, open: nat): (v: Option<Violation>)
    ensures v.Some? <==> p.Some? && 0 < p.value.maxOpenOrders <= open
    ensures v.Some? ==> v.value.limit == p.value.maxOpenOrders && v.value.actual == open
  {
    if p.None? || p.value.maxOpenOrders <= 0 then None
    else if open >= p.value.maxOpenOrders then Some(Violation(p.value.maxOpenOrders, open))
    else None
  }

  datatype Book = Regular | Stop

  // How many orders each book has.
  datatype Counts = Counts(regular: nat, stop: nat) {
    function Of(b: Book): nat {
      match b case Regular => regular case Stop => stop
    }

    function Plus(b: Book): Counts {
      match b case Regular => this.(regular := regular + 1) case Stop => this.(stop := stop + 1)
    }

    function Minus(b: Book): Counts
      requires Of(b) > 0
    {
      match b case Regular => this.(regular := regular - 1) case Stop => this.(stop := stop - 1)
    }
  }

  datatype Pc = Waiting | Locked | Listed(open: nat) | Cleared | Sent | Decided | Gone

  datatype Proc = Proc(book: Book, pc: Pc)

  // late marks requests whose sender released the lock before the broker decided.
  datatype State = State(policy: Policy, lock: Option<int>, procs: map<int, Proc>,
                         active: Counts, late: Counts)

  predicate Init(s: State) {
    && s.policy.maxOpenOrders > 0 && s.lock == None && s.late == Counts(0, 0)
    && forall p :: p in s.procs ==> s.procs[p].pc.Waiting?
  }

  predicate Holds(s: State, p: int) {
    s.lock == Some(p) && p in s.procs
  }

  function Move(s: State, p: int, pc: Pc): State
    requires p in s.procs
  {
    s.(procs := s.procs[p := s.procs[p].(pc := pc)])
  }

  ghost predicate Acquire(s: State, s': State, p: int) {
    && p in s.procs && s.procs[p].pc.Waiting? && s.lock == None
    && s' == Move(s, p, Locked).(lock := Some(p))
  }

  ghost predicate List(s: State, s': State, p: int) {
    && Holds(s, p) && s.procs[p].pc.Locked?
    && s' == Move(s, p, Listed(s.active.Of(s.procs[p].book)))
  }

  ghost predicate Check(s: State, s': State, p: int) {
    && Holds(s, p) && s.procs[p].pc.Listed?
    && CheckOpenOrders(Some(s.policy), s.procs[p].pc.open) == None
    && s' == Move(s, p, Cleared)
  }

  ghost predicate Send(s: State, s': State, p: int) {
    Holds(s, p) && s.procs[p].pc.Cleared? && s' == Move(s, p, Sent)
  }

  ghost predicate Decide(s: State, s': State, p: int, accepted: bool) {
    && Holds(s, p) && s.procs[p].pc.Sent?
    && s' == Move(s, p, Decided).(active := if accepted then s.active.Plus(s.procs[p].book) else s.active)
  }

  // Normal release, a policy refusal, an error before the send, or a crash; the
  // request, if any, has been decided.
  ghost predicate Release(s: State, s': State, p: int) {
    && Holds(s, p) && !s.procs[p].pc.Sent?
    && s' == Move(s, p, Gone).(lock := None)
  }

  // An active order fills, expires or is cancelled.
  ghost predicate Leave(s: State, s': State, b: Book) {
    s.active.Of(b) > 0 && s' == s.(active := s.active.Minus(b))
  }

  ghost predicate Next(s: State, s': State) {
    || (exists p :: Acquire(s, s', p))
    || (exists p :: List(s, s', p))
    || (exists p :: Check(s, s', p))
    || (exists p :: Send(s, s', p))
    || (exists p, accepted :: Decide(s, s', p, accepted))
    || (exists p :: Release(s, s', p))
    || (exists b :: Leave(s, s', b))
  }

  // The sender gives up the lock although its request is undecided, as an asynchronous or
  // unconfirmed one may be when its process goes on or dies.
  ghost predicate ReleaseUndecided(s: State, s': State, p: int) {
    && Holds(s, p) && s.procs[p].pc.Sent?
    && s' == Move(s, p, Gone).(lock := None, late := s.late.Plus(s.procs[p].book))
  }

  ghost predicate AcceptLate(s: State, s': State, b: Book) {
    s.late.Of(b) > 0 && s' == s.(late := s.late.Minus(b), active := s.active.Plus(b))
  }

  ghost predicate NextLate(s: State, s': State) {
    Next(s, s') || (exists p :: ReleaseUndecided(s, s', p)) || (exists b :: AcceptLate(s, s', b))
  }

  // ---- how far undecided releases can go beyond the cap ----

  // The step lets an undecided request of this book go.
  ghost predicate LetsGo(s: State, s': State, b: Book) {
    exists p :: ReleaseUndecided(s, s', p) && s.procs[p].book == b
  }

  ghost function LetGo(s: State, s': State, b: Book): nat {
    if LetsGo(s, s', b) then 1 else 0
  }

  // How many undecided requests of each book were let go in the first k steps.
  ghost function Undecided(run: seq<State>, b: Book, k: nat): nat
    requires k < |run|
  {
    if k == 0 then 0 else Undecided(run, b, k - 1) + LetGo(run[k-1], run[k], b)
  }

  function Max(a: int, b: int): int {
    if a < b then b else a
  }

  // Only the lock holder is past the lock. With u undecided requests let go so far, a book
  // holds and awaits at most what it started with, or u more than the cap.
  ghost predicate Inv(s: State, start: Counts, u: Counts) {
    && s.policy.maxOpenOrders > 0
    && (forall b: Book :: s.late.Of(b) <= u.Of(b))
    && (forall b: Book :: s.active.Of(b) + s.late.Of(b) <= Max(start.Of(b), s.policy.maxOpenOrders + u.Of(b)))
    && (forall p :: p in s.procs && !s.procs[p].pc.Waiting? && !s.procs[p].pc.Gone? ==> s.lock == Some(p))
    && (forall p :: p in s.procs ==> Roomy(s, s.procs[p], u))
  }

  ghost predicate Roomy(s: State, proc: Proc, u: Counts) {
    && (proc.pc.Listed? ==> s.active.Of(proc.book) + s.late.Of(proc.book) <= proc.pc.open + u.Of(proc.book))
    && (proc.pc.Cleared? || proc.pc.Sent? ==>
          s.active.Of(proc.book) + s.late.Of(proc.book) < s.policy.maxOpenOrders + u.Of(proc.book))
  }

  lemma AcquireKeeps(s: State, s': State, p: int, start: Counts, u: Counts)
    requires Inv(s, start, u) && Acquire(s, s', p)
    ensures Inv(s', start, u)
  {}

  lemma ListKeeps(s: State, s': State, p: int, start: Counts, u: Counts)
    requires Inv(s, start, u) && List(s, s', p)
    ensures Inv(s', start, u)
  {}

  lemma CheckKeeps(s: State, s': State, p: int, start: Counts, u: Counts)
    requires Inv(s, start, u) && Check(s, s', p)
    ensures Inv(s', start, u)
  {}

  lemma SendKeeps(s: State, s': State, p: int, start: Counts, u: Counts)
    requires Inv(s, start, u) && Send(s, s', p)
    ensures Inv(s', start, u)
  {}

  lemma DecideKeeps(s: State, s': State, p: int, accepted: bool, start: Counts, u: Counts)
    requires Inv(s, start, u) && Decide(s, s', p, accepted)
    ensures Inv(s', start, u)
  {}

  lemma ReleaseKeeps(s: State, s': State, p: int, start: Counts, u: Counts)
    requires Inv(s, start, u) && Release(s, s', p)
    ensures Inv(s', start, u)
  {}

  lemma LeaveKeeps(s: State, s': State, b: Book, start: Counts, u: Counts)
    requires Inv(s, start, u) && Leave(s, s', b)
    ensures Inv(s', start, u)
  {}

  lemma AcceptLateKeeps(s: State, s': State, b: Book, start: Counts, u: Counts)
    requires Inv(s, start, u) && AcceptLate(s, s', b)
    ensures Inv(s', start, u)
  {
    forall c: Book
      ensures s'.active.Of(c) + s'.late.Of(c) == s.active.Of(c) + s.late.Of(c) && s'.late.Of(c) <= s.late.Of(c) {}
    forall p | p in s'.procs ensures Roomy(s', s'.procs[p], u) {
      assert Roomy(s, s.procs[p], u);
    }
  }

  lemma ReleaseUndecidedKeeps(s: State, s': State, p: int, start: Counts, u: Counts)
    requires Inv(s, start, u) && ReleaseUndecided(s, s', p)
    ensures Inv(s', start, u.Plus(s.procs[p].book))
  {
    assert Roomy(s, s.procs[p], u);
    forall q | q in s'.procs ensures Roomy(s', s'.procs[q], u.Plus(s.procs[p].book)) {
      assert q != p ==> Roomy(s, s.procs[q], u);
    }
    var v := u.Plus(s.procs[p].book);
    forall c: Book ensures s'.late.Of(c) <= v.Of(c) {
      assert s.late.Of(c) <= u.Of(c);
    }
  }

  lemma NextKeeps(s: State, s': State, start: Counts, u: Counts)
    requires Inv(s, start, u) && Next(s, s')
    ensures Inv(s', start, u) && s'.policy == s.policy && s'.late == s.late
  {
    if
    case exists p :: Acquire(s, s', p) =>
      var p :| Acquire(s, s', p);
      AcquireKeeps(s, s', p, start, u);
    case exists p :: List(s, s', p) =>
      var p :| List(s, s', p);
      ListKeeps(s, s', p, start, u);
    case exists p :: Check(s, s', p) =>
      var p :| Check(s, s', p);
      CheckKeeps(s, s', p, start, u);
    case exists p :: Send(s, s', p) =>
      var p :| Send(s, s', p);
      SendKeeps(s, s', p, start, u);
    case exists p, accepted :: Decide(s, s', p, accepted) =>
      var p, accepted :| Decide(s, s', p, accepted);
      DecideKeeps(s, s', p, accepted, start, u);
    case exists p :: Release(s, s', p) =>
      var p :| Release(s, s', p);
      ReleaseKeeps(s, s', p, start, u);
    case exists b :: Leave(s, s', b) =>
      var b :| Leave(s, s', b);
      LeaveKeeps(s, s', b, start, u);
  }

  // The requests let go after one more step.
  ghost function Tally(s: State, s': State, u: Counts): Counts {
    Counts(u.regular + LetGo(s, s', Regular), u.stop + LetGo(s, s', Stop))
  }

  lemma LateCounts(s: State, s': State, b: Book)
    ensures LetsGo(s, s', b) ==> s'.late == s.late.Plus(b)
    ensures s'.late.Of(b) <= s.late.Of(b) ==> !LetsGo(s, s', b)
  {}

  lemma MoreAllowed(s: State, start: Counts, u: Counts, v: Counts)
    requires Inv(s, start, u) && forall b: Book :: u.Of(b) <= v.Of(b)
    ensures Inv(s, start, v)
  {}

  lemma StepKeeps(s: State, s': State, start: Counts, u: Counts)
    requires Inv(s, start, u) && NextLate(s, s')
    ensures Inv(s', start, Tally(s, s', u)) && s'.policy == s.policy
  {
    var v := Tally(s, s', u);
    if
    case Next(s, s') =>
      NextKeeps(s, s', start, u);
      MoreAllowed(s', start, u, v);
    case exists p :: ReleaseUndecided(s, s', p) =>
      var p :| ReleaseUndecided(s, s', p);
      ReleaseUndecidedKeeps(s, s', p, start, u);
      assert LetsGo(s, s', s.procs[p].book);
      MoreAllowed(s', start, u.Plus(s.procs[p].book), v);
    case exists b :: AcceptLate(s, s', b) =>
      var b :| AcceptLate(s, s', b);
      AcceptLateKeeps(s, s', b, start, u);
      MoreAllowed(s', start, u, v);
  }

  ghost predicate IsLateRun(run: seq<State>) {
    run != [] && Init(run[0]) && forall k :: 0 < k < |run| ==> LateAt(run, k)
  }

  ghost predicate LateAt(run: seq<State>, k: int)
    requires 0 < k < |run|
  {
    NextLate(run[k-1], run[k])
  }

  ghost function Tallied(run: seq<State>, k: nat): (u: Counts)
    requires k < |run|
    ensures forall b: Book :: u.Of(b) == Undecided(run, b, k)
  {
    Counts(Undecided(run, Regular, k), Undecided(run, Stop, k))
  }

  lemma {:induction false} LateRunKeeps(run: seq<State>, k: nat)
    requires IsLateRun(run) && k < |run|
    ensures Inv(run[k], run[0].active, Tallied(run, k)) && run[k].policy == run[0].policy
  {
    if k > 0 {
      LateRunKeeps(run, k - 1);
      assert LateAt(run, k);
      StepKeeps(run[k - 1], run[k], run[0].active, Tallied(run, k - 1));
      assert Tallied(run, k) == Tally(run[k - 1], run[k], Tallied(run, k - 1));
    }
  }

  // In every run a book holds and awaits at most what it started with, or the cap and one
  // more for each of its requests that was let go undecided.
  lemma LateBound(run: seq<State>, k: nat, b: Book)
    requires IsLateRun(run) && k < |run|
    ensures run[k].active.Of(b) + run[k].late.Of(b) <=
              Max(run[0].active.Of(b), run[0].policy.maxOpenOrders + Undecided(run, b, k))
  {
    LateRunKeeps(run, k);
    WithinBound(run[k], run[0].active, Tallied(run, k), b);
  }

  lemma WithinBound(s: State, start: Counts, u: Counts, b: Book)
    requires Inv(s, start, u)
    ensures s.active.Of(b) + s.late.Of(b) <= Max(start.Of(b), s.policy.maxOpenOrders + u.Of(b))
  {}

  ghost predicate IsRun(run: seq<State>) {
    run != [] && Init(run[0]) && forall k :: 0 < k < |run| ==> NextAt(run, k)
  }

  ghost predicate NextAt(run: seq<State>, k: int)
    requires 0 < k < |run|
  {
    Next(run[k-1], run[k])
  }

  // In every run in which each request is decided before its sender releases the lock,
  // no book ever holds more active orders than the cap, or than it started with.
  lemma {:induction false} CapHolds(run: seq<State>, k: nat)
    requires IsRun(run) && k < |run|
    ensures run[k].policy == run[0].policy && Inv(run[k], run[0].active, Counts(0, 0))
    ensures forall b: Book :: run[k].active.Of(b) <= Max(run[0].active.Of(b), run[0].policy.maxOpenOrders)
  {
    if k > 0 {
      CapHolds(run, k - 1);
      assert NextAt(run, k);
      NextKeeps(run[k - 1], run[k], run[0].active, Counts(0, 0));
    }
  }

  // ---- the bound is attained ----

  // A run from s to t that lets at most n undecided requests of the book go.
  ghost predicate Gets(s: State, t: State, b: Book, n: nat) {
    exists run: seq<State> :: Leads(run, s, t, b, n)
  }

  ghost predicate Leads(run: seq<State>, s: State, t: State, b: Book, n: nat) {
    IsLateRun(run) && run[0] == s && run[|run|-1] == t && Undecided(run, b, |run| - 1) <= n
  }

  lemma {:induction false} UndecidedPrefix(run: seq<State>, t: State, b: Book, k: nat)
    requires k < |run|
    ensures Undecided(run + [t], b, k) == Undecided(run, b, k)
  {
    if k > 0 {
      UndecidedPrefix(run, t, b, k - 1);
    }
  }

  lemma OneMore(s: State, t: State, t': State, b: Book, n: nat)
    requires Gets(s, t, b, n) && NextLate(t, t')
    ensures Gets(s, t', b, n + LetGo(t, t', b))
  {
    var run: seq<State> :| Leads(run, s, t, b, n);
    var longer := run + [t'];
    forall k | 0 < k < |longer| ensures LateAt(longer, k) {
      if k < |run| {
        assert LateAt(run, k) && longer[k-1] == run[k-1] && longer[k] == run[k];
      }
    }
    UndecidedPrefix(run, t', b, |run| - 1);
    assert Leads(longer, s, t', b, n + LetGo(t, t', b));
  }

  // The processes from p on wait for the free lock, to place orders of one book.
  ghost predicate Ready(s: State, b: Book, p: nat, end: nat) {
    && s.policy.maxOpenOrders > 0 && s.lock == None
    && forall q :: p <= q < end ==> q in s.procs && s.procs[q] == Proc(b, Waiting)
  }

  // A step under the lock, or of an order that leaves, lets nothing go.
  lemma OneMoreQuiet(s: State, t: State, t': State, b: Book, n: nat)
    requires Gets(s, t, b, n) && Next(t, t')
    ensures Gets(s, t', b, n)
  {
    assert t'.late == t.late;
    LateCounts(t, t', b);
    OneMore(s, t, t', b, n);
  }

  lemma Lists(s0: State, s: State, b: Book, p: nat, n: nat) returns (listed: State)
    requires Gets(s0, s, b, n) && Ready(s, b, p, p + 1)
    ensures Gets(s0, listed, b, n) && listed == Move(s, p, Listed(s.active.Of(b))).(lock := Some(p))
  {
    var locked := Move(s, p, Locked).(lock := Some(p));
    listed := Move(locked, p, Listed(s.active.Of(b)));
    assert Acquire(s, locked, p);
    OneMoreQuiet(s0, s, locked, b, n);
    assert List(locked, listed, p);
    OneMoreQuiet(s0, locked, listed, b, n);
    assert listed.procs == Move(s, p, Listed(s.active.Of(b))).procs;
  }

  // A process that finds room sends its request.
  lemma Sends(s0: State, s: State, b: Book, p: nat, n: nat) returns (sent: State)
    requires Gets(s0, s, b, n) && Ready(s, b, p, p + 1) && s.active.Of(b) < s.policy.maxOpenOrders
    ensures Gets(s0, sent, b, n) && sent == Move(s, p, Sent).(lock := Some(p))
  {
    var listed := Lists(s0, s, b, p, n);
    var cleared := Move(listed, p, Cleared);
    sent := Move(cleared, p, Sent);
    assert Check(listed, cleared, p);
    OneMoreQuiet(s0, listed, cleared, b, n);
    assert Send(cleared, sent, p);
    OneMoreQuiet(s0, cleared, sent, b, n);
    assert sent.procs == Move(s, p, Sent).procs;
  }

  lemma Settles(s0: State, sent: State, b: Book, p: nat, n: nat) returns (t: State)
    requires Gets(s0, sent, b, n) && Holds(sent, p) && sent.procs[p] == Proc(b, Sent)
    ensures Gets(s0, t, b, n) && t == Move(sent, p, Gone).(lock := None, active := sent.active.Plus(b))
  {
    var decided := Move(sent, p, Decided).(active := sent.active.Plus(b));
    t := Move(decided, p, Gone).(lock := None);
    assert Decide(sent, decided, p, true);
    OneMoreQuiet(s0, sent, decided, b, n);
    assert Release(decided, t, p);
    OneMoreQuiet(s0, decided, t, b, n);
    assert t.procs == Move(sent, p, Gone).procs;
  }

  lemma PlacesOne(s0: State, s: State, b: Book, p: nat, n: nat) returns (t: State)
    requires Gets(s0, s, b, n) && Ready(s, b, p, p + 1) && s.active.Of(b) < s.policy.maxOpenOrders
    ensures Gets(s0, t, b, n) && t == Move(s, p, Gone).(active := s.active.Plus(b))
  {
    var sent := Sends(s0, s, b, p, n);
    t := Settles(s0, sent, b, p, n);
    assert t.procs == Move(s, p, Gone).procs;
  }

  lemma LetsOneGo(s0: State, s: State, b: Book, p: nat, n: nat) returns (t: State)
    requires Gets(s0, s, b, n) && Ready(s, b, p, p + 1) && s.active.Of(b) < s.policy.maxOpenOrders
    ensures Gets(s0, t, b, n + 1) && t == Move(s, p, Gone).(late := s.late.Plus(b))
  {
    var sent := Sends(s0, s, b, p, n);
    t := Move(sent, p, Gone).(lock := None, late := sent.late.Plus(b));
    assert ReleaseUndecided(sent, t, p);
    OneMore(s0, sent, t, b, n);
    assert LetsGo(sent, t, b);
    assert t.procs == Move(s, p, Gone).procs;
  }

  // k placements in turn, each decided before the next one starts.
  lemma {:induction false} Fill(s0: State, s: State, b: Book, p: nat, end: nat, n: nat, k: nat) returns (t: State)
    requires Gets(s0, s, b, n) && Ready(s, b, p, end) && p + k <= end && s.active.Of(b) + k <= s.policy.maxOpenOrders
    ensures Gets(s0, t, b, n) && Ready(t, b, p + k, end) && t.policy == s.policy
    ensures t.active.Of(b) == s.active.Of(b) + k && t.late == s.late
    decreases k
  {
    t := s;
    if k > 0 {
      var one := PlacesOne(s0, s, b, p, n);
      t := Fill(s0, one, b, p + 1, end, n, k - 1);
    }
  }

  // k placements in turn, none of which is decided yet.
  lemma {:induction false} LetGoInTurn(s0: State, s: State, b: Book, p: nat, end: nat, n: nat, k: nat)
    returns (t: State)
    requires Gets(s0, s, b, n) && Ready(s, b, p, end) && p + k <= end && s.active.Of(b) < s.policy.maxOpenOrders
    ensures Gets(s0, t, b, n + k) && Ready(t, b, p + k, end) && t.policy == s.policy
    ensures t.active == s.active && t.late.Of(b) == s.late.Of(b) + k
    decreases k
  {
    t := s;
    if k > 0 {
      var one := LetsOneGo(s0, s, b, p, n);
      t := LetGoInTurn(s0, one, b, p + 1, end, n + 1, k - 1);
    }
  }

  lemma {:induction false} AcceptAll(s0: State, s: State, b: Book, n: nat) returns (t: State)
    requires Gets(s0, s, b, n)
    ensures Gets(s0, t, b, n) && t.active.Of(b) == s.active.Of(b) + s.late.Of(b)
    decreases s.late.Of(b)
  {
    t := s;
    if s.late.Of(b) > 0 {
      var one := s.(late := s.late.Minus(b), active := s.active.Plus(b));
      assert AcceptLate(s, one, b);
      LateCounts(s, one, b);
      OneMore(s0, s, one, b, n);
      t := AcceptAll(s0, one, b, n);
    }
  }

  // Orders leave until fewer than the cap are active.
  lemma {:induction false} MakeRoom(s0: State, s: State, b: Book, n: nat) returns (t: State)
    requires Gets(s0, s, b, n) && s.policy.maxOpenOrders > 0
    ensures Gets(s0, t, b, n) && t.active.Of(b) < t.policy.maxOpenOrders
    ensures t == s.(active := t.active)
    decreases s.active.Of(b)
  {
    t := s;
    if s.active.Of(b) >= s.policy.maxOpenOrders {
      var one := s.(active := s.active.Minus(b));
      assert Leave(s, one, b);
      OneMoreQuiet(s0, s, one, b, n);
      t := MakeRoom(s0, one, b, n);
    }
  }

  function AllWaiting(b: Book, end: nat): (procs: map<int, Proc>)
    ensures forall p :: p in procs <==> 0 <= p < end
    ensures forall p :: p in procs ==> procs[p] == Proc(b, Waiting)
  {
    if end == 0 then map[] else AllWaiting(b, end - 1)[end - 1 := Proc(b, Waiting)]
  }

  // n requests are let go while one place is left, the place is taken, and then all n are
  // accepted.
  lemma Exceeds(cap: nat, start: Counts, b: Book, n: nat) returns (s: State, t: State)
    requires cap > 0
    ensures s.policy == Policy(cap) && s.active == start
    ensures Gets(s, t, b, n) && t.active.Of(b) == cap + n
  {
    var end := cap + n;
    s := State(Policy(cap), None, AllWaiting(b, end), start, Counts(0, 0));
    assert Leads([s], s, s, b, 0);
    var roomy := MakeRoom(s, s, b, 0);
    var k := cap - 1 - roomy.active.Of(b);
    var tight := Fill(s, roomy, b, 0, end, 0, k);
    var loose := LetGoInTurn(s, tight, b, k, end, 0, n);
    var full := Fill(s, loose, b, k + n, end, n, 1);
    t := AcceptAll(s, full, b, n);
  }

  // Runs under a cap and from given counts that let at most n undecided requests of the
  // book go.
  ghost predicate LettingGo(run: seq<State>, cap: int, start: Counts, b: Book, n: nat) {
    && IsLateRun(run) && run[0].policy == Policy(cap) && run[0].active == start
    && Undecided(run, b, |run| - 1) <= n
  }

  // What a book may come to hold when up to n of its requests are let go undecided is the
  // larger of its start and n above the cap: that bound holds in all such runs, and no
  // smaller one does. So the cap itself is kept in all of them exactly when n is zero.
  lemma LateBoundIff(cap: int, start: Counts, b: Book, n: nat, bound: int)
    requires cap > 0
    ensures (forall run: seq<State> :: LettingGo(run, cap, start, b, n) ==> run[|run|-1].active.Of(b) <= bound) <==>
            Max(start.Of(b), cap + n) <= bound
    ensures start.Of(b) <= cap ==>
              ((forall run: seq<State> :: LettingGo(run, cap, start, b, n) ==> run[|run|-1].active.Of(b) <= cap) <==>
               n == 0)
  {
    forall run: seq<State> | LettingGo(run, cap, start, b, n)
      ensures run[|run|-1].active.Of(b) <= Max(start.Of(b), cap + n) {
      LateBound(run, |run| - 1, b);
    }
    var s, t := Exceeds(cap, start, b, n);
    var run: seq<State> :| Leads(run, s, t, b, n);
    assert LettingGo(run, cap, start, b, n);
    assert LettingGo([s], cap, start, b, n);
  }
}
