/** One method group's token bucket: reservations that may go negative, refunds on
    rejection and on cancellation. Times are seconds as reals. */
module TokenBuckets {
  import opened IndexSets
  import opened Wrappers

  datatype Level = Level(rate: real, capacity: real, tokens: real, last: real) {
    predicate Valid() { rate > 0.0 && capacity >= 1.0 && tokens <= capacity }
  }

  function Min(a: real, b: real): real { if a < b then a else b }

  // The tokens that flow in over some time.
  function Flow(elapsed: real, rate: real): real { elapsed * rate }

  function Refilled(b: Level, now: real): Level {
    if now < b.last then b
    else b.(tokens := Min(b.capacity, b.tokens + Flow(now - b.last, b.rate)), last := now)
  }

  function Refunded(b: Level): Level {
    b.(tokens := Min(b.capacity, b.tokens + 1.0))
  }

  function Taken(b: Level): Level {
    b.(tokens := b.tokens - 1.0)
  }

  // How long a caller that just took a token must wait for the debt to be refilled.
  function Debt(b: Level): real
    requires b.rate > 0.0
  {
    if b.tokens < 0.0 then -b.tokens / b.rate else 0.0
  }

  // Rejected carries the wait the error reports; Granted the time the call is released.
  datatype Outcome = Rejected(wait: real) | Granted(release: real)

  predicate TooLong(now: real, wait: real, maxWait: real, deadline: Option<real>) {
    wait > maxWait || (deadline.Some? && now + wait > deadline.value)
  }

  function Reserve(b: Level, now: real, maxWait: real, deadline: Option<real>): (Level, Outcome)
    requires b.rate > 0.0
  {
    var t := Taken(Refilled(b, now));
    var wait := Debt(t);
    if TooLong(now, wait, maxWait, deadline) then (Refunded(t), Rejected(wait)) else (t, Granted(now + wait))
  }

  // ---- what a reservation comes to ----

  // The tokens there would be without a cap.
  function Uncapped(b: Level, now: real): real {
    b.tokens + (if now > b.last then (now - b.last) * b.rate else 0.0)
  }

  // A whole token in time lets the call go at once; otherwise it goes at the very instant
  // the inflow completes one.
  predicate FirstToken(x: real, rate: real, wait: real) {
    if x >= 1.0 then wait == 0.0 else wait > 0.0 && x + wait * rate == 1.0
  }

  // That instant lies beyond the longest wait or beyond the deadline.
  predicate OutOfReach(x: real, rate: real, now: real, maxWait: real, deadline: Option<real>) {
    if x >= 1.0 then maxWait < 0.0 || (deadline.Some? && deadline.value < now)
    else x + maxWait * rate < 1.0 || (deadline.Some? && x + (deadline.value - now) * rate < 1.0)
  }

  predicate ReservesOne(b: Level, now: real, maxWait: real, deadline: Option<real>, after: Level, out: Outcome) {
    var x := Uncapped(b, now);
    && after.rate == b.rate && after.capacity == b.capacity && after.last == (if now > b.last then now else b.last)
    && after.tokens == (if x > b.capacity then b.capacity else x) - (if out.Granted? then 1.0 else 0.0)
    && (out.Rejected? <==> OutOfReach(x, b.rate, now, maxWait, deadline))
    && FirstToken(x, b.rate, if out.Granted? then out.release - now else out.wait)
  }

  lemma MulOrder(a: real, b: real, r: real)
    requires r > 0.0
    ensures a < b <==> a * r < b * r
  {
    if a < b {
      assert (b - a) * r > 0.0;
    } else {
      assert (a - b) * r >= 0.0;
    }
  }

  lemma DebtMeans(b: Level)
    requires b.rate > 0.0
    ensures FirstToken(b.tokens + 1.0, b.rate, Debt(b))
  {
    if b.tokens < 0.0 {
      DivMul(-b.tokens, b.rate);
      MulOrder(0.0, Debt(b), b.rate);
    }
  }

  lemma Beyond(x: real, rate: real, wait: real, longest: real)
    requires rate > 0.0 && x < 1.0 && FirstToken(x, rate, wait)
    ensures wait > longest <==> x + longest * rate < 1.0
  {
    MulOrder(longest, wait, rate);
  }

  lemma TooLongMeans(b: Level, now: real, maxWait: real, deadline: Option<real>)
    requires b.rate > 0.0
    ensures TooLong(now, Debt(b), maxWait, deadline) <==> OutOfReach(b.tokens + 1.0, b.rate, now, maxWait, deadline)
  {
    DebtMeans(b);
    if b.tokens < 0.0 {
      Beyond(b.tokens + 1.0, b.rate, Debt(b), maxWait);
      if deadline.Some? {
        Beyond(b.tokens + 1.0, b.rate, Debt(b), deadline.value - now);
      }
    }
  }

  lemma RefilledMeans(b: Level, now: real)
    requires b.Valid()
    ensures var x := Uncapped(b, now);
            Refilled(b, now) == Level(b.rate, b.capacity, if x > b.capacity then b.capacity else x,
                                      if now > b.last then now else b.last)
  {
    assert Flow(now - b.last, b.rate) == (now - b.last) * b.rate;
    if now == b.last {
      assert Flow(0.0, b.rate) == 0.0;
    }
  }

  // A call takes a token exactly when one is within reach, and is released as soon as it is.
  lemma ReservedExactly(b: Level, now: real, maxWait: real, deadline: Option<real>)
    requires b.Valid()
    ensures ReservesOne(b, now, maxWait, deadline, Reserve(b, now, maxWait, deadline).0,
                        Reserve(b, now, maxWait, deadline).1)
  {
    RefilledMeans(b, now);
    var t := Taken(Refilled(b, now));
    DebtMeans(t);
    TooLongMeans(t, now, maxWait, deadline);
    Capped(Uncapped(b, now), b.capacity, b.rate, now, maxWait, deadline);
  }

  // The cap is at least one token, so that it never makes a call wait.
  lemma Capped(x: real, capacity: real, rate: real, now: real, maxWait: real, deadline: Option<real>)
    requires capacity >= 1.0 && rate > 0.0
    ensures var y := if x > capacity then capacity else x;
            && (OutOfReach(x, rate, now, maxWait, deadline) <==> OutOfReach(y, rate, now, maxWait, deadline))
            && forall wait :: FirstToken(x, rate, wait) <==> FirstToken(y, rate, wait)
  {}

  class Bucket {
    const rate: real
    const capacity: real
    var tokens: real
    var last: real

    ghost function State(): Level
      reads this
    {
      Level(rate, capacity, tokens, last)
    }

    ghost predicate Full(now: real)
      reads this
    {
      tokens == capacity && last == now
    }

    // A fresh bucket is full.
    constructor (rate: real, burst: int, now: real)
      requires rate > 0.0 && burst >= 1
      ensures State() == Level(rate, burst as real, burst as real, now) && State().Valid()
    {
      this.rate, this.capacity := rate, burst as real;
      tokens, last := burst as real, now;
    }

    method Refill(now: real)
      modifies this
      ensures State() == Refilled(old(State()), now)
    {
      if now < last {
        return;
      }
      tokens := Min(capacity, tokens + Flow(now - last, rate));
      last := now;
    }

    // The locked half of a wait: take a token, and give it back when the wait would be
    // too long.
    method Wait(now: real, maxWait: real, deadline: Option<real>) returns (out: Outcome)
      requires State().Valid()
      modifies this
      ensures State().Valid()
      ensures (State(), out) == Reserve(old(State()), now, maxWait, deadline)
      ensures ReservesOne(old(State()), now, maxWait, deadline, State(), out)
      ensures out.Rejected? ==> State() == Refilled(old(State()), now)
    {
      ReservedExactly(State(), now, maxWait, deadline);
      Refill(now);
      ghost var refilled := State();
      tokens := tokens - 1.0;
      var wait := 0.0;
      if tokens < 0.0 {
        wait := -tokens / rate;
      }
      if wait > maxWait || (deadline.Some? && now + wait > deadline.value) {
        tokens := Min(capacity, tokens + 1.0);
        return Rejected(wait);
      }
      out := Granted(now + wait);
    }

    // A waiter cancelled before its release gives its token back.
    method Cancel(now: real)
      requires State().Valid()
      modifies this
      ensures State() == Refunded(Refilled(old(State()), now)) && State().Valid()
      ensures var x := Uncapped(old(State()), now);
              && tokens == (if x + 1.0 > capacity then capacity else x + 1.0)
              && last == if now > old(last) then now else old(last)
    {
      Refill(now);
      tokens := Min(capacity, tokens + 1.0);
    }
  }

  // A rejected call changes the bucket only by refill.
  lemma RejectionOnlyRefills(b: Level, now: real, maxWait: real, deadline: Option<real>)
    requires b.Valid() && Reserve(b, now, maxWait, deadline).1.Rejected?
    ensures Reserve(b, now, maxWait, deadline).0 == Refilled(b, now)
  {}

  // ---- runs without cancellation ----

  datatype Call = Call(now: real, maxWait: real, deadline: Option<real>)

  // The bucket after a sequence of calls, and the releases they were granted, in order.
  function Served(b: Level, calls: seq<Call>): (Level, seq<real>)
    requires b.rate > 0.0
    ensures Served(b, calls).0.rate == b.rate && Served(b, calls).0.capacity == b.capacity
  {
    if calls == [] then (b, [])
    else
      var (mid, releases) := Served(b, calls[..|calls|-1]);
      var c := calls[|calls|-1];
      var (after, out) := Reserve(mid, c.now, c.maxWait, c.deadline);
      (after, if out.Granted? then releases + [out.release] else releases)
  }

  // The clock the calls read never runs back, nor behind the bucket's creation.
  ghost predicate Monotone(b: Level, calls: seq<Call>) {
    && (forall i :: 0 <= i < |calls| ==> b.last <= calls[i].now)
    && (forall i, j :: 0 <= i < j < |calls| ==> calls[i].now <= calls[j].now)
  }

  // The time at which the debt so far is refilled; behind `last` while tokens are left.
  function Due(b: Level): real
    requires b.rate > 0.0
  {
    b.last - b.tokens / b.rate
  }

  lemma DivMul(a: real, r: real)
    requires r > 0.0
    ensures a / r * r == a
  {}

  lemma DivLe(a: real, b: real, r: real)
    requires r > 0.0 && a <= b
    ensures a / r <= b / r
  {}

  // Refilling never moves the due time back, and keeps it within one burst of now.
  lemma RefillDue(b: Level, now: real)
    requires b.Valid() && b.last <= now
    ensures Refilled(b, now).Valid() && Refilled(b, now).last == now
    ensures Due(Refilled(b, now)) >= Due(b) && Due(Refilled(b, now)) >= now - b.capacity / b.rate
  {
    var r := Refilled(b, now);
    DivLe(r.tokens, b.tokens + Flow(now - b.last, b.rate), b.rate);
    assert (b.tokens + Flow(now - b.last, b.rate)) / b.rate == b.tokens / b.rate + (now - b.last);
    DivLe(r.tokens, b.capacity, b.rate);
  }

  // Taking a token moves the due time by exactly one token's worth.
  lemma TakeDue(b: Level)
    requires b.rate > 0.0
    ensures Due(Taken(b)) == Due(b) + 1.0 / b.rate
    ensures Due(Taken(b)) == Taken(b).last + (-Taken(b).tokens / b.rate)
  {}

  // What a grant says about the due times around it.
  lemma GrantDue(b: Level, c: Call)
    requires b.Valid() && b.last <= c.now
    ensures var (after, out) := Reserve(b, c.now, c.maxWait, c.deadline);
            && after.Valid() && after.last == c.now && Due(after) >= Due(b)
            && (out.Granted? ==>
                  && Due(after) >= Due(b) + 1.0 / b.rate
                  && out.release >= Due(after) && out.release >= c.now
                  && (out.release == Due(after) || out.release == c.now)
                  && Due(after) >= out.release - (b.capacity - 1.0) / b.rate)
  {
    var r := Refilled(b, c.now);
    RefillDue(b, c.now);
    TakeDue(r);
    var t := Taken(r);
    var (after, out) := Reserve(b, c.now, c.maxWait, c.deadline);
    if out.Granted? {
      assert after == t;
      if t.tokens >= 0.0 {
        DivLe(0.0, t.tokens, t.rate);
        DivLe(t.tokens, b.capacity - 1.0, b.rate);
      } else {
        DivLe(0.0, b.capacity - 1.0, b.rate);
      }
    } else {
      RejectionOnlyRefills(b, c.now, c.maxWait, c.deadline);
    }
  }

  // n tokens' worth of time.
  function Span(n: int, rate: real): real
    requires rate > 0.0
  {
    (n as real) / rate
  }

  lemma SpanSum(m: int, n: int, rate: real)
    requires rate > 0.0
    ensures Span(m + n, rate) == Span(m, rate) + Span(n, rate) && Span(1, rate) == 1.0 / rate
  {
    assert (m + n) as real == m as real + n as real;
  }

  // Two releases are at least as far apart as the tokens between them take to refill,
  // less one burst.
  ghost predicate Spaced(b: Level, releases: seq<real>)
    requires b.rate > 0.0
  {
    forall i, j :: 0 <= i <= j < |releases| ==>
      releases[j] >= releases[i] - (b.capacity - 1.0) / b.rate + Span(j - i, b.rate)
  }

  ghost predicate Behind(b: Level, lvl: Level, releases: seq<real>)
    requires b.rate > 0.0 && lvl.rate > 0.0
  {
    forall i :: 0 <= i < |releases| ==>
      Due(lvl) >= releases[i] - (b.capacity - 1.0) / b.rate + Span(|releases| - 1 - i, b.rate)
  }

  lemma {:induction false} ServedSpaced(b: Level, calls: seq<Call>)
    requires b.Valid() && Monotone(b, calls)
    ensures var (lvl, releases) := Served(b, calls);
            && lvl.Valid() && lvl.rate == b.rate && lvl.capacity == b.capacity
            && lvl.last == (if calls == [] then b.last else calls[|calls|-1].now)
            && Behind(b, lvl, releases) && Spaced(b, releases)
  {
    if calls != [] {
      var n := |calls| - 1;
      ServedSpaced(b, calls[..n]);
      var (mid, before) := Served(b, calls[..n]);
      var c := calls[n];
      assert mid.last <= c.now;
      GrantDue(mid, c);
      var (after, out) := Reserve(mid, c.now, c.maxWait, c.deadline);
      if out.Granted? {
        GrantSpaced(b, mid, after, before, out.release);
      } else {
        forall i | 0 <= i < |before|
          ensures Due(after) >= before[i] - (b.capacity - 1.0) / b.rate + Span(|before| - 1 - i, b.rate) {}
      }
    }
  }

  lemma GrantSpaced(b: Level, mid: Level, after: Level, before: seq<real>, release: real)
    requires b.Valid() && mid.rate == after.rate == b.rate && mid.capacity == b.capacity
    requires Behind(b, mid, before) && Spaced(b, before)
    requires Due(after) >= Due(mid) + 1.0 / b.rate && release >= Due(after)
    requires Due(after) >= release - (b.capacity - 1.0) / b.rate
    ensures Behind(b, after, before + [release]) && Spaced(b, before + [release])
  {
    var releases := before + [release];
    var m := |before|;
    SpanSum(0, 0, b.rate);
    forall i | 0 <= i <= m ensures Due(after) >= releases[i] - (b.capacity - 1.0) / b.rate + Span(m - i, b.rate) {
      if i < m {
        assert releases[i] == before[i];
        SpanSum(m - 1 - i, 1, b.rate);
      }
    }
    DivLe(0.0, b.capacity - 1.0, b.rate);
    forall i, j | 0 <= i <= j <= m
      ensures releases[j] >= releases[i] - (b.capacity - 1.0) / b.rate + Span(j - i, b.rate)
    {
      if j < m {
        assert releases[i] == before[i] && releases[j] == before[j];
      }
    }
  }

  ghost function Within(releases: seq<real>, from: real, length: real): set<nat> {
    set k: nat | k < |releases| && from <= releases[k] <= from + length
  }

  lemma SpanBound(n: int, rate: real, slack: real, length: real)
    requires rate > 0.0 && Span(n, rate) <= length + slack / rate
    ensures n as real <= rate * length + slack
  {
    assert Span(n, rate) * rate == n as real;
    assert (length + slack / rate) * rate == length * rate + slack;
  }

  lemma CapacityCovers(capacity: real, rate: real, length: real)
    requires capacity >= 0.0 && rate > 0.0 && length >= 0.0
    ensures capacity + rate * length >= 0.0
  {
    assert rate * length >= 0.0;
  }

  // The releases between two of them, both included, are within the bound.
  lemma PairBound(b: Level, releases: seq<real>, lo: nat, hi: nat, from: real, length: real)
    requires b.rate > 0.0 && Spaced(b, releases) && lo <= hi < |releases|
    requires from <= releases[lo] && releases[hi] <= from + length
    ensures (hi - lo + 1) as real <= b.capacity + b.rate * length
  {
    assert releases[hi] >= releases[lo] - (b.capacity - 1.0) / b.rate + Span(hi - lo, b.rate);
    SpanBound(hi - lo, b.rate, b.capacity - 1.0, length);
    assert (hi - lo + 1) as real == (hi - lo) as real + 1.0;
  }

  // Without cancellation, however the calls arrive and whichever are rejected, the
  // releases scheduled in any interval number at most one burst plus what the rate
  // refills over its length.
  lemma ReleasesBounded(b: Level, calls: seq<Call>, from: real, length: real)
    requires b.Valid() && Monotone(b, calls) && length >= 0.0
    ensures |Within(Served(b, calls).1, from, length)| as real <= b.capacity + b.rate * length
  {
    ServedSpaced(b, calls);
    SpacedBounded(b, Served(b, calls).1, from, length);
  }

  lemma SpacedBounded(b: Level, releases: seq<real>, from: real, length: real)
    requires b.Valid() && Spaced(b, releases) && length >= 0.0
    ensures |Within(releases, from, length)| as real <= b.capacity + b.rate * length
  {
    var s := Within(releases, from, length);
    if s == {} {
      CapacityCovers(b.capacity, b.rate, length);
    } else {
      var lo, hi := Ends(s, |releases|);
      RangeSize(s, lo, hi);
      PairBound(b, releases, lo, hi, from, length);
    }
  }

  // ---- runs with cancellation ----

  // A call that was let in: when it is released, whether it has to wait until then, and
  // whether it was cancelled while waiting.
  datatype Grant = Grant(release: real, waits: bool, cancelled: bool)

  datatype Op = Ask(call: Call) | GiveUp(waiter: nat, now: real)

  datatype Log = Log(level: Level, grants: seq<Grant>)

  function TimeOf(op: Op): real {
    match op case Ask(c) => c.now case GiveUp(_, now) => now
  }

  function Live(grants: seq<Grant>): nat {
    if grants == [] then 0 else Live(grants[..|grants|-1]) + (if grants[|grants|-1].cancelled then 0 else 1)
  }

  function Cancelled(grants: seq<Grant>, w: nat): seq<Grant>
    requires w < |grants|
  {
    grants[w := grants[w].(cancelled := true)]
  }

  // A call that waits may give up once, at any moment; a cancelled one is never released.
  ghost predicate Step(s: Log, s': Log, op: Op)
    requires s.level.rate > 0.0
  {
    match op
    case Ask(c) =>
      var (after, out) := Reserve(s.level, c.now, c.maxWait, c.deadline);
      s' == Log(after, if out.Granted? then s.grants + [Grant(out.release, out.release > c.now, false)] else s.grants)
    case GiveUp(w, now) =>
      && w < |s.grants| && s.grants[w].waits && !s.grants[w].cancelled
      && s' == Log(Refunded(Refilled(s.level, now)), Cancelled(s.grants, w))
  }

  // What the bucket may have let out by time t: its first burst plus the refill since.
  function Allowance(start: Level, t: real): real {
    start.capacity + start.rate * (t - start.last)
  }

  lemma AllowanceGrows(start: Level, t: real, u: real)
    requires start.rate > 0.0
    ensures Allowance(start, u) == Allowance(start, t) + Flow(u - t, start.rate)
    ensures t <= u ==> Allowance(start, t) <= Allowance(start, u)
  {
    if t <= u {
      assert (u - t) * start.rate >= 0.0;
    }
  }

  // Tokens are conserved: what is left never exceeds the allowance less the calls still
  // let in, and at the release of each of them the allowance covers it and all before it.
  ghost predicate Conserved(s: Log, start: Level) {
    && s.level.Valid() && s.level.rate == start.rate && s.level.capacity == start.capacity
    && s.level.tokens <= Allowance(start, s.level.last) - Live(s.grants) as real
    && AllCovered(s.grants, start)
  }

  ghost predicate AllCovered(grants: seq<Grant>, start: Level) {
    forall i: nat :: i < |grants| ==> Covered(grants, start, i)
  }

  ghost predicate Covered(grants: seq<Grant>, start: Level, i: nat)
    requires i < |grants|
  {
    Live(grants[..i+1]) as real <= Allowance(start, grants[i].release)
  }

  lemma {:induction false} LiveCancel(grants: seq<Grant>, w: nat)
    requires w < |grants| && !grants[w].cancelled
    ensures Live(Cancelled(grants, w)) == Live(grants) - 1
  {
    var after := Cancelled(grants, w);
    var n := |grants| - 1;
    if w == n {
      assert after[..n] == grants[..n];
    } else {
      LiveCancel(grants[..n], w);
      assert after[..n] == Cancelled(grants[..n], w);
    }
  }

  // A refill adds no more than the allowance grows by.
  lemma RefillWithin(b: Level, now: real, start: Level, live: real)
    requires b.Valid() && b.rate == start.rate && b.last <= now
    requires b.tokens <= Allowance(start, b.last) - live
    ensures Refilled(b, now).tokens <= Allowance(start, now) - live
    ensures Refilled(b, now).Valid() && Refilled(b, now).last == now
  {
    AllowanceGrows(start, b.last, now);
  }

  lemma CoveredSnoc(grants: seq<Grant>, g: Grant, start: Level)
    requires AllCovered(grants, start) && !g.cancelled
    requires Live(grants) as real + 1.0 <= Allowance(start, g.release)
    ensures AllCovered(grants + [g], start) && Live(grants + [g]) == Live(grants) + 1
  {
    var after := grants + [g];
    var n := |grants|;
    assert after[..n] == grants && after[..n+1] == after;
    forall i: nat | i <= n ensures Covered(after, start, i) {
      if i < n {
        assert Covered(grants, start, i);
        assert after[..i+1] == grants[..i+1];
      }
    }
  }

  lemma CoveredCancel(grants: seq<Grant>, w: nat, start: Level)
    requires AllCovered(grants, start) && w < |grants| && !grants[w].cancelled
    ensures AllCovered(Cancelled(grants, w), start)
  {
    var after := Cancelled(grants, w);
    forall i: nat | i < |after| ensures Covered(after, start, i) {
      assert Covered(grants, start, i);
      if w <= i {
        LiveCancel(grants[..i+1], w);
        assert after[..i+1] == Cancelled(grants[..i+1], w);
      } else {
        assert after[..i+1] == grants[..i+1];
      }
    }
  }

  lemma AskKeeps(s: Log, s': Log, c: Call, start: Level)
    requires start.rate > 0.0 && Conserved(s, start) && s.level.last <= c.now && Step(s, s', Ask(c))
    ensures Conserved(s', start)
  {
    RejectedOrTaken(s.level, c);
    RefillWithin(s.level, c.now, start, Live(s.grants) as real);
    var (after, out) := Reserve(s.level, c.now, c.maxWait, c.deadline);
    if out.Granted? {
      ReleaseCovers(after, c.now, start, Live(s.grants) as real + 1.0);
      CoveredSnoc(s.grants, Grant(out.release, out.release > c.now, false), start);
    }
  }

  lemma RejectedOrTaken(b: Level, c: Call)
    requires b.Valid() && b.last <= c.now
    ensures var (after, out) := Reserve(b, c.now, c.maxWait, c.deadline);
            && after.Valid() && after.last == c.now && after.rate == b.rate && after.capacity == b.capacity
            && after == (if out.Granted? then Taken(Refilled(b, c.now)) else Refilled(b, c.now))
            && (out.Granted? ==> out.release == c.now + Debt(after))
  {}

  // The refill until the release makes up for the debt.
  lemma ReleaseCovers(after: Level, now: real, start: Level, live: real)
    requires after.rate == start.rate > 0.0 && after.tokens <= Allowance(start, now) - live
    ensures live <= Allowance(start, now + Debt(after))
  {
    AllowanceGrows(start, now, now + Debt(after));
    if after.tokens < 0.0 {
      DivMul(-after.tokens, after.rate);
    }
  }

  lemma GiveUpKeeps(s: Log, s': Log, w: nat, now: real, start: Level)
    requires start.rate > 0.0 && Conserved(s, start) && s.level.last <= now && Step(s, s', GiveUp(w, now))
    ensures Conserved(s', start)
  {
    LiveCancel(s.grants, w);
    RefillWithin(s.level, now, start, Live(s.grants) as real);
    CoveredCancel(s.grants, w, start);
  }

  lemma StepConserves(s: Log, s': Log, op: Op, start: Level)
    requires start.rate > 0.0 && Conserved(s, start) && Step(s, s', op) && s.level.last <= TimeOf(op)
    requires s.level.rate > 0.0
    ensures Conserved(s', start)
  {
    match op {
      case Ask(c) => AskKeeps(s, s', c, start);
      case GiveUp(w, now) => GiveUpKeeps(s, s', w, now, start);
    }
  }

  lemma StartConserves(start: Level)
    requires start.Valid() && start.tokens == start.capacity && start.rate > 0.0
    ensures Conserved(Log(start, []), start)
  {
    AllowsCapacity(start, start.last);
  }

  lemma AllowsCapacity(start: Level, t: real)
    requires start.rate > 0.0 && t >= start.last
    ensures start.capacity <= Allowance(start, t)
  {
    OnlyRefills(start.capacity, start.rate, t - start.last, Allowance(start, t));
  }

  lemma OnlyRefills(capacity: real, rate: real, time: real, allowance: real)
    requires rate > 0.0 && time >= 0.0 && allowance == capacity + rate * time
    ensures capacity <= allowance
  {
    assert rate * time >= 0.0;
  }

  ghost predicate IsRun(run: seq<Log>, ops: seq<Op>, start: Level) {
    && |run| == |ops| + 1 && run[0] == Log(start, []) && start.Valid() && start.tokens == start.capacity
    && (forall k :: 0 <= k < |run| ==> run[k].level.rate > 0.0)
    && forall k :: 0 <= k < |ops| ==> Step(run[k], run[k + 1], ops[k]) && run[k].level.last <= TimeOf(ops[k])
  }

  lemma {:induction false} RunConserves(run: seq<Log>, ops: seq<Op>, start: Level, n: nat)
    requires IsRun(run, ops, start) && n < |run|
    ensures Conserved(run[n], start)
  {
    if n == 0 {
      StartConserves(start);
    } else {
      RunConserves(run, ops, start, n - 1);
      var k := n - 1;
      assert Step(run[k], run[k + 1], ops[k]) && run[k].level.last <= TimeOf(ops[k]);
      StepConserves(run[k], run[n], ops[k], start);
    }
  }

  // The calls released by time t: let in, not cancelled, and due.
  ghost function ReleasedBy(grants: seq<Grant>, t: real): set<nat> {
    set k: nat | k < |grants| && !grants[k].cancelled && grants[k].release <= t
  }

  lemma {:induction false} ReleasedAreLive(grants: seq<Grant>, s: set<nat>)
    requires Between(s, 0, |grants| - 1) && forall k: nat :: k in s ==> !grants[k].cancelled
    ensures |s| <= Live(grants)
  {
    if s != {} {
      var k: nat :| k in s;
      var n: nat := |grants| - 1;
      var rest := s - {n};
      assert forall k: nat :: k in rest ==> grants[..n][k] == grants[k];
      ReleasedAreLive(grants[..n], rest);
      if n in s {
        assert s == rest + {n};
      } else {
        assert s == rest;
      }
    }
  }

  // With any mix of rejections, waits, cancellations and refunds, the releases from the
  // bucket's creation to any time number at most one burst plus the refill until then.
  lemma ReleasesByTimeBounded(run: seq<Log>, ops: seq<Op>, start: Level, n: nat, t: real)
    requires IsRun(run, ops, start) && n < |run| && t >= start.last
    ensures |ReleasedBy(run[n].grants, t)| as real <= Allowance(start, t)
  {
    RunConserves(run, ops, start, n);
    var grants := run[n].grants;
    var s := ReleasedBy(grants, t);
    if s == {} {
      CapacityCovers(start.capacity, start.rate, t - start.last);
    } else {
      var lo, hi := Ends(s, |grants|);
      assert forall k: nat :: k in s ==> grants[..hi+1][k] == grants[k];
      ReleasedAreLive(grants[..hi+1], s);
      assert Covered(grants, start, hi);
      AllowanceGrows(start, grants[hi].release, t);
      assert |s| as real <= Live(grants[..hi+1]) as real <= Allowance(start, t);
    }
  }
}
