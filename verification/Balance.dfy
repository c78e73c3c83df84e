/** Withdraw limits summed per currency, exactly. */
module Balance {
  import opened Wrappers
  import opened Decimal

  datatype Money = Money(currency: string, units: int, nano: int) {
    function Value(): int { units * BILLION + nano }

    // Nano arrives as an int32 and need not be below one unit.
    predicate Wire() { InInt64(units) && -0x8000_0000 <= nano <= 0x7fff_ffff }

    predicate Proper() { Quotation(units, nano).Proper() }
  }

  // ---- Go's integer arithmetic ----

  // Division and remainder that truncate toward zero.
  function Quo(n: int, d: int): int
    requires d > 0
  {
    if n >= 0 then n / d else -((-n) / d)
  }

  function Rem(n: int, d: int): int
    requires d > 0
  {
    n - Quo(n, d) * d
  }

  const TWO64 := 0x1_0000_0000_0000_0000

  // One turn of the units, in billionths.
  const TURN := TWO64 * BILLION

  // Two's-complement wrap-around to 64 bits.
  function Wrap64(n: int): (r: int)
    ensures InInt64(r) && (r - n) % TWO64 == 0
    ensures r == n <==> InInt64(n)
  {
    var m := n % TWO64;
    if m > MAX_INT64 then m - TWO64 else m
  }

  // Wrapping after each of two additions is wrapping once.
  lemma WrapTwice(a: int, b: int)
    ensures Wrap64(Wrap64(a) + b) == Wrap64(a + b)
  {}

  // The units of a sum once the nanos have carried over, before any wrap-around.
  function Carried(left: Money, right: Money): int {
    left.units + right.units + Quo(left.nano + right.nano, BILLION)
  }

  // Units and nano brought to one sign.
  function Normal(currency: string, units: int, nano: int): Money {
    if units > 0 && nano < 0 then Money(currency, units - 1, nano + BILLION)
    else if units < 0 && nano > 0 then Money(currency, units + 1, nano - BILLION)
    else Money(currency, units, nano)
  }

  function Added(left: Money, right: Money): Money {
    Normal(right.currency, Wrap64(Carried(left, right)), Rem(left.nano + right.nano, BILLION))
  }

  lemma RemBound(n: int)
    ensures -BILLION < Rem(n, BILLION) < BILLION && n == Quo(n, BILLION) * BILLION + Rem(n, BILLION)
  {}

  // The sum always comes out in proper form, and is off by whole turns of the units.
  lemma AddedValue(left: Money, right: Money)
    ensures Added(left, right).Proper()
    ensures Added(left, right).Value()
              == left.Value() + right.Value() + (Wrap64(Carried(left, right)) - Carried(left, right)) * BILLION
  {
    RemBound(left.nano + right.nano);
  }

  lemma AddedExactly(left: Money, right: Money)
    ensures Added(left, right).Value() == left.Value() + right.Value() <==> InInt64(Carried(left, right))
  {
    AddedValue(left, right);
  }

  // The sum is exact when, and only when, the carried units fit int64: neither an
  // intermediate wrap that is undone nor the final step to one sign matters.
  method AddMoney(left: Option<Money>, right: Money) returns (sum: Money)
    requires right.Wire() && (left.Some? ==> left.value.Wire())
    ensures sum == Added(Or(left, right.currency), right)
    ensures sum.currency == right.currency && sum.Proper()
    ensures sum.Value() == Or(left, right.currency).Value() + right.Value() <==>
              InInt64(Carried(Or(left, right.currency), right))
  {
    var l := if left.None? then Money(right.currency, 0, 0) else left.value;
    var units, nano := AddParts(l, right);
    sum := ToOneSign(right.currency, units, nano);
    AddedParts(l, right);
    AddedExactly(l, right);
  }

  // int64 additions wrap; whole units carry over from the nanos.
  method AddParts(left: Money, right: Money) returns (units: int, nano: int)
    ensures units == Wrap64(Carried(left, right)) && nano == Rem(left.nano + right.nano, BILLION)
  {
    units := Wrap64(left.units + right.units);
    nano := left.nano + right.nano;
    units := Wrap64(units + Quo(nano, BILLION));
    nano := Rem(nano, BILLION);
    CarriedWraps(left, right);
  }

  lemma AddedParts(left: Money, right: Money)
    ensures InInt64(Wrap64(Carried(left, right))) && Added(left, right).Proper()
    ensures Added(left, right).currency == right.currency
    ensures Added(left, right) ==
            Normal(right.currency, Wrap64(Carried(left, right)), Rem(left.nano + right.nano, BILLION))
  {
    AddedValue(left, right);
  }

  lemma CarriedWraps(left: Money, right: Money)
    ensures Wrap64(Wrap64(left.units + right.units) + Quo(left.nano + right.nano, BILLION)) ==
            Wrap64(Carried(left, right))
  {
    WrapTwice(left.units + right.units, Quo(left.nano + right.nano, BILLION));
  }

  method ToOneSign(currency: string, units0: int, nano0: int) returns (sum: Money)
    ensures sum == Normal(currency, units0, nano0)
  {
    var units, nano := units0, nano0;
    if units > 0 && nano < 0 {
      units := units - 1;
      nano := nano + BILLION;
    } else if units < 0 && nano > 0 {
      units := units + 1;
      nano := nano - BILLION;
    }
    sum := Money(currency, units, nano);
  }

  // An absent amount counts as zero.
  function Or(m: Option<Money>, currency: string): Money {
    if m.Some? then m.value else Money(currency, 0, 0)
  }

  // ---- the exact totals ----

  function Total(values: seq<Money>, c: string): int {
    if values == [] then 0
    else Total(values[..|values|-1], c) + (var v := values[|values|-1]; if v.currency == c then v.Value() else 0)
  }

  // A bound on every partial sum, whatever the order of the entries.
  function Weight(values: seq<Money>, c: string): nat {
    if values == [] then 0
    else Weight(values[..|values|-1], c) +
         (var v := values[|values|-1]; if v.currency == c then Abs(v.units) * BILLION + Abs(v.nano) else 0)
  }

  predicate Modest(values: seq<Money>) {
    forall i :: 0 <= i < |values| ==> Weight(values, values[i].currency) <= MAX_INT64 * BILLION
  }

  predicate Mentions(values: seq<Money>, c: string) {
    exists i :: 0 <= i < |values| && values[i].currency == c
  }

  lemma {:induction false} TotalWithinWeight(values: seq<Money>, c: string)
    ensures Abs(Total(values, c)) <= Weight(values, c)
  {
    if values != [] {
      TotalWithinWeight(values[..|values|-1], c);
      var v := values[|values|-1];
      assert Abs(v.Value()) <= Abs(v.units) * BILLION + Abs(v.nano);
    }
  }

  // What adding up the entries of one currency leaves, wraps included: nothing before the
  // first entry.
  function Running(values: seq<Money>, c: string): Option<Money> {
    if values == [] then None
    else
      var n := |values| - 1;
      var before := Running(values[..n], c);
      if values[n].currency == c then Some(Added(Or(before, c), values[n])) else before
  }

  // How many turns of the units the running sum is off.
  function Turns(values: seq<Money>, c: string): int {
    if values == [] then 0
    else
      var n := |values| - 1;
      var step := Carried(Or(Running(values[..n], c), c), values[n]);
      Turns(values[..n], c) + if values[n].currency == c then (Wrap64(step) - step) / TWO64 else 0
  }

  lemma {:induction false} RunningValue(values: seq<Money>, c: string)
    ensures Running(values, c).Some? <==> Mentions(values, c)
    ensures Running(values, c).Some? ==> Running(values, c).value.currency == c && Running(values, c).value.Proper()
    ensures Or(Running(values, c), c).Value() == Total(values, c) + Turns(values, c) * TWO64 * BILLION
  {
    if values != [] {
      var n := |values| - 1;
      RunningValue(values[..n], c);
      assert values == values[..n] + [values[n]];
      MentionsSnoc(values[..n], values[n]);
      if values[n].currency == c {
        AddedValue(Or(Running(values[..n], c), c), values[n]);
      }
    }
  }

  // A total of this size has one proper form, and no other is a whole number of turns away.
  predicate Fits(total: int) {
    MIN_INT64 * BILLION <= total <= MAX_INT64 * BILLION
  }

  // The running sum is exact as soon as the total fits, whatever wrapped on the way.
  lemma FittingTotalIsExact(values: seq<Money>, c: string)
    requires Fits(Total(values, c))
    ensures Or(Running(values, c), c).Value() == Total(values, c)
    ensures Or(Running(values, c), c).Proper()
  {
    RunningValue(values, c);
    var turns := Turns(values, c);
    assert turns >= 1 ==> turns * TWO64 * BILLION >= TWO64 * BILLION;
    assert turns <= -1 ==> turns * TWO64 * BILLION <= -TWO64 * BILLION;
  }

  // The proper form of an exact total.
  function Exactly(total: int, c: string): Money {
    Money(c, Quo(total, BILLION), Rem(total, BILLION))
  }

  // Every entry of the currency fits on top of the exact total before it.
  ghost predicate PrefixesFit(values: seq<Money>, c: string) {
    forall i :: 0 <= i < |values| && values[i].currency == c ==> StepFits(values, c, i)
  }

  predicate StepFits(values: seq<Money>, c: string, i: nat)
    requires i < |values|
  {
    InInt64(Carried(Exactly(Total(values[..i], c), c), values[i]))
  }

  ghost predicate ExactAllAlong(values: seq<Money>, c: string) {
    forall n :: 0 <= n <= |values| ==> ExactAt(values, c, n)
  }

  ghost predicate ExactAt(values: seq<Money>, c: string, n: nat)
    requires n <= |values|
  {
    Or(Running(values[..n], c), c).Value() == Total(values[..n], c)
  }

  // A proper amount is the proper form of its value.
  lemma ExactlyProper(m: Money)
    requires m.Proper()
    ensures Exactly(m.Value(), m.currency) == m
  {
    RemBound(m.Value());
    var e := Exactly(m.Value(), m.currency);
    assert (e.units - m.units) * BILLION == m.nano - e.nano;
  }

  lemma StepExact(values: seq<Money>, c: string, i: nat)
    requires i < |values| && values[i].currency == c && ExactAt(values, c, i)
    ensures ExactAt(values, c, i + 1) <==> StepFits(values, c, i)
  {
    var before := Or(Running(values[..i], c), c);
    RunningValue(values[..i], c);
    ExactlyProper(before);
    assert values[..i+1][..i] == values[..i];
    AddedValue(before, values[i]);
  }

  // Every intermediate sum is exact when, and only when, every entry fits on top of the
  // exact total before it.
  lemma ExactAllAlongIff(values: seq<Money>, c: string)
    ensures ExactAllAlong(values, c) <==> PrefixesFit(values, c)
  {
    if PrefixesFit(values, c) {
      forall n | 0 <= n <= |values| ensures ExactAt(values, c, n) {
        FittingPrefixExact(values, c, n);
      }
    }
    if ExactAllAlong(values, c) {
      forall i | 0 <= i < |values| && values[i].currency == c ensures StepFits(values, c, i) {
        assert ExactAt(values, c, i) && ExactAt(values, c, i + 1);
        StepExact(values, c, i);
      }
    }
  }

  lemma {:induction false} FittingPrefixExact(values: seq<Money>, c: string, n: nat)
    requires PrefixesFit(values, c) && n <= |values|
    ensures ExactAt(values, c, n)
  {
    if n > 0 {
      var i := n - 1;
      FittingPrefixExact(values, c, i);
      assert values[..n][..i] == values[..i];
      if values[i].currency == c {
        assert StepFits(values, c, i);
        StepExact(values, c, i);
      }
    }
  }

  // ---- withdraw limits and their summary ----

  datatype Category = Available | Blocked | Guarantee

  // One value per category.
  datatype Triple<T> = Triple(available: T, blocked: T, guarantee: T) {
    function Of(c: Category): T {
      match c
      case Available => available
      case Blocked => blocked
      case Guarantee => guarantee
    }

    function With(c: Category, v: T): (r: Triple<T>)
      ensures r.Of(c) == v && forall d: Category :: d != c ==> r.Of(d) == Of(d)
    {
      match c
      case Available => this.(available := v)
      case Blocked => this.(blocked := v)
      case Guarantee => this.(guarantee := v)
    }
  }

  type Limits = Triple<seq<Money>>
  type Summary = Triple<Option<Money>>

  ghost predicate MentionedIn(limits: Limits, c: string) {
    exists k: Category :: Mentions(limits.Of(k), c)
  }

  // What is kept for one currency and category is the running sum of its entries.
  ghost predicate Tracks(sums: map<string, Summary>, limits: Limits) {
    && (forall c :: c in sums <==> MentionedIn(limits, c))
    && (forall c, k: Category :: c in sums ==> sums[c].Of(k) == Running(limits.Of(k), c))
  }

  predicate AllWire(values: seq<Money>) {
    forall i :: 0 <= i < |values| ==> values[i].Wire()
  }

  // Adds every entry of one category, creating a currency's summary at its first entry.
  method Add(start: map<string, Summary>, ghost before: Limits, k: Category, values: seq<Money>)
    returns (sums: map<string, Summary>)
    requires Tracks(start, before) && before.Of(k) == [] && AllWire(values)
    ensures Tracks(sums, before.With(k, values))
  {
    sums := start;
    for i := 0 to |values|
      invariant Tracks(sums, before.With(k, values[..i]))
    {
      assert values[..i+1] == values[..i] + [values[i]];
      sums := AddOne(sums, before, k, values[..i], values[i]);
    }
    assert values[..|values|] == values;
  }

  method AddOne(start: map<string, Summary>, ghost before: Limits, k: Category, ghost seen: seq<Money>, v: Money)
    returns (sums: map<string, Summary>)
    requires Tracks(start, before.With(k, seen)) && v.Wire()
    ensures Tracks(sums, before.With(k, seen + [v]))
  {
    var c := v.currency;
    var summary := if c in start then start[c] else Triple(None, None, None);
    SeenRunning(start, before.With(k, seen), c);
    RunningWire(seen, c);
    var sum := AddMoney(summary.Of(k), v);
    RunningSnoc(seen, v);
    sums := start[c := summary.With(k, Some(sum))];
    Tracked(sums, before, k, seen, v, summary);
  }

  lemma RunningWire(values: seq<Money>, c: string)
    ensures Running(values, c).Some? ==> Running(values, c).value.Wire() && Running(values, c).value.currency == c
  {
    RunningValue(values, c);
  }

  lemma RunningSnoc(seen: seq<Money>, v: Money)
    ensures Running(seen + [v], v.currency) == Some(Added(Or(Running(seen, v.currency), v.currency), v))
  {
    assert (seen + [v])[..|seen|] == seen;
  }

  lemma SeenRunning(sums: map<string, Summary>, limits: Limits, c: string)
    requires Tracks(sums, limits)
    ensures var summary := if c in sums then sums[c] else Triple(None, None, None);
            forall k: Category :: summary.Of(k) == Running(limits.Of(k), c)
  {
    if c !in sums {
      forall k: Category ensures Running(limits.Of(k), c).None? {
        assert !MentionedIn(limits, c);
        RunningValue(limits.Of(k), c);
      }
    }
  }

  lemma Tracked(sums: map<string, Summary>, before: Limits, k: Category, seen: seq<Money>, v: Money, was: Summary)
    requires v.currency in sums && sums[v.currency] == was.With(k, Running(seen + [v], v.currency))
    requires forall d: Category :: was.Of(d) == Running(before.With(k, seen).Of(d), v.currency)
    requires forall c :: c != v.currency ==> (c in sums <==> MentionedIn(before.With(k, seen), c))
    requires forall c, d: Category :: c != v.currency && c in sums ==>
               sums[c].Of(d) == Running(before.With(k, seen).Of(d), c)
    ensures Tracks(sums, before.With(k, seen + [v]))
  {
    MentionsSnoc(seen, v);
    var a, b := before.With(k, seen), before.With(k, seen + [v]);
    forall c ensures c in sums <==> MentionedIn(b, c) {
      if c == v.currency {
        assert Mentions(b.Of(k), c);
      } else {
        forall d: Category ensures Mentions(b.Of(d), c) <==> Mentions(a.Of(d), c) {}
      }
    }
    forall c, d: Category | c in sums ensures sums[c].Of(d) == Running(b.Of(d), c) {
      assert (seen + [v])[..|seen|] == seen;
      if c != v.currency {
        assert sums[c].Of(d) == Running(a.Of(d), c);
      } else if d != k {
        assert was.Of(d) == Running(before.With(k, seen).Of(d), v.currency);
      }
    }
  }

  lemma MentionsSnoc(values: seq<Money>, v: Money)
    ensures forall c :: Mentions(values + [v], c) <==> Mentions(values, c) || c == v.currency
  {
    forall c ensures Mentions(values + [v], c) <==> Mentions(values, c) || c == v.currency {
      if Mentions(values, c) {
        var i :| 0 <= i < |values| && values[i].currency == c;
        assert (values + [v])[i].currency == c;
      }
      assert (values + [v])[|values|] == v;
    }
  }

  lemma TotalAbsent(values: seq<Money>, c: string)
    requires !Mentions(values, c)
    ensures Total(values, c) == 0 && Weight(values, c) == 0
  {
    if values != [] {
      var n := |values| - 1;
      assert values[n].currency != c;
      assert forall i :: 0 <= i < n ==> values[..n][i] == values[i];
      TotalAbsent(values[..n], c);
    }
  }

  // ---- sorted currencies ----

  // Byte-wise string order, as sort.Strings compares.
  predicate Less(a: string, b: string) {
    if b == "" then false
    else if a == "" then true
    else a[0] < b[0] || (a[0] == b[0] && Less(a[1..], b[1..]))
  }

  lemma {:induction false} LessTotal(a: string, b: string)
    ensures Less(a, b) || Less(b, a) || a == b
    ensures !(Less(a, b) && Less(b, a)) && !Less(a, a)
  {
    if a != "" && b != "" {
      LessTotal(a[1..], b[1..]);
      assert a[0] == b[0] && a[1..] == b[1..] ==> a == [a[0]] + a[1..] == b;
    }
    if a != "" {
      LessTotal(a[1..], a[1..]);
    }
  }

  lemma {:induction false} LessTrans(a: string, b: string, c: string)
    requires Less(a, b) && Less(b, c)
    ensures Less(a, c)
  {
    if a != "" && a[0] == b[0] && b[0] == c[0] {
      LessTrans(a[1..], b[1..], c[1..]);
    }
  }

  ghost predicate Sorted(s: seq<string>) {
    forall i, j :: 0 <= i < j < |s| ==> Less(s[i], s[j])
  }

  method Insert(s: seq<string>, c: string) returns (r: seq<string>)
    requires Sorted(s) && c !in s
    ensures Sorted(r) && forall x :: x in r <==> x in s || x == c
  {
    var pos := 0;
    while pos < |s| && Less(s[pos], c)
      invariant pos <= |s|
      invariant forall j :: 0 <= j < pos ==> Less(s[j], c)
    {
      pos := pos + 1;
    }
    r := s[..pos] + [c] + s[pos..];
    forall j | pos <= j < |s| ensures Less(c, s[j]) {
      LessTotal(s[pos], c);
      assert s[pos] in s;
      if j > pos {
        LessTrans(c, s[pos], s[j]);
      }
    }
    InsertMembers(s, c, pos, r);
  }

  lemma InsertMembers(s: seq<string>, c: string, pos: nat, r: seq<string>)
    requires pos <= |s| && r == s[..pos] + [c] + s[pos..]
    ensures forall x :: x in r <==> x in s || x == c
  {
    forall x ensures x in r <==> x in s || x == c {
      assert s == s[..pos] + s[pos..];
    }
  }

  // A strictly sorted sequence is determined by its members.
  lemma {:induction false} SortedUnique(a: seq<string>, b: seq<string>)
    requires Sorted(a) && Sorted(b) && forall x :: x in a <==> x in b
    ensures a == b
  {
    assert b != [] ==> b[0] in b;
    if a == [] {
    } else {
      assert a[0] in b && (b != [] ==> b[0] in a);
      HeadIsLeast(a, b[0]);
      HeadIsLeast(b, a[0]);
      LessTotal(a[0], b[0]);
      TailMembers(a);
      TailMembers(b);
      SortedUnique(a[1..], b[1..]);
      assert a == [a[0]] + a[1..] && b == [b[0]] + b[1..];
    }
  }

  lemma HeadIsLeast(s: seq<string>, x: string)
    requires Sorted(s) && x in s
    ensures x == s[0] || Less(s[0], x)
  {}

  lemma TailMembers(s: seq<string>)
    requires Sorted(s) && s != []
    ensures forall x :: x in s[1..] <==> x in s && x != s[0]
  {
    LessTotal(s[0], s[0]);
    forall x ensures x in s[1..] <==> x in s && x != s[0] {
      assert s == [s[0]] + s[1..];
      if x in s[1..] {
        var i :| 0 <= i < |s[1..]| && s[1..][i] == x;
        assert s[i + 1] == x;
      }
    }
  }

  // ---- the balance view ----

  datatype View = View(currency: string, amounts: Triple<Money>)

  // Every currency of any list once, in sorted order, and every amount the exact sum of
  // its entries in proper form; a currency a list does not mention shows zero there.
  ghost predicate IsBalance(views: seq<View>, limits: Limits) {
    && Sorted(Names(views))
    && (forall c :: c in Names(views) <==> MentionedIn(limits, c))
    && (forall i, k: Category :: 0 <= i < |views| ==>
         Shows(views[i].amounts.Of(k), views[i].currency, Total(limits.Of(k), views[i].currency)))
  }

  ghost predicate Shows(m: Money, c: string, total: int) {
    m.currency == c && m.Proper() && m.Value() == total
  }

  function Names(views: seq<View>): seq<string> {
    seq(|views|, i requires 0 <= i < |views| => views[i].currency)
  }

  function WithCurrency(m: Option<Money>, c: string): Money {
    if m.Some? then m.value else Money(c, 0, 0)
  }

  // What is shown for any entries at all: every currency once, sorted, with its running sums.
  ghost predicate IsView(views: seq<View>, limits: Limits) {
    && Sorted(Names(views))
    && (forall c :: c in Names(views) <==> MentionedIn(limits, c))
    && (forall i, k: Category :: 0 <= i < |views| ==> ShowsRunning(views[i], limits, k))
  }

  predicate ShowsRunning(v: View, limits: Limits, k: Category) {
    v.amounts.Of(k) == WithCurrency(Running(limits.Of(k), v.currency), v.currency)
  }

  ghost predicate TotalsFit(limits: Limits) {
    forall c, k: Category :: Fits(Total(limits.Of(k), c))
  }

  // The amounts are exact as soon as every total fits, whatever wrapped on the way to it.
  method Balance(limits: Limits) returns (views: seq<View>)
    requires AllWire(limits.available) && AllWire(limits.blocked) && AllWire(limits.guarantee)
    ensures IsView(views, limits)
    ensures TotalsFit(limits) ==> IsBalance(views, limits)
  {
    var none: Limits := Triple([], [], []);
    var sums := Add(map[], none, Available, limits.available);
    sums := Add(sums, none.With(Available, limits.available), Blocked, limits.blocked);
    sums := Add(sums, none.With(Available, limits.available).With(Blocked, limits.blocked),
                Guarantee, limits.guarantee);
    assert none.With(Available, limits.available).With(Blocked, limits.blocked)
               .With(Guarantee, limits.guarantee) == limits;
    views := Render(sums, limits);
    if TotalsFit(limits) {
      FittingIsBalance(views, limits);
    }
  }

  lemma FittingIsBalance(views: seq<View>, limits: Limits)
    requires IsView(views, limits) && TotalsFit(limits)
    ensures IsBalance(views, limits)
  {
    forall i, k: Category | 0 <= i < |views|
      ensures Shows(views[i].amounts.Of(k), views[i].currency, Total(limits.Of(k), views[i].currency))
    {
      var c := views[i].currency;
      assert ShowsRunning(views[i], limits, k);
      RunningValue(limits.Of(k), c);
      FittingTotalIsExact(limits.Of(k), c);
    }
  }

  // Entries of modest weight fit in any order.
  lemma ModestFits(limits: Limits)
    requires Modest(limits.available) && Modest(limits.blocked) && Modest(limits.guarantee)
    ensures TotalsFit(limits)
  {
    forall c, k: Category ensures Fits(Total(limits.Of(k), c)) {
      TotalWithinWeight(limits.Of(k), c);
      if Mentions(limits.Of(k), c) {
        var i :| 0 <= i < |limits.Of(k)| && limits.Of(k)[i].currency == c;
        assert Weight(limits.Of(k), limits.Of(k)[i].currency) <= MAX_INT64 * BILLION;
      } else {
        TotalAbsent(limits.Of(k), c);
      }
    }
  }

  method Render(sums: map<string, Summary>, ghost limits: Limits) returns (views: seq<View>)
    requires Tracks(sums, limits)
    ensures IsView(views, limits)
  {
    var currencies := SortedKeys(sums.Keys);
    views := [];
    for i := 0 to |currencies|
      invariant |views| == i && forall j :: 0 <= j < i ==> views[j].currency == currencies[j]
      invariant forall j, k: Category :: 0 <= j < i ==> ShowsRunning(views[j], limits, k)
    {
      var c := currencies[i];
      assert c in currencies;
      var s := sums[c];
      var amounts := Triple(WithCurrency(s.available, c), WithCurrency(s.blocked, c), WithCurrency(s.guarantee, c));
      assert forall k: Category :: amounts.Of(k) == WithCurrency(s.Of(k), c);
      views := views + [View(c, amounts)];
    }
    assert Names(views) == currencies;
  }

  method SortedKeys(keys: set<string>) returns (s: seq<string>)
    ensures Sorted(s) && forall x :: x in s <==> x in keys
  {
    s := [];
    var todo := keys;
    while todo != {}
      invariant todo <= keys && Sorted(s)
      invariant forall x :: x in s <==> x in keys - todo
      decreases todo
    {
      var c :| c in todo;
      s := Insert(s, c);
      todo := todo - {c};
    }
  }

  // ---- the order of the entries does not matter ----

  lemma {:induction false} TotalOfParts(a: seq<Money>, b: seq<Money>, c: string)
    ensures Total(a + b, c) == Total(a, c) + Total(b, c)
  {
    if b == [] {
      assert a + b == a;
    } else {
      var n := |b| - 1;
      assert (a + b)[..|a| + n] == a + b[..n];
      TotalOfParts(a, b[..n], c);
    }
  }

  // Taking one element out of two permutations leaves permutations.
  lemma TakeOut(a: seq<Money>, b: seq<Money>) returns (i: nat)
    requires a != [] && multiset(a) == multiset(b)
    ensures i < |b| && b[i] == a[|a|-1] && multiset(a[..|a|-1]) == multiset(b[..i] + b[i+1..])
  {
    var n := |a| - 1;
    assert a == a[..n] + [a[n]];
    assert a[n] in multiset(a);
    i :| 0 <= i < |b| && b[i] == a[n];
    assert b == b[..i] + [b[i]] + b[i+1..];
    assert multiset(a[..n]) == multiset(a) - multiset{a[n]};
    assert multiset(b[..i] + b[i+1..]) == multiset(b) - multiset{b[i]};
  }

  lemma {:induction false} TotalPermuted(a: seq<Money>, b: seq<Money>, c: string)
    requires multiset(a) == multiset(b)
    ensures Total(a, c) == Total(b, c)
  {
    if a == [] {
      assert |b| == |multiset(b)| == 0;
    } else {
      var n := |a| - 1;
      var i := TakeOut(a, b);
      TotalPermuted(a[..n], b[..i] + b[i+1..], c);
      TotalOfParts(b[..i], b[i+1..], c);
      TotalOfParts(b[..i] + [b[i]], b[i+1..], c);
      assert (b[..i] + [b[i]])[..i] == b[..i];
      assert b == b[..i] + [b[i]] + b[i+1..];
    }
  }

  lemma MentionsPermuted(a: seq<Money>, b: seq<Money>, c: string)
    requires multiset(a) == multiset(b)
    ensures Mentions(a, c) ==> Mentions(b, c)
  {
    if Mentions(a, c) {
      var i :| 0 <= i < |a| && a[i].currency == c;
      assert a[i] in multiset(a) && a[i] in multiset(b);
    }
  }

  ghost predicate Permuted(a: Limits, b: Limits) {
    forall k: Category :: multiset(a.Of(k)) == multiset(b.Of(k))
  }

  // Permuted entries name the same currencies, sorted alike.
  lemma SameNames(v: seq<View>, a: Limits, w: seq<View>, b: Limits)
    requires Permuted(a, b) && Sorted(Names(v)) && Sorted(Names(w))
    requires forall c :: c in Names(v) <==> MentionedIn(a, c)
    requires forall c :: c in Names(w) <==> MentionedIn(b, c)
    ensures Names(v) == Names(w) && |v| == |w|
    ensures forall i :: 0 <= i < |v| ==> v[i].currency == w[i].currency
  {
    forall c ensures MentionedIn(a, c) <==> MentionedIn(b, c) {
      forall k: Category ensures Mentions(a.Of(k), c) <==> Mentions(b.Of(k), c) {
        MentionsPermuted(a.Of(k), b.Of(k), c);
        MentionsPermuted(b.Of(k), a.Of(k), c);
      }
    }
    SortedUnique(Names(v), Names(w));
    assert |Names(v)| == |v| && |Names(w)| == |w|;
    forall i | 0 <= i < |v| ensures v[i].currency == w[i].currency {
      assert Names(v)[i] == Names(w)[i];
    }
  }

  lemma SameTriple(x: Triple<Money>, y: Triple<Money>)
    requires forall k: Category :: x.Of(k) == y.Of(k)
    ensures x == y
  {
    assert x.Of(Available) == y.Of(Available) && x.Of(Blocked) == y.Of(Blocked) && x.Of(Guarantee) == y.Of(Guarantee);
  }

  // Views that show the exact sums of the same entries are the same.
  lemma ExactBalanceIsUnique(v: seq<View>, a: Limits, w: seq<View>, b: Limits)
    requires IsBalance(v, a) && IsBalance(w, b) && Permuted(a, b)
    ensures v == w
  {
    SameNames(v, a, w, b);
    forall i | 0 <= i < |v| ensures v[i] == w[i] {
      var c := v[i].currency;
      forall k: Category ensures v[i].amounts.Of(k) == w[i].amounts.Of(k) {
        TotalPermuted(a.Of(k), b.Of(k), c);
        var x, y := v[i].amounts.Of(k), w[i].amounts.Of(k);
        assert Shows(x, c, Total(a.Of(k), c)) && Shows(y, c, Total(b.Of(k), c));
        ProperIsUnique(Quotation(x.units, x.nano), Quotation(y.units, y.nano));
      }
      SameTriple(v[i].amounts, w[i].amounts);
    }
  }

  // Up to whole turns of the units, the total has a proper form at either end of int64.
  predicate TwoForms(total: int) {
    0 < (total - MAX_INT64 * BILLION) % TURN < BILLION
  }

  // Proper amounts that are whole turns apart are the same, unless one is at either end.
  lemma TurnsApart(x: Money, y: Money, turns: int)
    requires x.Proper() && y.Proper() && x.currency == y.currency
    requires x.Value() == y.Value() + turns * TURN && turns >= 0
    ensures x == y || TwoForms(x.Value())
  {
    if turns == 0 {
      ProperIsUnique(Quotation(x.units, x.nano), Quotation(y.units, y.nano));
    } else {
      assert turns * TURN >= TURN;
      assert MAX_INT64 * BILLION < x.Value() < MAX_INT64 * BILLION + BILLION;
    }
  }

  lemma TwoFormsTurned(total: int, turns: int)
    ensures TwoForms(total + turns * TURN) <==> TwoForms(total)
  {
    ModTurned(total - MAX_INT64 * BILLION, turns, TURN);
  }

  lemma {:induction false} ModTurned(n: int, turns: int, m: int)
    requires m > 0
    ensures (n + turns * m) % m == n % m
    decreases if turns < 0 then -turns else turns
  {
    if turns > 0 {
      ModTurned(n + m, turns - 1, m);
      ModOnce(n, m);
      assert n + m + (turns - 1) * m == n + turns * m;
    } else if turns < 0 {
      ModTurned(n - m, turns + 1, m);
      ModOnce(n - m, m);
      assert n - m + (turns + 1) * m == n + turns * m;
    }
  }

  lemma ModOnce(n: int, m: int)
    requires m > 0
    ensures (n + m) % m == n % m
  {
    assert n + m == m * (n / m + 1) + n % m;
    ModIs(n + m, m, n / m + 1, n % m);
  }

  lemma ModIs(n: int, m: int, q: int, r: int)
    requires m > 0 && n == m * q + r && 0 <= r < m
    ensures n % m == r
  {
    var d := n / m - q;
    assert m * d == r - n % m;
    assert d >= 1 ==> m * d >= m;
    assert d <= -1 ==> m * d <= -m;
  }

  lemma ProperApart(x: Money, y: Money, s: int, t: int, total: int)
    requires x.Proper() && y.Proper() && x.currency == y.currency && s >= t
    requires x.Value() == total + s * TURN && y.Value() == total + t * TURN
    ensures x == y || TwoForms(total)
  {
    assert x.Value() == y.Value() + (s - t) * TURN;
    TurnsApart(x, y, s - t);
    TwoFormsTurned(total, s);
  }

  lemma RunningForm(values: seq<Money>, c: string) returns (m: Money, turns: int)
    ensures m == Or(Running(values, c), c) && m.Proper() && m.currency == c
    ensures m.Value() == Total(values, c) + turns * TURN
  {
    RunningValue(values, c);
    m, turns := Or(Running(values, c), c), Turns(values, c);
    assert turns * TWO64 * BILLION == turns * TURN;
  }

  // The running sums of the same entries in two orders.
  lemma RunningPermuted(a: seq<Money>, b: seq<Money>, c: string)
    requires multiset(a) == multiset(b) && !TwoForms(Total(a, c))
    ensures Or(Running(a, c), c) == Or(Running(b, c), c)
  {
    TotalPermuted(a, b, c);
    var x, s := RunningForm(a, c);
    var y, t := RunningForm(b, c);
    if s >= t {
      ProperApart(x, y, s, t, Total(a, c));
    } else {
      ProperApart(y, x, t, s, Total(a, c));
    }
  }

  // Limits listing the same entries in any other order have the same balance, wrapped or
  // not, unless a total has two proper forms.
  lemma OrderDoesNotMatter(v: seq<View>, a: Limits, w: seq<View>, b: Limits)
    requires IsView(v, a) && IsView(w, b) && Permuted(a, b)
    requires forall c, k: Category :: !TwoForms(Total(a.Of(k), c))
    ensures v == w
  {
    SameNames(v, a, w, b);
    forall i | 0 <= i < |v| ensures v[i] == w[i] {
      var c := v[i].currency;
      forall k: Category ensures v[i].amounts.Of(k) == w[i].amounts.Of(k) {
        assert ShowsRunning(v[i], a, k) && ShowsRunning(w[i], b, k);
        RunningPermuted(a.Of(k), b.Of(k), c);
      }
      SameTriple(v[i].amounts, w[i].amounts);
    }
  }

  lemma RunningOfThree(x: Money, y: Money, z: Money, c: string, sum: Money)
    requires x.currency == y.currency == z.currency == c && InTurn(x, y, z) == sum
    ensures Running([x, y, z], c) == Some(sum)
    ensures Total([x, y, z], c) == x.Value() + y.Value() + z.Value()
  {
    var one, two, three := [x], [x, y], [x, y, z];
    assert three[..2] == two && two[..1] == one && one[..0] == [];
    assert Running([], c) == None && Total([], c) == 0;
    assert Running(one, c) == Some(Added(Money(c, 0, 0), x)) && Total(one, c) == x.Value();
    assert Running(two, c) == Some(Added(Added(Money(c, 0, 0), x), y));
  }

  // Three entries added up in turn.
  function InTurn(x: Money, y: Money, z: Money): Money {
    Added(Added(Added(Money(x.currency, 0, 0), x), y), z)
  }

  lemma ThreeEntries(c: string, f: int) returns (a: seq<Money>, b: seq<Money>)
    requires 0 < f < BILLION
    ensures AllWire(a) && AllWire(b) && multiset(a) == multiset(b)
    ensures Total(a, c) == MAX_INT64 * BILLION + f && Running(a, c) != Running(b, c)
  {
    var top, up, down, m, n := TopTurnsOver(c, f);
    a, b := [top, up, down], [top, down, up];
    RunningOfThree(top, up, down, c, m);
    RunningOfThree(top, down, up, c, n);
    ThreePermuted(top, up, down);
  }

  lemma ThreePermuted(x: Money, y: Money, z: Money)
    ensures multiset([x, y, z]) == multiset([x, z, y])
    ensures x.Wire() && y.Wire() && z.Wire() ==> AllWire([x, y, z]) && AllWire([x, z, y])
  {
    assert multiset([x, y, z]) == multiset{x, y, z} == multiset([x, z, y]);
  }

  // No other condition will do: for each total with two forms, up to whole turns, there are
  // entries whose order decides which of the two is shown.
  lemma TwoFormsDependOnOrder(total: int, c: string) returns (a: seq<Money>, b: seq<Money>)
    requires TwoForms(total)
    ensures AllWire(a) && AllWire(b) && multiset(a) == multiset(b)
    ensures (Total(a, c) - total) % TURN == 0 && Running(a, c) != Running(b, c)
  {
    var f := (total - MAX_INT64 * BILLION) % TURN;
    a, b := ThreeEntries(c, f);
    WholeTurns(total, MAX_INT64 * BILLION, f);
  }

  lemma WholeTurns(total: int, start: int, f: int)
    requires f == (total - start) % TURN
    ensures (start + f - total) % TURN == 0
  {
    var q := (total - start) / TURN;
    assert start + f - total == 0 + (-q) * TURN;
    ModTurned(0, -q, TURN);
  }

  // What is added to an amount at the upper end decides whether it turns over.
  lemma TopTurnsOver(c: string, f: int) returns (top: Money, up: Money, down: Money, over: Money, under: Money)
    requires 0 < f < BILLION
    ensures top.Wire() && up.Wire() && down.Wire() && top.currency == up.currency == down.currency == c
    ensures top.Value() + up.Value() + down.Value() == MAX_INT64 * BILLION + f
    ensures over == InTurn(top, up, down) && under == InTurn(top, down, up) && over != under
  {
    top, up, down := Money(c, MAX_INT64, f), Money(c, 0, BILLION - f), Money(c, 0, f - BILLION);
    over, under := Money(c, MIN_INT64, f - BILLION), top;
    assert Added(Money(c, 0, 0), top) == top;
    assert Added(top, up) == Money(c, MIN_INT64, 0);
    assert Added(Money(c, MIN_INT64, 0), down) == over;
    var low := Added(top, down);
    assert low == if 2 * f < BILLION then Money(c, MAX_INT64 - 1, 2 * f) else Money(c, MAX_INT64, 2 * f - BILLION);
    assert Added(low, up) == top;
  }
}
