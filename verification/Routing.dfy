/** Which token bucket a method uses: fixed limits overlaid by a tariff that is
    refreshed as a whole. */
module Routing {
  import opened Numerals
  import opened Wrappers
  import opened TokenBuckets

  datatype Limit = Limit(group: string, methods: seq<string>, services: seq<string>,
                         perMinute: int, perSecond: int, burst: int)

  // One unary group of a tariff response.
  datatype UnaryLimit = UnaryLimit(methods: seq<string>, perMinute: int, perSecond: int)

  // ---- names ----

  function LastIndex(s: string, c: char): (r: int)
    ensures -1 <= r < |s|
    ensures r >= 0 ==> s[r] == c && forall i :: r < i < |s| ==> s[i] != c
    ensures r == -1 ==> c !in s
  {
    if s == "" then -1 else if s[|s|-1] == c then |s| - 1 else LastIndex(s[..|s|-1], c)
  }

  function MethodKey(name: string): string {
    var slash := LastIndex(name, '/');
    if slash >= 0 then name[slash+1..] else name
  }

  function ConfiguredMethodKey(name: string): string {
    if '/' in name then name else MethodKey(name)
  }

  function ServiceName(name: string): string {
    var slash := LastIndex(name, '/');
    if slash <= 0 then ""
    else
      var prefix := name[..slash];
      var dot := LastIndex(prefix, '.');
      if dot >= 0 then prefix[dot+1..] else if prefix[0] == '/' then prefix[1..] else prefix
  }

  lemma TwentyDigits()
    ensures Pow10(20) > 0x8000_0000_0000_0000
  {
    assert Pow10(4) == 10000;
    assert Pow10(8) == 1_0000_0000;
    assert Pow10(12) == 1_0000_0000_0000;
    assert Pow10(16) == 1_0000_0000_0000_0000;
  }

  // The digits still to be written.
  function Pending(rest: nat): string {
    if rest > 0 then Digits(rest) else ""
  }

  lemma PendingStep(rest: nat, done: string)
    requires rest > 0
    ensures Pending(rest) + done == Pending(rest / 10) + ([DigitOf(rest % 10)] + done)
  {}

  method PutDigit(digits: array<char>, position: nat, d: char)
    requires position < digits.Length
    modifies digits
    ensures digits[position..] == [d] + old(digits[position+1..])
  {
    digits[position] := d;
    assert digits[position+1..] == old(digits[position+1..]);
  }

  // The digits are written backwards into a fixed buffer; 20 places hold any 64-bit value.
  method Itoa(value: nat) returns (s: string)
    requires value < 0x8000_0000_0000_0000
    ensures s == Digits(value)
  {
    if value == 0 {
      return "0";
    }
    var digits := new char[20];
    var position := 20;
    var rest: nat := value;
    TwentyDigits();
    while rest > 0
      invariant 0 <= position <= 20 && rest < Pow10(position)
      invariant Digits(value) == Pending(rest) + digits[position..]
    {
      PendingStep(rest, digits[position..]);
      position := position - 1;
      PutDigit(digits, position, DigitOf(rest % 10));
      rest := rest / 10;
    }
    s := digits[position..];
  }

  function TariffName(i: nat): string {
    "tariff-" + Digits(i)
  }

  ghost predicate IsTariffName(group: string) {
    exists i: nat :: group == TariffName(i)
  }

  lemma TariffNameFacts(i: nat, j: nat)
    ensures TariffName(i) != "" && TariffName(i) != "default"
    ensures TariffName(i) == TariffName(j) ==> i == j
  {
    assert TariffName(i)[0] == 't';
    assert TariffName(i)[7..] == Digits(i) && TariffName(j)[7..] == Digits(j);
    if TariffName(i) == TariffName(j) {
      DigitsInjective(i, j);
    }
  }

  // ---- limits ----

  function EffectiveRate(limit: Limit): real {
    var rate := if limit.perMinute > 0 then limit.perMinute as real / 60.0 else 0.0;
    if limit.perSecond > 0 && (rate == 0.0 || limit.perSecond as real < rate) then limit.perSecond as real else rate
  }

  predicate Installable(limit: Limit) {
    limit.group != "" && EffectiveRate(limit) > 0.0
  }

  function Burst(limit: Limit): int {
    if limit.burst <= 0 then 1 else limit.burst
  }

  predicate Priced(group: UnaryLimit) {
    group.perMinute > 0 || group.perSecond > 0
  }

  function TariffBurst(group: UnaryLimit): int {
    if 0 < group.perSecond < 10 then group.perSecond
    else if group.perSecond == 0 && 0 < group.perMinute < 10 then group.perMinute
    else 10
  }

  function TariffLimit(group: UnaryLimit, i: nat): Limit {
    Limit(TariffName(i), group.methods, [], group.perMinute, group.perSecond, TariffBurst(group))
  }

  function TariffLimits(groups: seq<UnaryLimit>): seq<Limit> {
    if groups == [] then []
    else
      var n := |groups| - 1;
      TariffLimits(groups[..n]) + if Priced(groups[n]) then [TariffLimit(groups[n], n)] else []
  }

  method LimitsFromTariff(groups: seq<UnaryLimit>) returns (limits: seq<Limit>)
    requires |groups| < 0x8000_0000_0000_0000
    ensures limits == TariffLimits(groups)
  {
    limits := [];
    for i := 0 to |groups|
      invariant limits == TariffLimits(groups[..i])
    {
      var group := groups[i];
      assert groups[..i+1][..i] == groups[..i];
      if group.perMinute <= 0 && group.perSecond <= 0 {
        continue;
      }
      var burst := 10;
      if group.perSecond > 0 && group.perSecond < burst {
        burst := group.perSecond;
      } else if group.perSecond == 0 && group.perMinute > 0 && group.perMinute < burst {
        burst := group.perMinute;
      }
      var digits := Itoa(i);
      limits := limits + [Limit("tariff-" + digits, group.methods, [], group.perMinute, group.perSecond, burst)];
    }
    assert groups[..|groups|] == groups;
  }

  // ---- the routing state ----

  // What a bucket enforces, whatever its tokens are.
  datatype Shape = Shape(rate: real, capacity: real)

  datatype Routes = Routes(buckets: map<string, Shape>,
                           methodGroups: map<string, string>, serviceGroups: map<string, string>,
                           tariffMethods: map<string, string>, tariffServices: map<string, string>,
                           tariffGroups: set<string>, defaultGroup: string)

  const NO_ROUTES := Routes(map[], map[], map[], map[], map[], {}, "")

  function WithMethods(m: map<string, string>, methods: seq<string>, group: string): map<string, string> {
    if methods == [] then m
    else WithMethods(m, methods[..|methods|-1], group)[ConfiguredMethodKey(methods[|methods|-1]) := group]
  }

  function WithServices(m: map<string, string>, services: seq<string>, group: string): map<string, string> {
    if services == [] then m
    else WithServices(m, services[..|services|-1], group)[services[|services|-1] := group]
  }

  function ShapeOf(limit: Limit): Shape {
    Shape(EffectiveRate(limit), Burst(limit) as real)
  }

  function Installed(r: Routes, limit: Limit, overlay: bool): Routes {
    if !Installable(limit) then r
    else
      var s := r.(buckets := r.buckets[limit.group := ShapeOf(limit)],
                  defaultGroup := if limit.group == "default" then limit.group else r.defaultGroup);
      if overlay then
        s.(tariffMethods := WithMethods(r.tariffMethods, limit.methods, limit.group),
           tariffServices := WithServices(r.tariffServices, limit.services, limit.group))
      else
        s.(methodGroups := WithMethods(r.methodGroups, limit.methods, limit.group),
           serviceGroups := WithServices(r.serviceGroups, limit.services, limit.group))
  }

  // An overlay limit that is installed also enters the set of groups the next refresh drops.
  function Overlaid(r: Routes, limit: Limit): Routes {
    var s := Installed(r, limit, true);
    if Installable(limit) then s.(tariffGroups := s.tariffGroups + {limit.group}) else s
  }

  function Updated(r: Routes, limits: seq<Limit>): Routes {
    if limits == [] then r else Installed(Updated(r, limits[..|limits|-1]), limits[|limits|-1], false)
  }

  function OverlaidAll(r: Routes, limits: seq<Limit>): Routes {
    if limits == [] then r else Overlaid(OverlaidAll(r, limits[..|limits|-1]), limits[|limits|-1])
  }

  function Cleared(r: Routes): Routes {
    r.(buckets := r.buckets - r.tariffGroups, tariffMethods := map[], tariffServices := map[], tariffGroups := {})
  }

  function Refreshed(r: Routes, limits: seq<Limit>): Routes {
    OverlaidAll(Cleared(r), limits)
  }

  function Get(m: map<string, string>, key: string): string {
    if key in m then m[key] else ""
  }

  function LookupMethod(m: map<string, string>, name: string): string {
    if Get(m, name) != "" then Get(m, name) else Get(m, MethodKey(name))
  }

  function TariffRoute(r: Routes, name: string): string {
    var byMethod := LookupMethod(r.tariffMethods, name);
    if byMethod != "" then byMethod else Get(r.tariffServices, ServiceName(name))
  }

  function StaticRoute(r: Routes, name: string): string {
    var byMethod := LookupMethod(r.methodGroups, name);
    var byService := Get(r.serviceGroups, ServiceName(name));
    if byMethod != "" then byMethod else if byService != "" then byService else r.defaultGroup
  }

  function GroupOf(r: Routes, name: string): string {
    var overlay := TariffRoute(r, name);
    if overlay != "" then overlay else StaticRoute(r, name)
  }

  method MapMethods(m: map<string, string>, methods: seq<string>, group: string) returns (r: map<string, string>)
    ensures r == WithMethods(m, methods, group)
  {
    r := m;
    for i := 0 to |methods|
      invariant r == WithMethods(m, methods[..i], group)
    {
      assert methods[..i+1][..i] == methods[..i];
      r := r[ConfiguredMethodKey(methods[i]) := group];
    }
    assert methods[..|methods|] == methods;
  }

  method MapServices(m: map<string, string>, services: seq<string>, group: string) returns (r: map<string, string>)
    ensures r == WithServices(m, services, group)
  {
    r := m;
    for i := 0 to |services|
      invariant r == WithServices(m, services[..i], group)
    {
      assert services[..i+1][..i] == services[..i];
      r := r[services[i] := group];
    }
    assert services[..|services|] == services;
  }

  class Limiter {
    var groups: map<string, Bucket>
    var methodGroups: map<string, string>
    var serviceGroups: map<string, string>
    var tariffMethods: map<string, string>
    var tariffServices: map<string, string>
    var tariffGroups: set<string>
    var defaultGroup: string
    const maxWait: real

    ghost function State(): Routes
      reads this
    {
      Routes(map g | g in groups :: Shape(groups[g].rate, groups[g].capacity),
             methodGroups, serviceGroups, tariffMethods, tariffServices, tariffGroups, defaultGroup)
    }

    ghost predicate Valid()
      reads this, groups.Values
    {
      forall g :: g in groups ==> groups[g].State().Valid()
    }

    constructor (limits: seq<Limit>, maxWait: real, now: real)
      ensures Valid() && State() == Updated(NO_ROUTES, limits) && fresh(groups.Values)
      ensures this.maxWait == if maxWait <= 0.0 then 2.0 else maxWait
    {
      groups, methodGroups, serviceGroups := map[], map[], map[];
      tariffMethods, tariffServices, tariffGroups, defaultGroup := map[], map[], {}, "";
      this.maxWait := if maxWait <= 0.0 then 2.0 else maxWait;
      new;
      assert State() == NO_ROUTES;
      Update(limits, now);
    }

    method Update(limits: seq<Limit>, now: real)
      requires Valid()
      modifies this
      ensures Valid() && State() == Updated(old(State()), limits)
      ensures fresh(groups.Values - old(groups.Values))
    {
      for i := 0 to |limits|
        invariant Valid() && State() == Updated(old(State()), limits[..i])
        invariant fresh(groups.Values - old(groups.Values))
      {
        assert limits[..i+1][..i] == limits[..i];
        var _ := Install(limits[i], false, now);
      }
      assert limits[..|limits|] == limits;
    }

    // The previous overlay goes with its buckets; the static limits stay as fallbacks.
    method RefreshTariff(limits: seq<Limit>, now: real)
      requires Valid()
      modifies this
      ensures Valid() && State() == Refreshed(old(State()), limits)
      ensures fresh(groups.Values - old(groups.Values))
    {
      DropOverlay();
      for i := 0 to |limits|
        invariant Valid() && State() == OverlaidAll(Cleared(old(State())), limits[..i])
        invariant fresh(groups.Values - old(groups.Values))
      {
        assert limits[..i+1][..i] == limits[..i];
        var ok := Install(limits[i], true, now);
        if ok {
          tariffGroups := tariffGroups + {limits[i].group};
        }
      }
      assert limits[..|limits|] == limits;
    }

    method DropOverlay()
      requires Valid()
      modifies this
      ensures Valid() && State() == Cleared(old(State())) && groups.Values <= old(groups.Values)
    {
      var pending := tariffGroups;
      while pending != {}
        invariant pending <= tariffGroups
        invariant groups == old(groups) - (tariffGroups - pending)
        invariant unchanged(`methodGroups, `serviceGroups, `tariffGroups, `defaultGroup)
      {
        var group :| group in pending;
        groups := groups - {group};
        pending := pending - {group};
      }
      assert groups == old(groups) - tariffGroups;
      tariffMethods := map[];
      tariffServices := map[];
      tariffGroups := {};
      assert State().buckets == old(State()).buckets - old(tariffGroups);
    }

    method AddBucket(group: string, rate: real, burst: int, now: real)
      requires Valid() && rate > 0.0 && burst >= 1
      modifies this`groups
      ensures Valid() && fresh(groups.Values - old(groups.Values))
      ensures State() == old(State()).(buckets := old(State()).buckets[group := Shape(rate, burst as real)])
      ensures group in groups && groups == old(groups)[group := groups[group]] && fresh(groups[group])
      ensures groups[group].State() == Level(rate, burst as real, burst as real, now)
    {
      var bucket := new Bucket(rate, burst, now);
      groups := groups[group := bucket];
      assert State().buckets == old(State()).buckets[group := Shape(rate, burst as real)];
    }

    method Install(limit: Limit, overlay: bool, now: real) returns (ok: bool)
      requires Valid()
      modifies this
      ensures Valid() && State() == Installed(old(State()), limit, overlay)
      ensures ok == Installable(limit)
      ensures fresh(groups.Values - old(groups.Values))
      ensures !ok ==> groups == old(groups)
      ensures ok ==> limit.group in groups && groups == old(groups)[limit.group := groups[limit.group]]
      ensures ok ==> fresh(groups[limit.group]) && groups[limit.group].Full(now)
    {
      if limit.group == "" {
        return false;
      }
      var rate := EffectiveRate(limit);
      if rate <= 0.0 {
        return false;
      }
      var burst := limit.burst;
      if burst <= 0 {
        burst := 1;
      }
      AddBucket(limit.group, rate, burst, now);
      if limit.group == "default" {
        defaultGroup := limit.group;
      }
      if overlay {
        tariffMethods := MapMethods(tariffMethods, limit.methods, limit.group);
        tariffServices := MapServices(tariffServices, limit.services, limit.group);
      } else {
        methodGroups := MapMethods(methodGroups, limit.methods, limit.group);
        serviceGroups := MapServices(serviceGroups, limit.services, limit.group);
      }
      ok := true;
    }

    // A call takes a token of the bucket its method routes to and touches no other; with
    // no bucket it passes unlimited.
    method Wait(name: string, now: real, deadline: Option<real>) returns (out: Option<Outcome>)
      requires Valid()
      modifies groups.Values
      ensures var g := GroupOf(State(), name);
              if g in groups then
                out.Some? && (groups[g].State(), out.value) == Reserve(old(groups[g].State()), now, maxWait, deadline)
              else out.None?
      ensures forall b :: b in groups.Values
                && (GroupOf(State(), name) in groups ==> b != groups[GroupOf(State(), name)])
                ==> b.State() == old(b.State())
    {
      var group := Route(name);
      if group !in groups {
        return None;
      }
      var granted := groups[group].Wait(now, maxWait, deadline);
      out := Some(granted);
    }

    method Route(name: string) returns (group: string)
      ensures group == GroupOf(State(), name)
    {
      group := LookupMethod(tariffMethods, name);
      if group != "" {
        return;
      }
      group := Get(tariffServices, ServiceName(name));
      if group != "" {
        return;
      }
      group := LookupMethod(methodGroups, name);
      if group != "" {
        return;
      }
      group := Get(serviceGroups, ServiceName(name));
      if group != "" {
        return;
      }
      group := defaultGroup;
    }
  }

  // ---- static limits ----

  ghost predicate AllIn(m: map<string, string>, buckets: map<string, Shape>) {
    forall k :: k in m ==> m[k] != "" && m[k] in buckets
  }

  lemma {:induction false} MethodsIn(m: map<string, string>, methods: seq<string>, group: string,
                                      buckets: map<string, Shape>)
    requires AllIn(m, buckets) && group != "" && group in buckets
    ensures AllIn(WithMethods(m, methods, group), buckets)
  {
    if methods != [] {
      MethodsIn(m, methods[..|methods|-1], group, buckets);
    }
  }

  lemma {:induction false} ServicesIn(m: map<string, string>, services: seq<string>, group: string,
                                      buckets: map<string, Shape>)
    requires AllIn(m, buckets) && group != "" && group in buckets
    ensures AllIn(WithServices(m, services, group), buckets)
  {
    if services != [] {
      ServicesIn(m, services[..|services|-1], group, buckets);
    }
  }

  ghost predicate StaticTables(r: Routes) {
    && AllIn(r.methodGroups, r.buckets) && AllIn(r.serviceGroups, r.buckets)
    && (r.defaultGroup != "" ==> r.defaultGroup in r.buckets)
  }

  ghost predicate NoOverlay(r: Routes) {
    r.tariffMethods == map[] && r.tariffServices == map[] && r.tariffGroups == {}
  }

  lemma {:induction false} UpdatedTables(limits: seq<Limit>)
    ensures StaticTables(Updated(NO_ROUTES, limits)) && NoOverlay(Updated(NO_ROUTES, limits))
  {
    if limits != [] {
      var n := |limits| - 1;
      UpdatedTables(limits[..n]);
      var r := Updated(NO_ROUTES, limits[..n]);
      var limit := limits[n];
      if Installable(limit) {
        var buckets := r.buckets[limit.group := ShapeOf(limit)];
        MethodsIn(r.methodGroups, limit.methods, limit.group, buckets);
        ServicesIn(r.serviceGroups, limit.services, limit.group, buckets);
      }
    }
  }

  // ---- tariff limits ----

  // Every group a tariff yields can be installed under its own name, with no services.
  ghost predicate FromTariff(limit: Limit) {
    Installable(limit) && IsTariffName(limit.group) && limit.services == []
  }

  lemma {:induction false} TariffLimitsInstall(groups: seq<UnaryLimit>, k: nat)
    requires k < |TariffLimits(groups)|
    ensures FromTariff(TariffLimits(groups)[k])
  {
    var n := |groups| - 1;
    if k < |TariffLimits(groups[..n])| {
      TariffLimitsInstall(groups[..n], k);
    } else {
      TariffNameFacts(n, n);
    }
  }

  ghost predicate AllFromTariff(limits: seq<Limit>) {
    forall k: nat :: k < |limits| ==> FromTariff(limits[k])
  }

  lemma TariffLimitsAre(groups: seq<UnaryLimit>)
    ensures AllFromTariff(TariffLimits(groups))
  {
    forall k: nat | k < |TariffLimits(groups)| ensures FromTariff(TariffLimits(groups)[k]) {
      TariffLimitsInstall(groups, k);
    }
  }

  // What an overlay leaves alone, and where its own groups are.
  lemma {:induction false} OverlayFacts(r: Routes, limits: seq<Limit>)
    requires AllFromTariff(limits) && NoOverlay(r)
    ensures var s := OverlaidAll(r, limits);
            && s.methodGroups == r.methodGroups && s.serviceGroups == r.serviceGroups
            && s.defaultGroup == r.defaultGroup
            && s.tariffServices == map[] && AllIn(s.tariffMethods, s.buckets)
            && s.buckets.Keys == r.buckets.Keys + s.tariffGroups
            && (forall g :: g in s.tariffGroups ==> IsTariffName(g))
            && (forall g :: g in r.buckets && g !in s.tariffGroups ==> s.buckets[g] == r.buckets[g])
  {
    if limits != [] {
      var n := |limits| - 1;
      OverlayFacts(r, limits[..n]);
      var s := OverlaidAll(r, limits[..n]);
      var limit := limits[n];
      assert FromTariff(limit);
      var i: nat :| limit.group == TariffName(i);
      TariffNameFacts(i, i);
      MethodsIn(s.tariffMethods, limit.methods, limit.group, s.buckets[limit.group := ShapeOf(limit)]);
    }
  }

  // Two states that agree on everything but buckets.
  ghost predicate SameRoutes(a: Routes, b: Routes) {
    a.(buckets := map[]) == b.(buckets := map[])
  }

  lemma {:induction false} OverlaySame(a: Routes, b: Routes, limits: seq<Limit>)
    requires SameRoutes(a, b)
    ensures SameRoutes(OverlaidAll(a, limits), OverlaidAll(b, limits))
  {
    if limits != [] {
      OverlaySame(a, b, limits[..|limits|-1]);
    }
  }

  // ---- any number of refreshes ----

  function RefreshedAll(r: Routes, tariffs: seq<seq<UnaryLimit>>): Routes {
    if tariffs == [] then r
    else Refreshed(RefreshedAll(r, tariffs[..|tariffs|-1]), TariffLimits(tariffs[|tariffs|-1]))
  }

  // A refreshed limiter with its overlay taken off: the static tables, and the buckets
  // under any name no tariff uses.
  ghost predicate StaticPart(r: Routes, fixed: Routes) {
    && SameRoutes(Cleared(r), fixed)
    && (forall g :: !IsTariffName(g) ==> (g in r.buckets <==> g in fixed.buckets))
    && (forall g :: !IsTariffName(g) && g in r.buckets && g in fixed.buckets ==> r.buckets[g] == fixed.buckets[g])
    && (forall g :: g in r.tariffGroups ==> IsTariffName(g))
    && (forall g :: g in Cleared(r).buckets ==> g in fixed.buckets)
    && AllIn(r.tariffMethods, r.buckets) && r.tariffServices == map[]
  }

  lemma RefreshKeepsStatic(r: Routes, fixed: Routes, tariff: seq<UnaryLimit>)
    requires StaticPart(r, fixed)
    ensures StaticPart(Refreshed(r, TariffLimits(tariff)), fixed)
  {
    TariffLimitsAre(tariff);
    OverlayFacts(Cleared(r), TariffLimits(tariff));
    var s := Refreshed(r, TariffLimits(tariff));
    assert Cleared(s).buckets.Keys <= Cleared(r).buckets.Keys;
  }

  lemma {:induction false} RefreshesKeepStatic(limits: seq<Limit>, tariffs: seq<seq<UnaryLimit>>)
    ensures StaticPart(RefreshedAll(Updated(NO_ROUTES, limits), tariffs), Updated(NO_ROUTES, limits))
  {
    var fixed := Updated(NO_ROUTES, limits);
    if tariffs == [] {
      UpdatedTables(limits);
      assert Cleared(fixed) == fixed;
    } else {
      var n := |tariffs| - 1;
      RefreshesKeepStatic(limits, tariffs[..n]);
      RefreshKeepsStatic(RefreshedAll(fixed, tariffs[..n]), fixed, tariffs[n]);
    }
  }

  lemma RefreshedSnoc(r: Routes, tariffs: seq<seq<UnaryLimit>>, last: seq<UnaryLimit>)
    ensures RefreshedAll(r, tariffs + [last]) == Refreshed(RefreshedAll(r, tariffs), TariffLimits(last))
  {
    assert (tariffs + [last])[..|tariffs|] == tariffs;
  }

  lemma SameRoutesRoute(a: Routes, b: Routes, name: string)
    requires SameRoutes(a, b)
    ensures GroupOf(a, name) == GroupOf(b, name)
  {
    var a0, b0 := a.(buckets := map[]), b.(buckets := map[]);
    assert a.methodGroups == a0.methodGroups && b.methodGroups == b0.methodGroups;
    assert TariffRoute(a, name) == TariffRoute(a0, name) && TariffRoute(b, name) == TariffRoute(b0, name);
  }

  // After any refreshes every method routes as on a fresh limiter with the same static
  // limits and the last refresh alone.
  lemma LastRefreshRoutes(limits: seq<Limit>, tariffs: seq<seq<UnaryLimit>>, last: seq<UnaryLimit>, name: string)
    ensures var fixed := Updated(NO_ROUTES, limits);
            GroupOf(RefreshedAll(fixed, tariffs + [last]), name) == GroupOf(RefreshedAll(fixed, [last]), name)
  {
    var fixed := Updated(NO_ROUTES, limits);
    var r := RefreshedAll(fixed, tariffs);
    RefreshesKeepStatic(limits, tariffs);
    UpdatedTables(limits);
    RefreshedSnoc(fixed, tariffs, last);
    RefreshedSnoc(fixed, [], last);
    assert [] + [last] == [last] && Cleared(fixed) == fixed;
    OverlaySame(Cleared(r), fixed, TariffLimits(last));
    SameRoutesRoute(Refreshed(r, TariffLimits(last)), Refreshed(fixed, TariffLimits(last)), name);
  }

  // Unless a static limit has a tariff's name, the buckets are those of that fresh
  // limiter too: nothing of an earlier refresh is left.
  lemma LastRefreshDecides(limits: seq<Limit>, tariffs: seq<seq<UnaryLimit>>, last: seq<UnaryLimit>)
    requires forall k :: 0 <= k < |limits| ==> !IsTariffName(limits[k].group)
    ensures var fixed := Updated(NO_ROUTES, limits);
            RefreshedAll(fixed, tariffs + [last]) == RefreshedAll(fixed, [last])
  {
    var fixed := Updated(NO_ROUTES, limits);
    RefreshesKeepStatic(limits, tariffs);
    UpdatedTables(limits);
    var r := RefreshedAll(fixed, tariffs);
    RefreshedSnoc(fixed, tariffs, last);
    RefreshedSnoc(fixed, [], last);
    assert [] + [last] == [last] && Cleared(fixed) == fixed;
    ClearedBuckets(limits, tariffs);
  }

  lemma ClearedBuckets(limits: seq<Limit>, tariffs: seq<seq<UnaryLimit>>)
    requires forall k :: 0 <= k < |limits| ==> !IsTariffName(limits[k].group)
    ensures Cleared(RefreshedAll(Updated(NO_ROUTES, limits), tariffs)).buckets == Updated(NO_ROUTES, limits).buckets
  {
    var fixed := Updated(NO_ROUTES, limits);
    var r := RefreshedAll(fixed, tariffs);
    RefreshesKeepStatic(limits, tariffs);
    StaticNames(limits);
    assert forall g :: g in Cleared(r).buckets ==> g in fixed.buckets && !IsTariffName(g);
    assert forall g :: g in fixed.buckets ==> !IsTariffName(g) && g in r.buckets;
  }

  lemma {:induction false} StaticNames(limits: seq<Limit>)
    requires forall k :: 0 <= k < |limits| ==> !IsTariffName(limits[k].group)
    ensures forall g :: g in Updated(NO_ROUTES, limits).buckets ==> !IsTariffName(g)
  {
    if limits != [] {
      StaticNames(limits[..|limits|-1]);
    }
  }

  // A method that routes to a named group finds that group's bucket.
  ghost predicate Limited(r: Routes, name: string) {
    GroupOf(r, name) == "" || GroupOf(r, name) in r.buckets
  }

  ghost predicate AlwaysLimited(limits: seq<Limit>) {
    forall tariffs, name :: Limited(RefreshedAll(Updated(NO_ROUTES, limits), tariffs), name)
  }

  ghost predicate FallsBackOnTariffName(limits: seq<Limit>, name: string) {
    IsTariffName(StaticRoute(Updated(NO_ROUTES, limits), name))
  }

  // Every group that routing returns has a bucket, whatever tariffs arrive, exactly when
  // no method falls back to a static group that carries a tariff's name.
  lemma AlwaysLimitedIff(limits: seq<Limit>)
    ensures AlwaysLimited(limits) <==> forall name :: !FallsBackOnTariffName(limits, name)
  {
    if name :| FallsBackOnTariffName(limits, name) {
      var k: nat :| StaticRoute(Updated(NO_ROUTES, limits), name) == TariffName(k);
      BucketIsLost(limits, name, k);
    } else {
      forall tariffs, name ensures Limited(RefreshedAll(Updated(NO_ROUTES, limits), tariffs), name) {
        assert !FallsBackOnTariffName(limits, name);
        RoutedIsLimited(limits, tariffs, name);
      }
    }
  }

  lemma StaticRouteKept(limits: seq<Limit>, tariffs: seq<seq<UnaryLimit>>, name: string)
    ensures StaticRoute(RefreshedAll(Updated(NO_ROUTES, limits), tariffs), name) ==
            StaticRoute(Updated(NO_ROUTES, limits), name)
  {
    var fixed := Updated(NO_ROUTES, limits);
    var r := RefreshedAll(fixed, tariffs);
    RefreshesKeepStatic(limits, tariffs);
    var a, b := Cleared(r).(buckets := map[]), fixed.(buckets := map[]);
    assert a == b && a.methodGroups == r.methodGroups && b.methodGroups == fixed.methodGroups;
    assert a.serviceGroups == r.serviceGroups && a.defaultGroup == r.defaultGroup;
  }

  lemma StaticRouteIsIn(r: Routes, name: string)
    requires StaticTables(r)
    ensures StaticRoute(r, name) == "" || StaticRoute(r, name) in r.buckets
  {}

  lemma TariffRouteIsIn(r: Routes, name: string)
    requires AllIn(r.tariffMethods, r.buckets) && r.tariffServices == map[]
    ensures TariffRoute(r, name) == "" || TariffRoute(r, name) in r.buckets
  {}

  lemma RoutedIsLimited(limits: seq<Limit>, tariffs: seq<seq<UnaryLimit>>, name: string)
    requires !IsTariffName(StaticRoute(Updated(NO_ROUTES, limits), name))
    ensures Limited(RefreshedAll(Updated(NO_ROUTES, limits), tariffs), name)
  {
    var fixed := Updated(NO_ROUTES, limits);
    UpdatedTables(limits);
    RefreshesKeepStatic(limits, tariffs);
    StaticRouteKept(limits, tariffs, name);
    StaticRouteIsIn(fixed, name);
    TariffRouteIsIn(RefreshedAll(fixed, tariffs), name);
  }

  // k+1 priced groups without methods: their names reach "tariff-k", they route nothing.
  function Unrouted(n: nat): seq<UnaryLimit> {
    if n == 0 then [] else Unrouted(n - 1) + [UnaryLimit([], 60, 0)]
  }

  lemma {:induction false} UnroutedLimits(n: nat)
    ensures |Unrouted(n)| == n && |TariffLimits(Unrouted(n))| == n
    ensures n > 0 ==> TariffLimits(Unrouted(n))[n-1].group == TariffName(n - 1)
  {
    if n > 0 {
      UnroutedLimits(n - 1);
      assert Unrouted(n)[..n-1] == Unrouted(n - 1);
    }
  }

  // A tariff that reaches the static group's name, then one that does not: the second
  // refresh drops the static bucket, and the method is no longer limited.
  lemma BucketIsLost(limits: seq<Limit>, name: string, k: nat)
    requires StaticRoute(Updated(NO_ROUTES, limits), name) == TariffName(k)
    ensures !Limited(RefreshedAll(Updated(NO_ROUTES, limits), [Unrouted(k + 1), []]), name)
  {
    var fixed := Updated(NO_ROUTES, limits);
    var first := Refreshed(fixed, TariffLimits(Unrouted(k + 1)));
    RefreshedSnoc(fixed, [], Unrouted(k + 1));
    RefreshedSnoc(fixed, [Unrouted(k + 1)], []);
    assert [] + [Unrouted(k + 1)] == [Unrouted(k + 1)];
    assert [Unrouted(k + 1)] + [[]] == [Unrouted(k + 1), []];
    assert RefreshedAll(fixed, [Unrouted(k + 1), []]) == Cleared(first);
    UnroutedIn(Cleared(fixed), k);
    TariffNameFacts(k, k);
    StaticRouteKept(limits, [Unrouted(k + 1), []], name);
    NoTariffRoute(Cleared(first), name);
  }

  lemma UnroutedIn(r: Routes, k: nat)
    ensures TariffName(k) in OverlaidAll(r, TariffLimits(Unrouted(k + 1))).tariffGroups
  {
    UnroutedLimits(k + 1);
    TariffLimitsAre(Unrouted(k + 1));
    assert FromTariff(TariffLimits(Unrouted(k + 1))[k]);
  }

  lemma NoTariffRoute(r: Routes, name: string)
    requires NoOverlay(r)
    ensures TariffRoute(r, name) == ""
  {}

  // ---- what a refresh installs ----

  lemma OneOverlaid(r: Routes, group: UnaryLimit, i: nat)
    requires Priced(group)
    ensures var s := Overlaid(r, TariffLimit(group, i));
            && s.buckets == r.buckets[TariffName(i) := ShapeOf(TariffLimit(group, i))]
            && s.tariffMethods == WithMethods(r.tariffMethods, group.methods, TariffName(i))
  {
    TariffNameFacts(i, i);
    assert Installable(TariffLimit(group, i));
  }

  lemma OverlaidSnoc(r: Routes, groups: seq<UnaryLimit>)
    requires groups != []
    ensures var n: nat := |groups| - 1; var before := OverlaidAll(r, TariffLimits(groups[..n]));
            OverlaidAll(r, TariffLimits(groups)) ==
              if Priced(groups[n]) then Overlaid(before, TariffLimit(groups[n], n)) else before
  {
    var n: nat := |groups| - 1;
    var before := TariffLimits(groups[..n]);
    if Priced(groups[n]) {
      var limits := before + [TariffLimit(groups[n], n)];
      assert TariffLimits(groups) == limits && limits[..|limits|-1] == before;
    } else {
      assert TariffLimits(groups) == before;
    }
  }

  // Every priced tariff group has its own bucket, with its own rate and burst.
  lemma {:induction false} TariffBuckets(r: Routes, groups: seq<UnaryLimit>, i: nat)
    requires i < |groups| && Priced(groups[i])
    ensures var s := OverlaidAll(r, TariffLimits(groups));
            TariffName(i) in s.buckets && s.buckets[TariffName(i)] == ShapeOf(TariffLimit(groups[i], i))
  {
    var n := |groups| - 1;
    TariffNameFacts(i, n);
    OverlaidSnoc(r, groups);
    if Priced(groups[n]) {
      OneOverlaid(OverlaidAll(r, TariffLimits(groups[..n])), groups[n], n);
    }
    if i < n {
      TariffBuckets(r, groups[..n], i);
    }
  }

  predicate Lists(methods: seq<string>, key: string) {
    exists j :: 0 <= j < |methods| && ConfiguredMethodKey(methods[j]) == key
  }

  lemma {:induction false} ListedMapped(m: map<string, string>, methods: seq<string>, group: string, key: string)
    ensures Get(WithMethods(m, methods, group), key) == if Lists(methods, key) then group else Get(m, key)
  {
    if methods != [] {
      var n := |methods| - 1;
      ListedMapped(m, methods[..n], group, key);
      assert Lists(methods, key) == (Lists(methods[..n], key) || ConfiguredMethodKey(methods[n]) == key) by {
        if Lists(methods[..n], key) {
          var j :| 0 <= j < n && ConfiguredMethodKey(methods[..n][j]) == key;
          assert ConfiguredMethodKey(methods[j]) == key;
        }
        if Lists(methods, key) {
          var j :| 0 <= j <= n && ConfiguredMethodKey(methods[j]) == key;
          assert j < n ==> ConfiguredMethodKey(methods[..n][j]) == key;
        }
      }
    }
  }

  // The last priced group that lists a key, if any.
  function Lister(groups: seq<UnaryLimit>, key: string): Option<nat> {
    if groups == [] then None
    else
      var n := |groups| - 1;
      if Priced(groups[n]) && Lists(groups[n].methods, key)
      then Some(n)
      else Lister(groups[..n], key)
  }

  lemma {:induction false} OverlayListed(r: Routes, groups: seq<UnaryLimit>, key: string)
    ensures Get(OverlaidAll(r, TariffLimits(groups)).tariffMethods, key)
              == match Lister(groups, key) case Some(i) => TariffName(i) case None => Get(r.tariffMethods, key)
  {
    if groups != [] {
      var n := |groups| - 1;
      OverlayListed(r, groups[..n], key);
      OverlaidSnoc(r, groups);
      if Priced(groups[n]) {
        var before := OverlaidAll(r, TariffLimits(groups[..n]));
        OneOverlaid(before, groups[n], n);
        ListedMapped(before.tariffMethods, groups[n].methods, TariffName(n), key);
      }
    }
  }

  // A call is limited by the last priced tariff group that lists its full path, else by
  // the last that lists its bare name, else by the static limits.
  lemma RefreshedRoute(limits: seq<Limit>, tariffs: seq<seq<UnaryLimit>>, last: seq<UnaryLimit>, name: string)
    ensures var fixed := Updated(NO_ROUTES, limits);
            GroupOf(RefreshedAll(fixed, tariffs + [last]), name) ==
              match Lister(last, name)
              case Some(i) => TariffName(i)
              case None =>
                match Lister(last, MethodKey(name))
                case Some(i) => TariffName(i)
                case None => StaticRoute(fixed, name)
  {
    var fixed := Updated(NO_ROUTES, limits);
    var r := Cleared(RefreshedAll(fixed, tariffs));
    RefreshedSnoc(fixed, tariffs, last);
    RefreshesKeepStatic(limits, tariffs + [last]);
    StaticRouteKept(limits, tariffs + [last], name);
    OverlayListed(r, last, name);
    OverlayListed(r, last, MethodKey(name));
    NamesAreNotEmpty(Lister(last, name));
    NamesAreNotEmpty(Lister(last, MethodKey(name)));
  }

  lemma NamesAreNotEmpty(i: Option<nat>)
    ensures i.Some? ==> TariffName(i.value) != ""
  {}
}
