/** What limits a call, in terms of the configured limits and the tariff: rates and bursts,
    and which names lead to which group. */
module Quotas {
  import opened Numerals
  import opened Wrappers
  import opened TokenBuckets
  import opened Routing

  // ---- rates and bursts ----

  // The tightest of the limits that apply: a positive rate that exceeds neither the calls
  // per minute nor the calls per second, and is one of the two.
  predicate Tightest(rate: real, perMinute: int, perSecond: int) {
    && rate > 0.0
    && (perMinute > 0 ==> rate * 60.0 <= perMinute as real)
    && (perSecond > 0 ==> rate <= perSecond as real)
    && ((perMinute > 0 && rate * 60.0 == perMinute as real) || (perSecond > 0 && rate == perSecond as real))
  }

  predicate Limits(perMinute: int, perSecond: int) {
    perMinute > 0 || perSecond > 0
  }

  // A tariff group's burst: ten, or the calls per second where those are fewer; the calls per
  // minute count instead only when there is no limit per second at all.
  predicate TariffCapacity(capacity: real, perMinute: int, perSecond: int) {
    && capacity <= 10.0
    && (perSecond > 0 ==> capacity <= perSecond as real && (capacity == 10.0 || capacity == perSecond as real))
    && (perSecond == 0 ==> capacity <= perMinute as real && (capacity == 10.0 || capacity == perMinute as real))
    && (perSecond < 0 ==> capacity == 10.0)
  }

  lemma RateIsTightest(limit: Limit)
    ensures Installable(limit) <==> limit.group != "" && Limits(limit.perMinute, limit.perSecond)
    ensures Limits(limit.perMinute, limit.perSecond) ==>
              Tightest(EffectiveRate(limit), limit.perMinute, limit.perSecond)
  {}

  lemma CapacityIsLeast(group: UnaryLimit, i: nat)
    requires Limits(group.perMinute, group.perSecond)
    ensures TariffCapacity(ShapeOf(TariffLimit(group, i)).capacity, group.perMinute, group.perSecond)
  {}

  // After any refreshes every group of the last tariff that limits at all has its own
  // bucket, with the tightest of its limits and the least of its bursts.
  lemma TariffRates(r: Routes, tariffs: seq<seq<UnaryLimit>>, last: seq<UnaryLimit>, i: nat)
    requires i < |last| && Limits(last[i].perMinute, last[i].perSecond)
    ensures var buckets := RefreshedAll(r, tariffs + [last]).buckets;
            && "tariff-" + Digits(i) in buckets
            && Tightest(buckets["tariff-" + Digits(i)].rate, last[i].perMinute, last[i].perSecond)
            && TariffCapacity(buckets["tariff-" + Digits(i)].capacity, last[i].perMinute, last[i].perSecond)
  {
    RefreshedSnoc(r, tariffs, last);
    TariffBuckets(Cleared(RefreshedAll(r, tariffs)), last, i);
    RateIsTightest(TariffLimit(last[i], i));
    CapacityIsLeast(last[i], i);
  }

  // The last limit that satisfies a condition on its group.
  ghost predicate LastOf(limits: seq<Limit>, group: string, k: int) {
    && 0 <= k < |limits| && Counts(limits[k]) && limits[k].group == group
    && forall j :: k < j < |limits| && Counts(limits[j]) ==> limits[j].group != group
  }

  // A limit counts when it names a group and limits something.
  predicate Counts(limit: Limit) {
    limit.group != "" && Limits(limit.perMinute, limit.perSecond)
  }

  // Static groups: one bucket for every group that some limit counts for, with the last such
  // limit's tightest rate and its burst, or one where that is not positive.
  lemma {:induction false} StaticRates(limits: seq<Limit>, group: string)
    ensures group in Updated(NO_ROUTES, limits).buckets <==> exists k :: LastOf(limits, group, k)
    ensures forall k :: LastOf(limits, group, k) ==>
              && group in Updated(NO_ROUTES, limits).buckets
              && StaticShape(Updated(NO_ROUTES, limits).buckets[group], limits[k])
  {
    if limits != [] {
      var n := |limits| - 1;
      StaticRates(limits[..n], group);
      RateIsTightest(limits[n]);
      LastSnoc(limits, group);
      if k :| LastOf(limits[..n], group, k) {
        assert LastOf(limits, group, k) <==> !(Counts(limits[n]) && limits[n].group == group);
      }
      assert LastOf(limits, group, n) <==> Counts(limits[n]) && limits[n].group == group;
    }
  }

  predicate StaticShape(s: Shape, limit: Limit) {
    Tightest(s.rate, limit.perMinute, limit.perSecond)
    && s.capacity == if limit.burst > 0 then limit.burst as real else 1.0
  }

  lemma LastSnoc(limits: seq<Limit>, group: string)
    requires limits != []
    ensures var n := |limits| - 1;
            forall k :: LastOf(limits, group, k) <==>
              if k == n then Counts(limits[n]) && limits[n].group == group
              else LastOf(limits[..n], group, k) && !(Counts(limits[n]) && limits[n].group == group)
  {
    assert forall j :: 0 <= j < |limits| - 1 ==> limits[j] == limits[..|limits|-1][j];
  }

  // Refreshes leave the static groups' buckets as they are, unless a tariff uses their name.
  lemma StaticRatesKept(limits: seq<Limit>, tariffs: seq<seq<UnaryLimit>>, group: string)
    requires !IsTariffName(group)
    ensures var fixed := Updated(NO_ROUTES, limits);
            && (group in RefreshedAll(fixed, tariffs).buckets <==> group in fixed.buckets)
            && (group in fixed.buckets ==> RefreshedAll(fixed, tariffs).buckets[group] == fixed.buckets[group])
  {
    RefreshesKeepStatic(limits, tariffs);
  }

  // ---- names ----

  // A full path is "/package.Service/Method": its bare name is the method, its service the
  // name without the package.
  lemma PathParts(package: string, service: string, method_: string)
    requires '/' !in method_ && '/' !in service && '.' !in service && service != ""
    ensures MethodKey("/" + package + "." + service + "/" + method_) == method_
    ensures ServiceName("/" + package + "." + service + "/" + method_) == service
    ensures MethodKey("/" + service + "/" + method_) == method_
    ensures ServiceName("/" + service + "/" + method_) == service
    ensures ServiceName(service + "/" + method_) == service
  {
    LastIndexAt("/" + package + "." + service, '/', method_);
    LastIndexAt("/" + package, '.', service);
    LastIndexAt("/" + service, '/', method_);
    LastIndexAt(service, '/', method_);
    var qualified, plain := "/" + package + "." + service, "/" + service;
    assert "/" + package + "." + service + "/" + method_ == qualified + ['/'] + method_;
    assert qualified == "/" + package + ['.'] + service;
    assert plain + "/" + method_ == plain + ['/'] + method_;
    assert service + "/" + method_ == service + ['/'] + method_;
    assert '.' !in plain && plain[1..] == service;
  }

  // A name without a slash is its own bare name and has no service.
  lemma BareName(name: string)
    requires '/' !in name
    ensures MethodKey(name) == name && ServiceName(name) == "" && ServiceName("/" + name) == ""
    ensures MethodKey("/" + name) == name
  {
    LastIndexAt("", '/', name);
    assert "/" + name == "" + ['/'] + name;
  }

  lemma LastIndexAt(before: string, c: char, after: string)
    requires c !in after
    ensures LastIndex(before + [c] + after, c) == |before|
    ensures (before + [c] + after)[..|before|] == before && (before + [c] + after)[|before|+1..] == after
  {
    OnlyLastIndex(before + [c] + after, c, |before|);
  }

  lemma OnlyLastIndex(s: string, c: char, i: nat)
    requires i < |s| && s[i] == c && c !in s[i+1..]
    ensures LastIndex(s, c) == i
  {
    forall k | i < k < |s| ensures s[k] != c {
      assert s[i+1..][k - i - 1] == s[k];
    }
  }

  // Methods are configured by the very names they are listed under.
  lemma ConfiguredAsListed(name: string)
    ensures ConfiguredMethodKey(name) == name
  {}

  // ---- where static limits lead ----

  // The group of the last limit that counts and lists the name among its methods, or among
  // its services.
  function MethodGroup(limits: seq<Limit>, name: string): string {
    if limits == [] then ""
    else
      var last := limits[|limits|-1];
      if Counts(last) && name in last.methods then last.group else MethodGroup(limits[..|limits|-1], name)
  }

  function ServiceGroup(limits: seq<Limit>, name: string): string {
    if limits == [] then ""
    else
      var last := limits[|limits|-1];
      if Counts(last) && name in last.services then last.group else ServiceGroup(limits[..|limits|-1], name)
  }

  // A call without a tariff group goes to the last static limit that lists its full path,
  // else its bare name, else its service, else to the default group if there is one.
  lemma StaticRouteIs(limits: seq<Limit>, tariffs: seq<seq<UnaryLimit>>, name: string)
    ensures StaticRoute(RefreshedAll(Updated(NO_ROUTES, limits), tariffs), name) ==
              if MethodGroup(limits, name) != "" then MethodGroup(limits, name)
              else if MethodGroup(limits, MethodKey(name)) != "" then MethodGroup(limits, MethodKey(name))
              else if ServiceGroup(limits, ServiceName(name)) != "" then ServiceGroup(limits, ServiceName(name))
              else if HasDefault(limits) then "default" else ""
  {
    StaticRouteKept(limits, tariffs, name);
    StaticTablesAre(limits, name);
    StaticTablesAre(limits, MethodKey(name));
    StaticTablesAre(limits, ServiceName(name));
    DefaultIs(limits);
  }

  // Some limit that counts is for the default group.
  ghost predicate HasDefault(limits: seq<Limit>) {
    exists k :: 0 <= k < |limits| && Counts(limits[k]) && limits[k].group == "default"
  }

  lemma {:induction false} DefaultIs(limits: seq<Limit>)
    ensures Updated(NO_ROUTES, limits).defaultGroup == if HasDefault(limits) then "default" else ""
  {
    if limits != [] {
      var n := |limits| - 1;
      DefaultIs(limits[..n]);
      RateIsTightest(limits[n]);
      assert forall k :: 0 <= k < n ==> limits[k] == limits[..n][k];
      if HasDefault(limits) {
        var k :| 0 <= k < |limits| && Counts(limits[k]) && limits[k].group == "default";
        assert k < n ==> Counts(limits[..n][k]) && limits[..n][k].group == "default";
      }
    }
  }

  lemma {:induction false} StaticTablesAre(limits: seq<Limit>, key: string)
    ensures var r := Updated(NO_ROUTES, limits);
            && Get(r.methodGroups, key) == MethodGroup(limits, key)
            && Get(r.serviceGroups, key) == ServiceGroup(limits, key)
  {
    if limits != [] {
      var n := |limits| - 1;
      var before := Updated(NO_ROUTES, limits[..n]);
      StaticTablesAre(limits[..n], key);
      RateIsTightest(limits[n]);
      MethodsMapped(before.methodGroups, limits[n].methods, limits[n].group, key);
      ServicesMapped(before.serviceGroups, limits[n].services, limits[n].group, key);
    }
  }

  lemma {:induction false} MethodsMapped(m: map<string, string>, methods: seq<string>, group: string, key: string)
    ensures Get(WithMethods(m, methods, group), key) == if key in methods then group else Get(m, key)
  {
    if methods != [] {
      var n := |methods| - 1;
      MethodsMapped(m, methods[..n], group, key);
      ConfiguredAsListed(methods[n]);
      assert methods == methods[..n] + [methods[n]];
    }
  }

  lemma {:induction false} ServicesMapped(m: map<string, string>, services: seq<string>, group: string, key: string)
    ensures Get(WithServices(m, services, group), key) == if key in services then group else Get(m, key)
  {
    if services != [] {
      var n := |services| - 1;
      ServicesMapped(m, services[..n], group, key);
      assert services == services[..n] + [services[n]];
    }
  }

  // ---- where a tariff leads ----

  // The last group that limits at all and lists the name.
  ghost predicate LastLister(groups: seq<UnaryLimit>, name: string, i: int) {
    && 0 <= i < |groups| && ListsName(groups[i], name)
    && forall j :: i < j < |groups| ==> !ListsName(groups[j], name)
  }

  predicate ListsName(group: UnaryLimit, name: string) {
    Limits(group.perMinute, group.perSecond) && name in group.methods
  }

  lemma {:induction false} ListerIsLast(groups: seq<UnaryLimit>, name: string)
    ensures Lister(groups, name).Some? ==> LastLister(groups, name, Lister(groups, name).value)
    ensures Lister(groups, name).None? ==> forall i :: 0 <= i < |groups| ==> !ListsName(groups[i], name)
  {
    if groups != [] {
      var n := |groups| - 1;
      ListerIsLast(groups[..n], name);
      ListsAsListed(groups[n].methods, name);
      assert forall i :: 0 <= i < n ==> groups[i] == groups[..n][i];
    }
  }

  lemma ListsAsListed(methods: seq<string>, name: string)
    ensures Lists(methods, name) <==> name in methods
  {
    forall j | 0 <= j < |methods| ensures ConfiguredMethodKey(methods[j]) == methods[j] {
      ConfiguredAsListed(methods[j]);
    }
  }

  // After any refreshes, a call goes to the last group of the last tariff that lists its
  // full path, else to the last that lists its bare name, else where the static limits lead.
  lemma TariffRouteIs(limits: seq<Limit>, tariffs: seq<seq<UnaryLimit>>, last: seq<UnaryLimit>, name: string)
    ensures var group := GroupOf(RefreshedAll(Updated(NO_ROUTES, limits), tariffs + [last]), name);
            && (forall i: nat :: LastLister(last, name, i) ==> group == "tariff-" + Digits(i))
            && (forall i: nat :: LastLister(last, MethodKey(name), i) && NobodyLists(last, name) ==>
                  group == "tariff-" + Digits(i))
            && (NobodyLists(last, name) && NobodyLists(last, MethodKey(name)) ==>
                  group == StaticRoute(Updated(NO_ROUTES, limits), name))
  {
    RefreshedRoute(limits, tariffs, last, name);
    ListerIsLast(last, name);
    ListerIsLast(last, MethodKey(name));
  }

  ghost predicate NobodyLists(groups: seq<UnaryLimit>, name: string) {
    forall i :: 0 <= i < |groups| ==> !ListsName(groups[i], name)
  }
}
