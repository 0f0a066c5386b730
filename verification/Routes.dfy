/** Bridge legs tallied by route (apps/server/src/repos/route-repo.ts, lines 94 to 125). */
module Routes {
  import opened Wrappers
  import opened DigitText
  import opened Amounts
  import Chains

  datatype BridgeLegGroup =
    BridgeLegGroup(protocol: string, fromChainId: int, toChainId: int, legCount: nat, volumeUsd: Amount)

  datatype RouteTally = RouteTally(fromChainSlug: string, toChainSlug: string, legCount: nat, volumes: seq<Amount>)

  /** The canonical slug of a chain a protocol names, if the registry knows it. */
  type ResolveBridgeChain = (string, int) -> Option<string>

  function SlugPair(fromSlug: string, toSlug: string): string {
    fromSlug + ">" + toSlug
  }

  /** The group's two slugs when both of its chains resolve. */
  function RouteOf(group: BridgeLegGroup, resolve: ResolveBridgeChain): Option<(string, string)> {
    var from, to := resolve(group.protocol, group.fromChainId), resolve(group.protocol, group.toChainId);
    if from.None? || to.None? then None else Some((from.value, to.value))
  }

  function KeyOf(tally: RouteTally): string {
    SlugPair(tally.fromChainSlug, tally.toChainSlug)
  }

  function PositionOf(tallies: seq<RouteTally>, key: string): (i: nat)
    ensures i <= |tallies|
    ensures i < |tallies| ==> KeyOf(tallies[i]) == key
    ensures forall j | 0 <= j < i :: KeyOf(tallies[j]) != key
  {
    if tallies == [] || KeyOf(tallies[0]) == key then 0 else 1 + PositionOf(tallies[1..], key)
  }

  function Absorb(tallies: seq<RouteTally>, route: (string, string), group: BridgeLegGroup): seq<RouteTally> {
    var i := PositionOf(tallies, SlugPair(route.0, route.1));
    if i == |tallies| then tallies + [RouteTally(route.0, route.1, group.legCount, [group.volumeUsd])]
    else tallies[i := Grown(tallies[i], group.legCount, group.volumeUsd)]
  }

  /** The tallies after all of `groups`, in order of first appearance. */
  function Tally(groups: seq<BridgeLegGroup>, resolve: ResolveBridgeChain): seq<RouteTally> {
    if groups == [] then []
    else
      var before, group := Tally(groups[..|groups| - 1], resolve), groups[|groups| - 1];
      match RouteOf(group, resolve)
      case None => before
      case Some(route) => Absorb(before, route, group)
  }

  /** The Map points at each key's tally, and at nothing else. */
  ghost predicate Indexes(bySlugPair: map<string, nat>, tallies: seq<RouteTally>) {
    && (forall key | key in bySlugPair :: bySlugPair[key] < |tallies| && KeyOf(tallies[bySlugPair[key]]) == key)
    && (forall j | 0 <= j < |tallies| :: KeyOf(tallies[j]) in bySlugPair && bySlugPair[KeyOf(tallies[j])] == j)
  }

  lemma NewRouteIndexed(bySlugPair: map<string, nat>, tallies: seq<RouteTally>, tally: RouteTally)
    requires Indexes(bySlugPair, tallies) && KeyOf(tally) !in bySlugPair
    ensures Indexes(bySlugPair[KeyOf(tally) := |tallies|], tallies + [tally])
    ensures PositionOf(tallies, KeyOf(tally)) == |tallies|
  {
    hide KeyOf;
    PositionIs(tallies, KeyOf(tally), |tallies|);
  }

  lemma KnownRouteIndexed(bySlugPair: map<string, nat>, tallies: seq<RouteTally>, key: string, legs: nat,
                          volume: Amount)
    requires Indexes(bySlugPair, tallies) && key in bySlugPair
    ensures PositionOf(tallies, key) == bySlugPair[key] < |tallies|
    ensures Indexes(bySlugPair, tallies[bySlugPair[key] := Grown(tallies[bySlugPair[key]], legs, volume)])
  {
    var i := bySlugPair[key];
    GrownKeepsKey(tallies[i], legs, volume);
    hide KeyOf;
    PositionIs(tallies, key, i);
  }

  lemma GrownKeepsKey(t: RouteTally, legs: nat, volume: Amount)
    ensures KeyOf(Grown(t, legs, volume)) == KeyOf(t)
  {
  }

  /** The loop over a Map keyed by slug pair builds those tallies. */
  method TallyRoutesBySlugPair(groups: seq<BridgeLegGroup>, resolve: ResolveBridgeChain)
    returns (tallies: seq<RouteTally>)
    ensures tallies == Tally(groups, resolve)
  {
    hide SlugPair, PositionOf;
    tallies := [];
    var bySlugPair: map<string, nat> := map[];
    for n := 0 to |groups|
      invariant tallies == Tally(groups[..n], resolve)
      invariant Indexes(bySlugPair, tallies)
    {
      var group := groups[n];
      assert groups[..n + 1][..n] == groups[..n];
      var from, to := resolve(group.protocol, group.fromChainId), resolve(group.protocol, group.toChainId);
      if from.None? || to.None? {
        continue;
      }
      var slugPair := SlugPair(from.value, to.value);
      if slugPair !in bySlugPair {
        var tally := RouteTally(from.value, to.value, group.legCount, [group.volumeUsd]);
        NewRouteIndexed(bySlugPair, tallies, tally);
        bySlugPair := bySlugPair[slugPair := |tallies|];
        tallies := tallies + [tally];
        continue;
      }
      var i := bySlugPair[slugPair];
      KnownRouteIndexed(bySlugPair, tallies, slugPair, group.legCount, group.volumeUsd);
      var tallied := tallies[i];
      tallies := tallies[i := tallied.(legCount := tallied.legCount + group.legCount,
                                       volumes := tallied.volumes + [group.volumeUsd])];
    }
    assert groups[..|groups|] == groups;
  }

  lemma {:induction false} PositionIs(tallies: seq<RouteTally>, key: string, i: nat)
    requires i <= |tallies|
    requires i < |tallies| ==> KeyOf(tallies[i]) == key
    requires forall j | 0 <= j < i :: KeyOf(tallies[j]) != key
    ensures PositionOf(tallies, key) == i
  {
    if i > 0 {
      PositionIs(tallies[1..], key, i - 1);
    }
  }

  function LegsCounted(tallies: seq<RouteTally>): nat {
    if tallies == [] then 0 else LegsCounted(tallies[..|tallies| - 1]) + tallies[|tallies| - 1].legCount
  }

  function VolumesCounted(tallies: seq<RouteTally>): seq<Amount> {
    if tallies == [] then [] else VolumesCounted(tallies[..|tallies| - 1]) + tallies[|tallies| - 1].volumes
  }

  /** The groups both of whose chains resolve. */
  function Resolved(groups: seq<BridgeLegGroup>, resolve: ResolveBridgeChain): seq<BridgeLegGroup> {
    if groups == [] then []
    else
      var front, last := Resolved(groups[..|groups| - 1], resolve), groups[|groups| - 1];
      if RouteOf(last, resolve).Some? then front + [last] else front
  }

  function LegsOf(groups: seq<BridgeLegGroup>): nat {
    if groups == [] then 0 else LegsOf(groups[..|groups| - 1]) + groups[|groups| - 1].legCount
  }

  function VolumesOf(groups: seq<BridgeLegGroup>): seq<Amount> {
    seq(|groups|, i requires 0 <= i < |groups| => groups[i].volumeUsd)
  }

  /** A tally with one more leg group counted in. */
  function Grown(t: RouteTally, legs: nat, volume: Amount): RouteTally {
    t.(legCount := t.legCount + legs, volumes := t.volumes + [volume])
  }

  lemma {:induction false} LegsAfterUpdate(tallies: seq<RouteTally>, i: nat, legs: nat, volume: Amount)
    requires i < |tallies|
    ensures LegsCounted(tallies[i := Grown(tallies[i], legs, volume)]) == LegsCounted(tallies) + legs
  {
    var n, updated := |tallies| - 1, tallies[i := Grown(tallies[i], legs, volume)];
    if i == n {
      assert updated[..n] == tallies[..n];
    } else {
      LegsAfterUpdate(tallies[..n], i, legs, volume);
      assert updated[..n] == tallies[..n][i := updated[i]];
    }
  }

  lemma {:induction false} VolumesAfterUpdate(tallies: seq<RouteTally>, i: nat, legs: nat, volume: Amount)
    requires i < |tallies|
    ensures multiset(VolumesCounted(tallies[i := Grown(tallies[i], legs, volume)]))
            == multiset(VolumesCounted(tallies)) + multiset{volume}
  {
    var n, updated := |tallies| - 1, tallies[i := Grown(tallies[i], legs, volume)];
    if i == n {
      assert updated[..n] == tallies[..n];
    } else {
      VolumesAfterUpdate(tallies[..n], i, legs, volume);
      assert updated[..n] == tallies[..n][i := updated[i]];
    }
  }

  lemma AbsorbConserves(tallies: seq<RouteTally>, route: (string, string), group: BridgeLegGroup)
    ensures LegsCounted(Absorb(tallies, route, group)) == LegsCounted(tallies) + group.legCount
    ensures multiset(VolumesCounted(Absorb(tallies, route, group)))
            == multiset(VolumesCounted(tallies)) + multiset{group.volumeUsd}
  {
    var i := PositionOf(tallies, SlugPair(route.0, route.1));
    if i == |tallies| {
      assert Absorb(tallies, route, group)[..|tallies|] == tallies;
    } else {
      LegsAfterUpdate(tallies, i, group.legCount, group.volumeUsd);
      VolumesAfterUpdate(tallies, i, group.legCount, group.volumeUsd);
    }
  }

  lemma AppendGroup(groups: seq<BridgeLegGroup>, group: BridgeLegGroup)
    ensures LegsOf(groups + [group]) == LegsOf(groups) + group.legCount
    ensures VolumesOf(groups + [group]) == VolumesOf(groups) + [group.volumeUsd]
  {
    assert (groups + [group])[..|groups|] == groups;
  }

  /** No leg and no volume of a resolved group is lost or counted twice, whatever the slugs are. */
  lemma {:induction false} TallyConserves(groups: seq<BridgeLegGroup>, resolve: ResolveBridgeChain)
    ensures LegsCounted(Tally(groups, resolve)) == LegsOf(Resolved(groups, resolve))
    ensures multiset(VolumesCounted(Tally(groups, resolve))) == multiset(VolumesOf(Resolved(groups, resolve)))
  {
    if groups == [] {
    } else {
      var front, group := groups[..|groups| - 1], groups[|groups| - 1];
      TallyConserves(front, resolve);
      if RouteOf(group, resolve).Some? {
        AbsorbConserves(Tally(front, resolve), RouteOf(group, resolve).value, group);
        AppendGroup(Resolved(front, resolve), group);
      }
    }
  }

  /** Hence the grand total of the published volumes is the grand total of the groups'. */
  lemma TallyConservesVolume(groups: seq<BridgeLegGroup>, resolve: ResolveBridgeChain)
    ensures SumUsdAmounts(VolumesCounted(Tally(groups, resolve))) == SumUsdAmounts(VolumesOf(Resolved(groups, resolve)))
  {
    TallyConserves(groups, resolve);
    SumIgnoresOrder(VolumesCounted(Tally(groups, resolve)), VolumesOf(Resolved(groups, resolve)));
  }

  /** Every tally runs from the chain a group left to the chain it reached. */
  lemma {:induction false} TalliesRunFromTo(groups: seq<BridgeLegGroup>, resolve: ResolveBridgeChain, i: nat)
    requires i < |Tally(groups, resolve)|
    ensures var t := Tally(groups, resolve)[i];
            exists g | g in groups ::
              && resolve(g.protocol, g.fromChainId) == Some(t.fromChainSlug)
              && resolve(g.protocol, g.toChainId) == Some(t.toChainSlug)
  {
    hide SlugPair, PositionOf;
    var n := |groups| - 1;
    var before, t := Tally(groups[..n], resolve), Tally(groups, resolve)[i];
    if i < |before| {
      TalliesRunFromTo(groups[..n], resolve, i);
      var g :| && g in groups[..n] && resolve(g.protocol, g.fromChainId) == Some(before[i].fromChainSlug)
               && resolve(g.protocol, g.toChainId) == Some(before[i].toChainSlug);
      assert g in groups;
      assert t.fromChainSlug == before[i].fromChainSlug && t.toChainSlug == before[i].toChainSlug;
    } else {
      assert groups[n] in groups;
    }
  }

  /** The resolved groups of one pair of chains. */
  function GroupsOn(route: (string, string), groups: seq<BridgeLegGroup>, resolve: ResolveBridgeChain)
    : seq<BridgeLegGroup>
  {
    if groups == [] then []
    else
      var front, last := GroupsOn(route, groups[..|groups| - 1], resolve), groups[|groups| - 1];
      if RouteOf(last, resolve) == Some(route) then front + [last] else front
  }

  ghost predicate SlugsLackSeparator(resolve: ResolveBridgeChain) {
    forall protocol, chainId :: resolve(protocol, chainId).Some? ==> '>' !in resolve(protocol, chainId).value
  }

  ghost predicate TalliesRoute(t: RouteTally, groups: seq<BridgeLegGroup>, resolve: ResolveBridgeChain) {
    var on := GroupsOn((t.fromChainSlug, t.toChainSlug), groups, resolve);
    on != [] && t.legCount == LegsOf(on) && t.volumes == VolumesOf(on)
  }

  /** One tally per route, holding exactly that route's groups in their order. */
  ghost predicate TalliesByRoute(tallies: seq<RouteTally>, groups: seq<BridgeLegGroup>, resolve: ResolveBridgeChain) {
    && (forall i | 0 <= i < |tallies| :: TalliesRoute(tallies[i], groups, resolve))
    && (forall i, j | 0 <= i < j < |tallies| ::
          (tallies[i].fromChainSlug, tallies[i].toChainSlug) != (tallies[j].fromChainSlug, tallies[j].toChainSlug))
    && (forall route | GroupsOn(route, groups, resolve) != [] ::
          exists i :: 0 <= i < |tallies| && (tallies[i].fromChainSlug, tallies[i].toChainSlug) == route)
  }

  lemma SlugPairInjective(a: (string, string), b: (string, string))
    requires '>' !in a.0 && '>' !in b.0
    requires SlugPair(a.0, a.1) == SlugPair(b.0, b.1)
    ensures a == b
  {
    SplitAtJoin(a.0, '>', a.1);
    SplitAtJoin(b.0, '>', b.1);
  }

  /** No two routes of the groups share a key. */
  ghost predicate KeysSeparate(groups: seq<BridgeLegGroup>, resolve: ResolveBridgeChain) {
    forall a, b | GroupsOn(a, groups, resolve) != [] && GroupsOn(b, groups, resolve) != [] ::
      SlugPair(a.0, a.1) == SlugPair(b.0, b.1) ==> a == b
  }

  lemma FrontKeysSeparate(groups: seq<BridgeLegGroup>, resolve: ResolveBridgeChain)
    requires groups != [] && KeysSeparate(groups, resolve)
    ensures KeysSeparate(groups[..|groups| - 1], resolve)
  {
    hide SlugPair;
    assert forall route | GroupsOn(route, groups[..|groups| - 1], resolve) != [] ::
        GroupsOn(route, groups, resolve) != [];
  }

  lemma {:induction false} SeparateKeysTallyByRoute(groups: seq<BridgeLegGroup>, resolve: ResolveBridgeChain)
    requires KeysSeparate(groups, resolve)
    ensures TalliesByRoute(Tally(groups, resolve), groups, resolve)
  {
    hide KeysSeparate, Absorb, SlugPair, TalliesRoute;
    if groups == [] {
    } else {
      var front, group := groups[..|groups| - 1], groups[|groups| - 1];
      FrontKeysSeparate(groups, resolve);
      SeparateKeysTallyByRoute(front, resolve);
      var before := Tally(front, resolve);
      if RouteOf(group, resolve).None? {
        SkipKeepsByRoute(groups, resolve, before);
      } else {
        var route := RouteOf(group, resolve).value;
        KeysFollowRoutes(groups, resolve, before, route);
        AbsorbKeepsByRoute(groups, resolve, before, route);
      }
    }
  }

  ghost predicate KeysDiffer(tallies: seq<RouteTally>) {
    forall i, j | 0 <= i < j < |tallies| :: KeyOf(tallies[i]) != KeyOf(tallies[j])
  }

  /** Whatever the slugs, every key has one tally. */
  lemma {:induction false} TallyKeysDiffer(groups: seq<BridgeLegGroup>, resolve: ResolveBridgeChain)
    ensures KeysDiffer(Tally(groups, resolve))
  {
    hide SlugPair;
    if groups != [] {
      TallyKeysDiffer(groups[..|groups| - 1], resolve);
    }
  }

  /** There is one tally per route, holding exactly that route's groups, exactly when no two routes share a key. */
  lemma TallyIsByRoute(groups: seq<BridgeLegGroup>, resolve: ResolveBridgeChain)
    ensures TalliesByRoute(Tally(groups, resolve), groups, resolve) <==> KeysSeparate(groups, resolve)
  {
    hide Tally, GroupsOn, SlugPair, TalliesRoute;
    if KeysSeparate(groups, resolve) {
      SeparateKeysTallyByRoute(groups, resolve);
    }
    var tallies := Tally(groups, resolve);
    TallyKeysDiffer(groups, resolve);
    if TalliesByRoute(tallies, groups, resolve) {
      forall a, b | GroupsOn(a, groups, resolve) != [] && GroupsOn(b, groups, resolve) != []
                    && SlugPair(a.0, a.1) == SlugPair(b.0, b.1)
        ensures a == b
      {
        var i :| 0 <= i < |tallies| && (tallies[i].fromChainSlug, tallies[i].toChainSlug) == a;
        var j :| 0 <= j < |tallies| && (tallies[j].fromChainSlug, tallies[j].toChainSlug) == b;
        assert KeyOf(tallies[i]) == KeyOf(tallies[j]);
      }
    }
  }

  lemma {:induction false} SomeGroupIsOn(route: (string, string), groups: seq<BridgeLegGroup>,
                                         resolve: ResolveBridgeChain)
    returns (group: BridgeLegGroup)
    requires GroupsOn(route, groups, resolve) != []
    ensures RouteOf(group, resolve) == Some(route)
  {
    group := groups[|groups| - 1];
    if RouteOf(group, resolve) != Some(route) {
      group := SomeGroupIsOn(route, groups[..|groups| - 1], resolve);
    }
  }

  /** Slugs free of the separator keep all routes apart. */
  lemma PlainSlugsSeparate(groups: seq<BridgeLegGroup>, resolve: ResolveBridgeChain)
    requires SlugsLackSeparator(resolve)
    ensures KeysSeparate(groups, resolve) && TalliesByRoute(Tally(groups, resolve), groups, resolve)
  {
    hide SlugPair, GroupsOn, TalliesByRoute;
    forall a, b | GroupsOn(a, groups, resolve) != [] && GroupsOn(b, groups, resolve) != []
                  && SlugPair(a.0, a.1) == SlugPair(b.0, b.1)
      ensures a == b
    {
      var one := SomeGroupIsOn(a, groups, resolve);
      var other := SomeGroupIsOn(b, groups, resolve);
      SlugPairInjective(a, b);
    }
    TallyIsByRoute(groups, resolve);
  }

  /** The registry the server is wired with. */
  function RegistrySlug(protocol: string, chainId: int): Option<string> {
    var entry := Chains.ResolveBridgeChain(protocol, chainId);
    if entry.None? then None else Some(entry.value.canonicalSlug)
  }

  /** So with the registry's slugs every published route is its own. */
  lemma PublishedRoutesAreSeparate(groups: seq<BridgeLegGroup>)
    ensures TalliesByRoute(Tally(groups, RegistrySlug), groups, RegistrySlug)
  {
    hide TalliesByRoute, Chains.ResolveChain;
    forall protocol, chainId | RegistrySlug(protocol, chainId).Some?
      ensures '>' !in RegistrySlug(protocol, chainId).value
    {
      Chains.KnownChains(protocol, Chains.Solana, chainId);
      Chains.KnownChains(protocol, Chains.Eip155, chainId);
    }
    PlainSlugsSeparate(groups, RegistrySlug);
  }

  lemma SkipKeepsByRoute(groups: seq<BridgeLegGroup>, resolve: ResolveBridgeChain, tallies: seq<RouteTally>)
    requires groups != [] && RouteOf(groups[|groups| - 1], resolve).None?
    requires TalliesByRoute(tallies, groups[..|groups| - 1], resolve)
    ensures TalliesByRoute(tallies, groups, resolve)
  {
    var front := groups[..|groups| - 1];
    assert forall route :: GroupsOn(route, groups, resolve) == GroupsOn(route, front, resolve);
    forall i | 0 <= i < |tallies|
      ensures TalliesRoute(tallies[i], groups, resolve)
    {
      assert TalliesRoute(tallies[i], front, resolve);
    }
  }

  lemma KeysFollowRoutes(groups: seq<BridgeLegGroup>, resolve: ResolveBridgeChain, tallies: seq<RouteTally>,
                         route: (string, string))
    requires groups != [] && RouteOf(groups[|groups| - 1], resolve) == Some(route)
    requires KeysSeparate(groups, resolve) && TalliesByRoute(tallies, groups[..|groups| - 1], resolve)
    ensures KeysAreRoutes(tallies, route)
  {
    hide SlugPair;
    forall i | 0 <= i < |tallies|
      ensures KeyOf(tallies[i]) == SlugPair(route.0, route.1) <==>
              (tallies[i].fromChainSlug, tallies[i].toChainSlug) == route
    {
      assert TalliesRoute(tallies[i], groups[..|groups| - 1], resolve);
      assert GroupsOn((tallies[i].fromChainSlug, tallies[i].toChainSlug), groups, resolve) != [];
    }
  }

  lemma UnseenRoute(front: seq<BridgeLegGroup>, resolve: ResolveBridgeChain, before: seq<RouteTally>,
                    route: (string, string))
    requires TalliesByRoute(before, front, resolve)
    requires forall i | 0 <= i < |before| :: (before[i].fromChainSlug, before[i].toChainSlug) != route
    ensures GroupsOn(route, front, resolve) == []
  {
  }

  lemma OneMoreOnRoute(groups: seq<BridgeLegGroup>, resolve: ResolveBridgeChain, route: (string, string),
                       r: (string, string))
    requires groups != [] && RouteOf(groups[|groups| - 1], resolve) == Some(route)
    ensures GroupsOn(r, groups, resolve)
            == GroupsOn(r, groups[..|groups| - 1], resolve) + if r == route then [groups[|groups| - 1]] else []
  {
  }

  lemma GrownTally(t: RouteTally, groups: seq<BridgeLegGroup>, resolve: ResolveBridgeChain)
    requires groups != [] && RouteOf(groups[|groups| - 1], resolve) == Some((t.fromChainSlug, t.toChainSlug))
    requires TalliesRoute(t, groups[..|groups| - 1], resolve)
    ensures TalliesRoute(Grown(t, groups[|groups| - 1].legCount, groups[|groups| - 1].volumeUsd), groups, resolve)
  {
    hide GroupsOn, LegsOf, VolumesOf;
    var route := (t.fromChainSlug, t.toChainSlug);
    OneMoreOnRoute(groups, resolve, route, route);
    AppendGroup(GroupsOn(route, groups[..|groups| - 1], resolve), groups[|groups| - 1]);
  }

  lemma FirstTally(groups: seq<BridgeLegGroup>, resolve: ResolveBridgeChain, route: (string, string))
    requires groups != [] && RouteOf(groups[|groups| - 1], resolve) == Some(route)
    requires GroupsOn(route, groups[..|groups| - 1], resolve) == []
    ensures TalliesRoute(RouteTally(route.0, route.1, groups[|groups| - 1].legCount,
                                    [groups[|groups| - 1].volumeUsd]), groups, resolve)
  {
    hide GroupsOn;
    OneMoreOnRoute(groups, resolve, route, route);
    var on: seq<BridgeLegGroup> := [];
    AppendGroup(on, groups[|groups| - 1]);
    assert GroupsOn(route, groups, resolve) == on + [groups[|groups| - 1]];
  }

  lemma OtherTally(t: RouteTally, groups: seq<BridgeLegGroup>, resolve: ResolveBridgeChain, route: (string, string))
    requires groups != [] && RouteOf(groups[|groups| - 1], resolve) == Some(route)
    requires (t.fromChainSlug, t.toChainSlug) != route && TalliesRoute(t, groups[..|groups| - 1], resolve)
    ensures TalliesRoute(t, groups, resolve)
  {
    hide GroupsOn, LegsOf, VolumesOf;
    var r := (t.fromChainSlug, t.toChainSlug);
    OneMoreOnRoute(groups, resolve, route, r);
    assert GroupsOn(r, groups[..|groups| - 1], resolve) + [] == GroupsOn(r, groups[..|groups| - 1], resolve);
  }

  /** A key stands for the route of its tally. */
  ghost predicate KeysAreRoutes(tallies: seq<RouteTally>, route: (string, string)) {
    forall i | 0 <= i < |tallies| ::
      KeyOf(tallies[i]) == SlugPair(route.0, route.1) <==> (tallies[i].fromChainSlug, tallies[i].toChainSlug) == route
  }

  lemma AbsorbKeepsTallies(groups: seq<BridgeLegGroup>, resolve: ResolveBridgeChain, before: seq<RouteTally>,
                           route: (string, string), i: nat)
    requires groups != [] && RouteOf(groups[|groups| - 1], resolve) == Some(route)
    requires TalliesByRoute(before, groups[..|groups| - 1], resolve) && KeysAreRoutes(before, route)
    requires i < |Absorb(before, route, groups[|groups| - 1])|
    ensures TalliesRoute(Absorb(before, route, groups[|groups| - 1])[i], groups, resolve)
  {
    hide TalliesRoute, KeyOf, SlugPair, GroupsOn;
    var p := PositionOf(before, SlugPair(route.0, route.1));
    if i != p {
      OtherTally(before[i], groups, resolve, route);
    } else if p < |before| {
      GrownTally(before[p], groups, resolve);
    } else {
      UnseenRoute(groups[..|groups| - 1], resolve, before, route);
      FirstTally(groups, resolve, route);
    }
  }

  lemma AbsorbKeepsRoutes(tallies: seq<RouteTally>, route: (string, string), group: BridgeLegGroup)
    requires KeysAreRoutes(tallies, route)
    ensures var after, p := Absorb(tallies, route, group), PositionOf(tallies, SlugPair(route.0, route.1));
            && p < |after| && (after[p].fromChainSlug, after[p].toChainSlug) == route
            && |after| == (if p < |tallies| then |tallies| else p + 1)
            && (forall i | 0 <= i < |tallies| ::
                  after[i].fromChainSlug == tallies[i].fromChainSlug && after[i].toChainSlug == tallies[i].toChainSlug)
  {
  }

  lemma AbsorbKeepsByRoute(groups: seq<BridgeLegGroup>, resolve: ResolveBridgeChain,
                           before: seq<RouteTally>, route: (string, string))
    requires groups != [] && RouteOf(groups[|groups| - 1], resolve) == Some(route)
    requires TalliesByRoute(before, groups[..|groups| - 1], resolve) && KeysAreRoutes(before, route)
    ensures TalliesByRoute(Absorb(before, route, groups[|groups| - 1]), groups, resolve)
  {
    hide TalliesRoute, GroupsOn, Absorb, SlugPair, KeyOf;
    var front, group := groups[..|groups| - 1], groups[|groups| - 1];
    var after, p := Absorb(before, route, group), PositionOf(before, SlugPair(route.0, route.1));
    AbsorbKeepsRoutes(before, route, group);
    forall i | 0 <= i < |after|
      ensures TalliesRoute(after[i], groups, resolve)
    {
      AbsorbKeepsTallies(groups, resolve, before, route, i);
    }
    forall r | GroupsOn(r, groups, resolve) != []
      ensures exists i :: 0 <= i < |after| && (after[i].fromChainSlug, after[i].toChainSlug) == r
    {
      OneMoreOnRoute(groups, resolve, route, r);
      if r == route {
        assert (after[p].fromChainSlug, after[p].toChainSlug) == r;
      } else {
        var i :| 0 <= i < |before| && (before[i].fromChainSlug, before[i].toChainSlug) == r;
        assert (after[i].fromChainSlug, after[i].toChainSlug) == r;
      }
    }
  }
}
