/** What the groups and incidents of a correlation are made of, in terms of the alerts themselves:
    which alerts share a fingerprint, which come together, and what an incident tells. */
module Fingerprints {
  import opened Wrappers
  import opened Text
  import opened Sums
  import opened Correlator
  import opened Grouping

  // ------------------------------------------------ the deploy of an alert

  ghost predicate InWindow(d: Deploy, service: string, ts: Instant) {
    d.Deploy? && d.service == service && -900.0 <= d.ts - ts <= 900.0
  }

  /** The first deploy of the service within fifteen minutes, either way. */
  ghost predicate IsDeploy(deploys: seq<Deploy>, service: string, ts: Instant, id: string) {
    || (id == "none" && forall i :: 0 <= i < |deploys| ==> !InWindow(deploys[i], service, ts))
    || exists k :: 0 <= k < |deploys| && FirstIn(deploys, service, ts, k) && IdAt(deploys, k, id)
  }

  ghost predicate FirstIn(deploys: seq<Deploy>, service: string, ts: Instant, k: int) {
    && 0 <= k < |deploys| && InWindow(deploys[k], service, ts)
    && forall i :: 0 <= i < k ==> !InWindow(deploys[i], service, ts)
  }

  ghost predicate IdAt(deploys: seq<Deploy>, k: int, id: string) {
    0 <= k < |deploys| && deploys[k].Deploy? && deploys[k].deployId == id
  }

  lemma {:induction false} DeployExactly(deploys: seq<Deploy>, service: string, ts: Instant, id: string)
    ensures IsDeploy(deploys, service, ts, id) <==> id == WindowDeploy(deploys, service, ts)
  {
    if deploys != [] {
      var rest := deploys[1..];
      assert forall i :: 0 < i < |deploys| ==> rest[i - 1] == deploys[i];
      DeployExactly(rest, service, ts, id);
      if !InWindow(deploys[0], service, ts) {
        LaterDeploy(deploys, service, ts, id);
      } else {
        assert FirstIn(deploys, service, ts, 0) && (IdAt(deploys, 0, id) <==> id == deploys[0].deployId);
        assert forall k :: FirstIn(deploys, service, ts, k) ==> k == 0;
      }
    }
  }

  lemma LaterDeploy(deploys: seq<Deploy>, service: string, ts: Instant, id: string)
    requires deploys != [] && !InWindow(deploys[0], service, ts)
    ensures IsDeploy(deploys, service, ts, id) <==> IsDeploy(deploys[1..], service, ts, id)
  {
    hide InWindow;
    var rest := deploys[1..];
    assert forall i :: 0 <= i < |rest| ==> rest[i] == deploys[i + 1];
    assert forall k :: 0 < k < |deploys| ==> (FirstIn(deploys, service, ts, k) <==> FirstIn(rest, service, ts, k - 1)) by {
      forall k | 0 < k < |deploys| ensures FirstIn(deploys, service, ts, k) <==> FirstIn(rest, service, ts, k - 1) {
        assert forall i :: 0 < i < k ==> deploys[i] == rest[i - 1];
      }
    }
    assert forall k :: 0 <= k < |rest| ==> (FirstIn(rest, service, ts, k) <==> FirstIn(deploys, service, ts, k + 1));
    assert (forall i :: 0 <= i < |rest| ==> !InWindow(rest[i], service, ts)) <==>
           (forall i :: 0 <= i < |deploys| ==> !InWindow(deploys[i], service, ts)) by {
      assert forall i :: 0 < i < |deploys| ==> deploys[i] == rest[i - 1];
    }
    if k :| 0 <= k < |deploys| && FirstIn(deploys, service, ts, k) && IdAt(deploys, k, id) {
      assert FirstIn(rest, service, ts, k - 1) && IdAt(rest, k - 1, id);
    }
    if k :| 0 <= k < |rest| && FirstIn(rest, service, ts, k) && IdAt(rest, k, id) {
      assert FirstIn(deploys, service, ts, k + 1) && IdAt(deploys, k + 1, id);
    }
  }

  // ------------------------------------------------ the fingerprint

  /** What is hashed: service, signature, environment and deploy. */
  function Legs(a: Alert, deploy: string): string {
    a.service + "|" + a.signature + "|" + a.environment + "|" + deploy
  }

  function Cut(text: string): string {
    if |text| <= 16 then text else text[..16]
  }

  lemma JoinFour(a: string, b: string, c: string, d: string, sep: char)
    ensures Join([a, b, c, d], sep) == a + [sep] + b + [sep] + c + [sep] + d
  {
    assert [a, b, c, d][1..] == [b, c, d] && [b, c, d][1..] == [c, d] && [c, d][1..] == [d];
    assert Join([c, d], sep) == c + [sep] + d;
    assert Join([b, c, d], sep) == b + [sep] + (c + [sep] + d);
  }

  lemma FingerprintIs(c: Context, a: Alert, deploy: string)
    requires IsDeploy(c.deploys, a.service, a.ts, deploy)
    ensures Fingerprint(c, a) == Cut(c.hash(Legs(a, deploy)))
  {
    DeployExactly(c.deploys, a.service, a.ts, deploy);
    JoinFour(a.service, a.signature, a.environment, deploy, '|');
  }

  /** Two alerts are of one kind. */
  ghost predicate Alike(c: Context, a: Alert, b: Alert) {
    && a.service == b.service && a.signature == b.signature && a.environment == b.environment
    && exists deploy :: IsDeploy(c.deploys, a.service, a.ts, deploy) && IsDeploy(c.deploys, b.service, b.ts, deploy)
  }

  /** Two different texts with the same first sixteen characters of their hashes. */
  ghost predicate CutCollides(c: Context, x: string, y: string) {
    x != y && Cut(c.hash(x)) == Cut(c.hash(y))
  }

  ghost predicate NoBars(a: Alert, deploy: string) {
    '|' !in a.service && '|' !in a.signature && '|' !in a.environment && '|' !in deploy
  }

  /** Alerts of one kind have one fingerprint. One fingerprint means one kind, as long as the first
      one's fields hold no bar, or two texts whose cut hashes collide are at hand. */
  lemma SameFingerprint(c: Context, a: Alert, b: Alert) returns (x: string, y: string)
    ensures Alike(c, a, b) ==> Fingerprint(c, a) == Fingerprint(c, b)
    ensures Fingerprint(c, a) == Fingerprint(c, b) && NoBars(a, WindowDeploy(c.deploys, a.service, a.ts)) ==>
      Alike(c, a, b) || CutCollides(c, x, y)
  {
    var d, e := WindowDeploy(c.deploys, a.service, a.ts), WindowDeploy(c.deploys, b.service, b.ts);
    DeployExactly(c.deploys, a.service, a.ts, d);
    DeployExactly(c.deploys, b.service, b.ts, e);
    FingerprintIs(c, a, d);
    FingerprintIs(c, b, e);
    if Alike(c, a, b) {
      var deploy :| IsDeploy(c.deploys, a.service, a.ts, deploy) && IsDeploy(c.deploys, b.service, b.ts, deploy);
      DeployExactly(c.deploys, a.service, a.ts, deploy);
      DeployExactly(c.deploys, b.service, b.ts, deploy);
    }
    x, y := Legs(a, d), Legs(b, e);
    JoinFour(a.service, a.signature, a.environment, d, '|');
    JoinFour(b.service, b.signature, b.environment, e, '|');
    if x == y && NoBars(a, d) {
      var p, q := [a.service, a.signature, a.environment, d], [b.service, b.signature, b.environment, e];
      JoinUnique(p, q, '|');
      assert p[0] == q[0] && p[1] == q[1] && p[2] == q[2] && p[3] == q[3];
    }
  }

  // ------------------------------------------------ who comes together

  /** Of the two services one depends on the other, the alert is at most ten minutes from the last
      member, and the signatures have more than seven tenths of their parts in common. */
  ghost predicate EdgeTo(c: Context, service: string, signature: string, lastTs: Instant, a: Alert) {
    && service != a.service
    && ((service == c.topology.service && a.service in c.topology.dependsOn)
        || (a.service == c.topology.service && service in c.topology.dependsOn))
    && -600.0 <= a.ts - lastTs <= 600.0
    && signature != "" && a.signature != ""
    && var p, q := (set x | x in Split(signature, '_')), set x | x in Split(a.signature, '_');
       10 * |p * q| > 7 * |p + q|
  }

  lemma JoinsExactly(c: Context, service: string, signature: string, lastTs: Instant, a: Alert)
    ensures Joins(c, service, signature, lastTs, a) <==> EdgeTo(c, service, signature, lastTs, a)
  {
    var p, q := Parts(signature), Parts(a.signature);
    assert p * q == q * p && p + q == q + p;
  }

  /** The alert came in by an edge to the first member's service, in time of the member before it. */
  ghost predicate CameByEdge(c: Context, g: Group, j: nat)
    requires 0 < |g.alerts| && j < |g.alerts|
  {
    j > 0 && EdgeTo(c, g.alerts[0].service, g.alerts[0].signature, g.alerts[j - 1].ts, g.alerts[j])
  }

  /** The first group, in order of creation, that the alert has an edge to. */
  ghost predicate FirstEdge(c: Context, gs: Groups, a: Alert, i: nat) {
    && i < |gs.order| && HasEdge(c, gs, a, i) && forall h :: 0 <= h < i ==> !HasEdge(c, gs, a, h)
  }

  ghost predicate HasEdge(c: Context, gs: Groups, a: Alert, i: nat) {
    && i < |gs.order| && gs.order[i] in gs.table && gs.table[gs.order[i]].alerts != []
    && var g := gs.table[gs.order[i]];
       EdgeTo(c, g.alerts[0].service, g.alerts[0].signature, g.alerts[|g.alerts| - 1].ts, a)
  }

  /** Where an alert goes: into the oldest group that it has an edge to, or else into the group of its
      fingerprint, a new one if need be; all other groups stay as they are. */
  lemma PlacedExactly(c: Context, gs: Groups, a: Alert, k: string)
    requires Formed(c, gs) && "" !in gs.table
    requires (exists i: nat :: FirstEdge(c, gs, a, i) && k == gs.order[i])
             || (k == Fingerprint(c, a) && forall i :: 0 <= i < |gs.order| ==> !HasEdge(c, gs, a, i))
    ensures var hs := Place(c, gs, a);
      && hs.order == (if k in gs.table then gs.order else gs.order + [k])
      && k in hs.table && hs.table[k].alerts == (if k in gs.table then gs.table[k].alerts else []) + [a]
      && forall x :: x in gs.table && x != k ==> x in hs.table && hs.table[x] == gs.table[x]
  {
    hide Fingerprint, EdgeTo, Joins, JoinsKey, HasEdge, GoodGroup, MergeKey, Target;
    forall i | 0 <= i < |gs.order| ensures JoinsKey(c, gs, gs.order[i], a) <==> HasEdge(c, gs, a, i) {
      EdgeIsJoin(c, gs, a, i);
    }
    TargetIs(c, gs, a, k);
  }

  lemma EdgeIsJoin(c: Context, gs: Groups, a: Alert, i: nat)
    requires Formed(c, gs) && i < |gs.order|
    ensures JoinsKey(c, gs, gs.order[i], a) <==> HasEdge(c, gs, a, i)
  {
    hide Fingerprint, EdgeTo, Joins, Justified;
    var g := gs.table[gs.order[i]];
    JoinsExactly(c, g.service, g.signature, g.lastTs, a);
    assert GoodGroup(c, g);
  }

  lemma TargetIs(c: Context, gs: Groups, a: Alert, k: string)
    requires "" !in gs.table && (forall x :: x in gs.order <==> x in gs.table)
    requires forall i :: 0 <= i < |gs.order| ==> (JoinsKey(c, gs, gs.order[i], a) <==> HasEdge(c, gs, a, i))
    requires (exists i: nat :: FirstEdge(c, gs, a, i) && k == gs.order[i])
             || (k == Fingerprint(c, a) && forall i :: 0 <= i < |gs.order| ==> !HasEdge(c, gs, a, i))
    ensures Target(c, gs, a) == k
  {
    hide Fingerprint, JoinsKey, HasEdge, MergeKey;
    MergeOldest(c, gs, a, 0);
    if i: nat :| FirstEdge(c, gs, a, i) && k == gs.order[i] {
      var r := MergeKey(c, gs, a, 0);
      assert JoinsKey(c, gs, gs.order[i], a);
      assert r.Some?;
      var j :| 0 <= j < |gs.order| && gs.order[j] == r.value && JoinsKey(c, gs, r.value, a)
               && forall h :: 0 <= h < j ==> !JoinsKey(c, gs, gs.order[h], a);
      assert j == i;
    }
  }

  lemma JustifiedMeans(c: Context, g: Group, j: nat)
    requires GoodGroup(c, g) && j < |g.alerts|
    ensures Fingerprint(c, g.alerts[j]) == g.fp || CameByEdge(c, g, j)
  {
    hide Fingerprint, EdgeTo, Joins;
    assert Justified(c, g, j);
    if j > 0 {
      JoinsExactly(c, g.service, g.signature, g.alerts[j - 1].ts, g.alerts[j]);
    }
  }

  /** Any two alerts of one group are of one kind, unless one of them came in by an edge, or a hash
      collision is at hand. */
  lemma TogetherAlike(c: Context, kept: seq<Alert>, k: string, i: nat, j: nat) returns (x: string, y: string)
    requires k in Grouped(c, kept).table
    requires i < |Grouped(c, kept).table[k].alerts| && j < |Grouped(c, kept).table[k].alerts|
    ensures var g := Grouped(c, kept).table[k];
      var a := g.alerts[i];
      && |g.alerts| > 0
      && (NoBars(a, WindowDeploy(c.deploys, a.service, a.ts)) ==>
            || Alike(c, a, g.alerts[j]) || CutCollides(c, x, y)
            || CameByEdge(c, g, i) || CameByEdge(c, g, j))
  {
    GroupedFormed(c, kept);
    var g := Grouped(c, kept).table[k];
    hide CameByEdge, Alike, Fingerprint, Justified, Grouped;
    assert GoodGroup(c, g);
    JustifiedMeans(c, g, i);
    JustifiedMeans(c, g, j);
    x, y := SameFingerprint(c, g.alerts[i], g.alerts[j]);
  }

  /** No kept alert is of a service that this one depends on, or that depends on it. */
  ghost predicate NoEdges(c: Context, kept: seq<Alert>, service: string) {
    forall x :: x in kept ==> !Edge(c.topology, service, x.service)
  }

  ghost predicate ServiceOf(kept: seq<Alert>, service: string) {
    exists x :: x in kept && x.service == service
  }

  /** Every group's service is the service of one of the alerts. */
  lemma {:induction false} ServicesKept(c: Context, kept: seq<Alert>)
    ensures forall k :: k in Grouped(c, kept).table ==> ServiceOf(kept, Grouped(c, kept).table[k].service)
  {
    if kept != [] {
      var init, a := kept[..|kept| - 1], kept[|kept| - 1];
      ServicesKept(c, init);
      hide Target;
      assert kept == init + [a];
      forall k | k in Grouped(c, kept).table ensures ServiceOf(kept, Grouped(c, kept).table[k].service) {
        if k in Grouped(c, init).table {
          var x :| x in init && x.service == Grouped(c, init).table[k].service;
          assert x in kept;
        } else {
          assert a in kept;
        }
      }
    }
  }

  /** Without such services an alert goes into the group of its fingerprint. */
  lemma {:induction false} LandsByKind(c: Context, kept: seq<Alert>, a: Alert)
    requires a in kept && NoEdges(c, kept, a.service)
    ensures var t := Grouped(c, kept).table; Fingerprint(c, a) in t && a in t[Fingerprint(c, a)].alerts
  {
    var init, last := kept[..|kept| - 1], kept[|kept| - 1];
    assert kept == init + [last];
    if a in init {
      LandsByKind(c, init, a);
      Stays(c, Grouped(c, init), last, Fingerprint(c, a), a);
    } else {
      ServicesKept(c, init);
      NoMerge(c, Grouped(c, init), kept, a);
    }
  }

  lemma Stays(c: Context, gs: Groups, last: Alert, k: string, a: Alert)
    requires k in gs.table && a in gs.table[k].alerts
    ensures k in Place(c, gs, last).table && a in Place(c, gs, last).table[k].alerts
  {
    hide Target;
  }

  lemma NoMerge(c: Context, gs: Groups, kept: seq<Alert>, a: Alert)
    requires NoEdges(c, kept, a.service)
    requires forall k :: k in gs.table ==> ServiceOf(kept, gs.table[k].service)
    ensures var t := Place(c, gs, a).table; Fingerprint(c, a) in t && a in t[Fingerprint(c, a)].alerts
  {
    hide Fingerprint, Edge, Similar;
    forall k | k in gs.table ensures !Edge(c.topology, a.service, gs.table[k].service) {
      var x :| x in kept && x.service == gs.table[k].service;
    }
    assert MergeKey(c, gs, a, 0).None?;
  }

  /** Kept alerts of one kind come together, unless there are services that they could merge with. */
  lemma AlikeTogether(c: Context, kept: seq<Alert>, a: Alert, b: Alert)
    requires a in kept && b in kept && Alike(c, a, b) && NoEdges(c, kept, a.service)
    ensures var t := Grouped(c, kept).table;
      exists k :: k in t && a in t[k].alerts && b in t[k].alerts
  {
    hide Grouped, Fingerprint;
    var x, y := SameFingerprint(c, a, b);
    LandsByKind(c, kept, a);
    LandsByKind(c, kept, b);
  }

  // ------------------------------------------------ what an incident tells

  /** The suppressed alerts that are duplicates in kind of some member. */
  ghost function Own(members: seq<Alert>, dropped: seq<Alert>): nat {
    if dropped == [] then 0
    else
      var last := dropped[|dropped| - 1];
      Own(members, dropped[..|dropped| - 1]) + if exists m :: m in members && SameKind(m, last) then 1 else 0
  }

  lemma {:induction false} OwnExactly(g: Group, dropped: seq<Alert>)
    requires g.keys == set a | a in g.alerts :: KeyOf(a)
    ensures Total(CountsOf(g.keys, dropped)) == Own(g.alerts, dropped)
  {
    if dropped == [] {
      NoneDropped(g.keys);
    } else {
      var init, last := dropped[..|dropped| - 1], dropped[|dropped| - 1];
      OwnExactly(g, init);
      assert (exists m :: m in g.alerts && SameKind(m, last)) <==> KeyOf(last) in g.keys;
      if KeyOf(last) in g.keys {
        var counts := CountsOf(g.keys, init);
        TotalUpdate(counts, KeyOf(last), counts[KeyOf(last)] + 1);
        assert CountsOf(g.keys, dropped) == counts[KeyOf(last) := counts[KeyOf(last)] + 1];
      } else {
        assert CountsOf(g.keys, dropped) == CountsOf(g.keys, init);
      }
    }
  }

  lemma {:induction false} NoneDropped(keys: set<Key>)
    ensures Total(CountsOf(keys, [])) == 0
  {
    if keys == {} {
      assert CountsOf({}, []) == map[];
    } else {
      var k :| k in keys;
      NoneDropped(keys - {k});
      var counts := CountsOf(keys - {k}, []);
      TotalUpdate(counts, k, 0);
      assert CountsOf(keys, []) == counts[k := 0];
    }
  }

  lemma {:induction false} IdsExactly(alerts: seq<Alert>)
    ensures |Ids(alerts)| == |alerts| && forall i :: 0 <= i < |alerts| ==> Ids(alerts)[i] == alerts[i].alertId
  {
    if alerts != [] {
      IdsExactly(alerts[..|alerts| - 1]);
    }
  }

  /** What an incident says of its group: service, signature and environment of the first member, the
      ids of the first hundred, how many there are, and the duplicates that were suppressed. */
  ghost predicate Reports(x: Incident, members: seq<Alert>, dropped: seq<Alert>) {
    && |members| > 0
    && x.service == members[0].service && x.signature == members[0].signature && x.environment == members[0].environment
    && x.detectedAt == members[0].ts && x.alertCount == |members|
    && |x.sourceAlertIds| == (if |members| <= 100 then |members| else 100) && (x.capped <==> |members| > 100)
    && (forall j :: 0 <= j < |x.sourceAlertIds| ==> x.sourceAlertIds[j] == members[j].alertId)
    && x.suppressedDuplicates == Own(members, dropped)
  }

  lemma GroupReports(c: Context, g: Group, dropped: seq<Alert>)
    requires GoodGroup(c, g) && Sorted(g.alerts)
    ensures Reports(IncidentOf(g, dropped), g.alerts, dropped)
  {
    hide Fingerprint, Justified;
    IdsExactly(g.alerts);
    OwnExactly(g, dropped);
    FirstIsEarliest(g.alerts);
  }

  /** The incidents of a run, one for each group, in order. */
  lemma IncidentsReport(c: Context, alerts: seq<Alert>, i: nat)
    requires i < |Correlated(c, alerts)|
    ensures var kept, dropped := Kept(Sort(alerts)), Dropped(Sort(alerts));
      var gs := Grouped(c, kept);
      && i < |gs.order| && gs.order[i] in gs.table
      && Correlated(c, alerts)[i].fingerprint == gs.order[i]
      && Reports(Correlated(c, alerts)[i], gs.table[gs.order[i]].alerts, dropped)
  {
    hide Kept, Dropped, Sort, Sorted, Grouped, IncidentsOf, IncidentOf, GoodGroup, Reports;
    SortSorts(alerts);
    var kept, dropped := Kept(Sort(alerts)), Dropped(Sort(alerts));
    KeptSorted(Sort(alerts));
    GroupedFormed(c, kept);
    GroupedInTime(c, kept);
    IncidentsOrdered(c, alerts);
    var gs := Grouped(c, kept);
    IncidentAt(gs, dropped, |gs.order|);
    GroupReports(c, gs.table[gs.order[i]], dropped);
  }
}
