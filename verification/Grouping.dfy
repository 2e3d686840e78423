/** The second half of correlation (backend/app/services/correlator.py): fingerprints, the
    cross-service merge, groups, and the incidents made of them. */
module Grouping {
  import opened Wrappers
  import opened Seqs
  import opened Text
  import opened Sums
  import opened Correlator

  datatype Deploy = Malformed | Deploy(service: string, deployId: string, ts: Instant)

  datatype Topology = Topology(service: string, dependsOn: seq<string>)

  /** What a correlation run is given besides the alerts; `hash` is SHA-256 in hex. */
  datatype Context = Context(hash: string -> string, deploys: seq<Deploy>, topology: Topology)

  function WindowDeploy(deploys: seq<Deploy>, service: string, ts: Instant): string {
    if deploys == [] then "none"
    else if deploys[0].Deploy? && deploys[0].service == service && Within(deploys[0].ts, ts, DEPLOY_WINDOW_S)
    then deploys[0].deployId
    else WindowDeploy(deploys[1..], service, ts)
  }

  function Fingerprint(c: Context, a: Alert): string {
    var deploy := WindowDeploy(c.deploys, a.service, a.ts);
    var h := c.hash(Join([a.service, a.signature, a.environment, deploy], '|'));
    if |h| <= 16 then h else h[..16]
  }

  predicate Malshaped(t: Topology) {
    (t.dependsOn != [] && t.service == "") || "" in t.dependsOn
  }

  /** The unordered pair is a declared dependency of the one service the topology describes. */
  predicate Edge(t: Topology, a: string, b: string) {
    (a == t.service && b in t.dependsOn) || (b == t.service && a in t.dependsOn)
  }

  function Parts(signature: string): set<string> {
    Elements(Split(signature, '_'))
  }

  /** Jaccard similarity of the signature parts above 0.7. */
  predicate Similar(a: string, b: string) {
    a != "" && b != "" && 10 * |Parts(a) * Parts(b)| > 7 * |Parts(a) + Parts(b)|
  }

  datatype Group = Group(service: string, signature: string, env: string, fp: string, alerts: seq<Alert>,
                         lastTs: Instant, keys: set<Key>)

  datatype Groups = Groups(order: seq<string>, table: map<string, Group>)

  /** The alert and the group form a dependency edge, close in time and similar in signature. */
  predicate Joins(c: Context, service: string, signature: string, lastTs: Instant, a: Alert) {
    && service != a.service && Edge(c.topology, a.service, service)
    && Within(a.ts, lastTs, MERGE_WINDOW_S) && Similar(a.signature, signature)
  }

  predicate JoinsKey(c: Context, gs: Groups, k: string, a: Alert) {
    k in gs.table && Joins(c, gs.table[k].service, gs.table[k].signature, gs.table[k].lastTs, a)
  }

  /** The oldest group the alert joins by an edge. */
  function MergeKey(c: Context, gs: Groups, a: Alert, i: nat): (r: Option<string>)
    requires i <= |gs.order|
    ensures r.Some? ==> r.value in gs.order && JoinsKey(c, gs, r.value, a)
    decreases |gs.order| - i
  {
    if i == |gs.order| then None
    else if JoinsKey(c, gs, gs.order[i], a) then Some(gs.order[i])
    else MergeKey(c, gs, a, i + 1)
  }

  /** No earlier group is joined, and none is found exactly when none is joined. */
  lemma {:induction false} MergeOldest(c: Context, gs: Groups, a: Alert, i: nat)
    requires i <= |gs.order|
    ensures var r := MergeKey(c, gs, a, i);
      && (r.Some? ==>
            exists j :: i <= j < |gs.order| && gs.order[j] == r.value && JoinsKey(c, gs, r.value, a)
                        && forall h :: i <= h < j ==> !JoinsKey(c, gs, gs.order[h], a))
      && (r.None? <==> forall j :: i <= j < |gs.order| ==> !JoinsKey(c, gs, gs.order[j], a))
    decreases |gs.order| - i
  {
    hide JoinsKey;
    if i < |gs.order| && !JoinsKey(c, gs, gs.order[i], a) {
      MergeOldest(c, gs, a, i + 1);
    }
  }

  function Target(c: Context, gs: Groups, a: Alert): string {
    match MergeKey(c, gs, a, 0)
    case Some(k) => if k != "" then k else Fingerprint(c, a)
    case None => Fingerprint(c, a)
  }

  function Extended(g: Group, a: Alert): Group {
    g.(alerts := g.alerts + [a], lastTs := a.ts, keys := g.keys + {KeyOf(a)})
  }

  function Place(c: Context, gs: Groups, a: Alert): Groups {
    var k := Target(c, gs, a);
    if k in gs.table then gs.(table := gs.table[k := Extended(gs.table[k], a)])
    else Groups(gs.order + [k],
                gs.table[k := Extended(Group(a.service, a.signature, a.environment, k, [], 0.0, {}), a)])
  }

  function Grouped(c: Context, kept: seq<Alert>): Groups {
    if kept == [] then Groups([], map[]) else Place(c, Grouped(c, kept[..|kept| - 1]), kept[|kept| - 1])
  }

  datatype Incident = Incident(fingerprint: string, service: string, environment: string,
                               sourceAlertIds: seq<string>, detectedAt: Instant, signature: string,
                               alertCount: nat, suppressedDuplicates: nat, capped: bool)

  function Ids(alerts: seq<Alert>): seq<string> {
    if alerts == [] then [] else Ids(alerts[..|alerts| - 1]) + [alerts[|alerts| - 1].alertId]
  }

  function Earliest(alerts: seq<Alert>): Instant {
    if alerts == [] then 0.0
    else if |alerts| == 1 then alerts[0].ts
    else
      var before, ts := Earliest(alerts[..|alerts| - 1]), alerts[|alerts| - 1].ts;
      if ts < before then ts else before
  }

  function CountsOf(keys: set<Key>, dropped: seq<Alert>): map<Key, nat> {
    map k | k in keys :: CountKey(dropped, k)
  }

  ghost function IncidentOf(g: Group, dropped: seq<Alert>): Incident {
    var ids := Ids(g.alerts);
    Incident(g.fp, g.service, g.env, if |ids| <= MAX_STORED_IDS then ids else ids[..MAX_STORED_IDS],
             Earliest(g.alerts), g.signature, |g.alerts|, Total(CountsOf(g.keys, dropped)), |ids| > MAX_STORED_IDS)
  }

  ghost function IncidentsOf(gs: Groups, dropped: seq<Alert>, n: nat): seq<Incident>
    requires n <= |gs.order| && forall k :: k in gs.order ==> k in gs.table
  {
    if n == 0 then [] else IncidentsOf(gs, dropped, n - 1) + [IncidentOf(gs.table[gs.order[n - 1]], dropped)]
  }

  // ------------------------------------------------ what grouping keeps true

  /** Member `j` belongs here: by its own fingerprint, or through a dependency edge at the
      moment it joined, when member `j - 1` was the group's last one. */
  ghost predicate Justified(c: Context, g: Group, j: nat)
    requires j < |g.alerts|
  {
    || Fingerprint(c, g.alerts[j]) == g.fp
    || (j > 0 && Joins(c, g.service, g.signature, g.alerts[j - 1].ts, g.alerts[j]))
  }

  ghost predicate GoodGroup(c: Context, g: Group) {
    && g.alerts != []
    && g.service == g.alerts[0].service && g.signature == g.alerts[0].signature && g.env == g.alerts[0].environment
    && Fingerprint(c, g.alerts[0]) == g.fp
    && g.lastTs == g.alerts[|g.alerts| - 1].ts
    && g.keys == (set a | a in g.alerts :: KeyOf(a))
    && (forall j :: 0 <= j < |g.alerts| ==> Justified(c, g, j))
  }

  ghost predicate Formed(c: Context, gs: Groups) {
    && Distinct(gs.order)
    && (forall k :: k in gs.order <==> k in gs.table)
    && (forall k :: k in gs.table ==> gs.table[k].fp == k && GoodGroup(c, gs.table[k]))
  }

  lemma ExtendedGood(c: Context, g: Group, a: Alert)
    requires GoodGroup(c, g) && (Fingerprint(c, a) == g.fp || Joins(c, g.service, g.signature, g.lastTs, a))
    ensures GoodGroup(c, Extended(g, a))
  {
    hide Fingerprint, Joins;
    var h := Extended(g, a);
    forall j | 0 <= j < |h.alerts| ensures Justified(c, h, j) {
      if j < |g.alerts| {
        assert Justified(c, g, j);
      }
    }
    assert h.keys == set x | x in h.alerts :: KeyOf(x);
  }

  lemma NewGood(c: Context, a: Alert, k: string)
    requires Fingerprint(c, a) == k
    ensures GoodGroup(c, Extended(Group(a.service, a.signature, a.environment, k, [], 0.0, {}), a))
  {
  }

  lemma PlaceForms(c: Context, gs: Groups, a: Alert)
    requires Formed(c, gs)
    ensures Formed(c, Place(c, gs, a))
  {
    hide Fingerprint, Joins, MergeKey, GoodGroup;
    var k := Target(c, gs, a);
    if k in gs.table {
      ExtendedGood(c, gs.table[k], a);
    } else {
      NewGood(c, a, k);
    }
  }

  lemma {:induction false} GroupedFormed(c: Context, kept: seq<Alert>)
    ensures Formed(c, Grouped(c, kept))
  {
    if kept != [] {
      GroupedFormed(c, kept[..|kept| - 1]);
      PlaceForms(c, Grouped(c, kept[..|kept| - 1]), kept[|kept| - 1]);
    }
  }

  // ------------------------------------------------ partition

  ghost function Members(order: seq<string>, table: map<string, Group>): multiset<Alert>
    requires forall k :: k in order ==> k in table
  {
    if order == [] then multiset{}
    else Members(order[..|order| - 1], table) + multiset(table[order[|order| - 1]].alerts)
  }

  lemma {:induction false} MembersUntouched(order: seq<string>, table: map<string, Group>, k: string, g: Group)
    requires (forall x :: x in order ==> x in table) && k !in order
    ensures Members(order, table[k := g]) == Members(order, table)
  {
    if order != [] {
      MembersUntouched(order[..|order| - 1], table, k, g);
    }
  }

  lemma {:induction false} MembersExtended(order: seq<string>, table: map<string, Group>, k: string, a: Alert)
    requires (forall x :: x in order ==> x in table) && k in order && Distinct(order)
    ensures Members(order, table[k := Extended(table[k], a)]) == Members(order, table) + multiset{a}
  {
    var init, last := order[..|order| - 1], order[|order| - 1];
    var g := Extended(table[k], a);
    if last == k {
      MembersUntouched(init, table, k, g);
    } else {
      assert k in init by {
        var i :| 0 <= i < |order| && order[i] == k;
        assert init[i] == k;
      }
      MembersExtended(init, table, k, a);
    }
  }

  lemma MembersAdded(order: seq<string>, table: map<string, Group>, k: string, g: Group, a: Alert)
    requires (forall x :: x in order ==> x in table) && k !in order && g.alerts == [a]
    ensures Members(order + [k], table[k := g]) == Members(order, table) + multiset{a}
  {
    MembersUntouched(order, table, k, g);
    assert (order + [k])[..|order|] == order;
  }

  lemma PlaceMembers(c: Context, gs: Groups, a: Alert)
    requires Distinct(gs.order) && forall k :: k in gs.order <==> k in gs.table
    ensures var hs := Place(c, gs, a);
      && (forall k :: k in hs.order <==> k in hs.table)
      && Members(hs.order, hs.table) == Members(gs.order, gs.table) + multiset{a}
  {
    hide Target, Distinct, Members;
    var k := Target(c, gs, a);
    if k in gs.table {
      MembersExtended(gs.order, gs.table, k, a);
    } else {
      MembersAdded(gs.order, gs.table, k, Place(c, gs, a).table[k], a);
    }
  }

  lemma OrderIsTable(c: Context, kept: seq<Alert>)
    ensures Distinct(Grouped(c, kept).order)
    ensures forall k :: k in Grouped(c, kept).order <==> k in Grouped(c, kept).table
  {
    GroupedFormed(c, kept);
  }

  /** Nothing is lost or duplicated: the groups together hold exactly these alerts. */
  ghost predicate Partition(gs: Groups, kept: seq<Alert>) {
    (forall k :: k in gs.order ==> k in gs.table) && Members(gs.order, gs.table) == multiset(kept)
  }

  lemma PlacePartition(c: Context, gs: Groups, init: seq<Alert>, a: Alert)
    requires Partition(gs, init) && Distinct(gs.order) && forall k :: k in gs.order <==> k in gs.table
    ensures Partition(Place(c, gs, a), init + [a])
  {
    hide Place, Members, Distinct;
    PlaceMembers(c, gs, a);
  }

  lemma LastPlaced(c: Context, kept: seq<Alert>)
    requires kept != []
    ensures Grouped(c, kept) == Place(c, Grouped(c, kept[..|kept| - 1]), kept[|kept| - 1])
    ensures kept == kept[..|kept| - 1] + [kept[|kept| - 1]]
  {
    hide Place;
  }

  lemma NonePlaced(c: Context)
    ensures Partition(Grouped(c, []), [])
  {
  }

  lemma {:induction false} GroupsPartition(c: Context, kept: seq<Alert>)
    ensures Partition(Grouped(c, kept), kept)
  {
    hide Place, Partition, Distinct, Grouped;
    if kept == [] {
      NonePlaced(c);
    } else {
      var init := kept[..|kept| - 1];
      GroupsPartition(c, init);
      OrderIsTable(c, init);
      PlacePartition(c, Grouped(c, init), init, kept[|kept| - 1]);
      LastPlaced(c, kept);
    }
  }

  lemma {:induction false} InMembers(order: seq<string>, table: map<string, Group>, i: nat, a: Alert)
    requires (forall x :: x in order ==> x in table) && i < |order|
    ensures Members(order, table)[a] >= multiset(table[order[i]].alerts)[a]
  {
    if i < |order| - 1 {
      InMembers(order[..|order| - 1], table, i, a);
    }
  }

  lemma {:induction false} InTwoMembers(order: seq<string>, table: map<string, Group>, i: nat, j: nat, a: Alert)
    requires (forall x :: x in order ==> x in table) && i < j < |order|
    ensures Members(order, table)[a] >= multiset(table[order[i]].alerts)[a] + multiset(table[order[j]].alerts)[a]
  {
    if j < |order| - 1 {
      InTwoMembers(order[..|order| - 1], table, i, j, a);
    } else {
      InMembers(order[..|order| - 1], table, i, a);
    }
  }

  lemma {:induction false} SomeMember(order: seq<string>, table: map<string, Group>, a: Alert) returns (i: nat)
    requires (forall x :: x in order ==> x in table) && a in Members(order, table)
    ensures i < |order| && a in table[order[i]].alerts
  {
    var last := |order| - 1;
    if a in table[order[last]].alerts {
      i := last;
    } else {
      i := SomeMember(order[..last], table, a);
    }
  }

  lemma CountOnce(kept: seq<Alert>, a: Alert)
    requires DistinctIds(kept) && a in kept
    ensures multiset(kept)[a] == 1
  {
    var i :| 0 <= i < |kept| && kept[i] == a;
    assert kept == kept[..i] + [a] + kept[i + 1..];
    assert a !in kept[..i] && a !in kept[i + 1..];
  }

  /** Every kept alert is a member of exactly one group. */
  lemma ExactlyOneGroup(c: Context, kept: seq<Alert>, a: Alert) returns (i: nat)
    requires DistinctIds(kept) && a in kept
    ensures var gs := Grouped(c, kept);
      && i < |gs.order| && gs.order[i] in gs.table && a in gs.table[gs.order[i]].alerts
      && forall j :: 0 <= j < |gs.order| && gs.order[j] in gs.table && a in gs.table[gs.order[j]].alerts ==> j == i
  {
    GroupsPartition(c, kept);
    OrderIsTable(c, kept);
    CountOnce(kept, a);
    var gs := Grouped(c, kept);
    i := SomeMember(gs.order, gs.table, a);
    forall j | 0 <= j < |gs.order| && a in gs.table[gs.order[j]].alerts ensures j == i {
      if j < i {
        InTwoMembers(gs.order, gs.table, j, i, a);
      } else if i < j {
        InTwoMembers(gs.order, gs.table, i, j, a);
      }
    }
  }

  function CountAll(incidents: seq<Incident>): nat {
    if incidents == [] then 0 else CountAll(incidents[..|incidents| - 1]) + incidents[|incidents| - 1].alertCount
  }

  lemma {:induction false} IncidentAt(gs: Groups, dropped: seq<Alert>, n: nat)
    requires n <= |gs.order| && forall k :: k in gs.order ==> k in gs.table
    ensures |IncidentsOf(gs, dropped, n)| == n
    ensures forall i :: 0 <= i < n ==> IncidentsOf(gs, dropped, n)[i] == IncidentOf(gs.table[gs.order[i]], dropped)
  {
    hide IncidentOf;
    if n > 0 {
      IncidentAt(gs, dropped, n - 1);
    }
  }

  lemma CountSnoc(incidents: seq<Incident>, x: Incident)
    ensures CountAll(incidents + [x]) == CountAll(incidents) + x.alertCount
  {
    assert (incidents + [x])[..|incidents|] == incidents;
  }

  /** How many members the first `n` groups have. */
  ghost function HeadCount(gs: Groups, n: nat): nat
    requires n <= |gs.order| && forall k :: k in gs.order ==> k in gs.table
  {
    if n == 0 then 0 else HeadCount(gs, n - 1) + |gs.table[gs.order[n - 1]].alerts|
  }

  lemma {:induction false} HeadsAreMembers(gs: Groups, n: nat)
    requires n <= |gs.order| && forall k :: k in gs.order ==> k in gs.table
    ensures HeadCount(gs, n) == |Members(gs.order[..n], gs.table)|
  {
    if n > 0 {
      HeadsAreMembers(gs, n - 1);
      assert gs.order[..n][..n - 1] == gs.order[..n - 1];
      assert |multiset(gs.table[gs.order[n - 1]].alerts)| == |gs.table[gs.order[n - 1]].alerts|;
    }
  }

  lemma IncidentCount(g: Group, dropped: seq<Alert>)
    ensures IncidentOf(g, dropped).alertCount == |g.alerts|
  {
  }

  lemma {:induction false} CountsAddUp(gs: Groups, dropped: seq<Alert>, n: nat)
    requires n <= |gs.order| && forall k :: k in gs.order ==> k in gs.table
    ensures CountAll(IncidentsOf(gs, dropped, n)) == HeadCount(gs, n)
  {
    hide IncidentOf, CountAll;
    if n == 0 {
      assert CountAll([]) == 0 by { NothingCounted(); }
    } else {
      CountsAddUp(gs, dropped, n - 1);
      IncidentCount(gs.table[gs.order[n - 1]], dropped);
      CountSnoc(IncidentsOf(gs, dropped, n - 1), IncidentOf(gs.table[gs.order[n - 1]], dropped));
    }
  }

  lemma NothingCounted()
    ensures CountAll([]) == 0
  {
  }

  // ------------------------------------------------ order in time

  /** Members stand in time order, and groups in the order of their first members. */
  ghost predicate InTime(gs: Groups, now: Instant) {
    && (forall k :: k in gs.table ==> Sorted(gs.table[k].alerts))
    && (forall k :: k in gs.table ==> gs.table[k].alerts != [] && gs.table[k].alerts[|gs.table[k].alerts| - 1].ts <= now)
    && (forall i, j :: 0 <= i < j < |gs.order| && gs.order[i] in gs.table && gs.order[j] in gs.table ==>
          gs.table[gs.order[i]].alerts[0].ts <= gs.table[gs.order[j]].alerts[0].ts)
    && (forall k :: k in gs.order ==> k in gs.table)
  }

  lemma ExtendedSorted(g: Group, a: Alert)
    requires Sorted(g.alerts) && g.alerts != [] && g.alerts[|g.alerts| - 1].ts <= a.ts
    ensures Sorted(Extended(g, a).alerts) && Extended(g, a).alerts[0] == g.alerts[0]
  {
  }

  lemma ExtendInTime(gs: Groups, k: string, a: Alert, now: Instant)
    requires InTime(gs, now) && now <= a.ts && k in gs.table
    ensures InTime(gs.(table := gs.table[k := Extended(gs.table[k], a)]), a.ts)
  {
    ExtendedSorted(gs.table[k], a);
    hide Sorted;
  }

  lemma NewInTime(gs: Groups, k: string, g: Group, a: Alert, now: Instant)
    requires InTime(gs, now) && now <= a.ts && k !in gs.table && g.alerts == [a]
    ensures InTime(Groups(gs.order + [k], gs.table[k := g]), a.ts)
  {
    SingleSorted(a);
    forall i | 0 <= i < |gs.order| ensures gs.table[gs.order[i]].alerts[0].ts <= a.ts {
      FirstIsEarliest(gs.table[gs.order[i]].alerts);
    }
    hide Sorted;
  }

  lemma PlaceInTime(c: Context, gs: Groups, a: Alert, now: Instant)
    requires InTime(gs, now) && now <= a.ts
    ensures InTime(Place(c, gs, a), a.ts)
  {
    hide Target, InTime;
    var k := Target(c, gs, a);
    if k in gs.table {
      ExtendInTime(gs, k, a, now);
    } else {
      NewInTime(gs, k, Place(c, gs, a).table[k], a, now);
    }
  }

  lemma SingleSorted(a: Alert)
    ensures Sorted([a])
  {
  }

  lemma {:induction false} FirstIsEarliest(alerts: seq<Alert>)
    requires Sorted(alerts) && alerts != []
    ensures alerts[0].ts <= alerts[|alerts| - 1].ts && Earliest(alerts) == alerts[0].ts
  {
    if |alerts| > 1 {
      FirstIsEarliest(alerts[..|alerts| - 1]);
    }
  }

  lemma {:induction false} GroupedInTime(c: Context, kept: seq<Alert>)
    requires Sorted(kept)
    ensures InTime(Grouped(c, kept), if kept == [] then 0.0 else kept[|kept| - 1].ts)
  {
    if kept != [] {
      var init, a := kept[..|kept| - 1], kept[|kept| - 1];
      GroupedInTime(c, init);
      PlaceInTime(c, Grouped(c, init), a, if init == [] then a.ts else init[|init| - 1].ts);
    }
  }

  // ------------------------------------------------ the whole run

  ghost function Correlated(c: Context, alerts: seq<Alert>): seq<Incident> {
    var ordered := Sort(alerts);
    GroupedFormed(c, Kept(ordered));
    var gs := Grouped(c, Kept(ordered));
    IncidentsOf(gs, Dropped(ordered), |gs.order|)
  }

  method Correlate(c: Context, alerts: seq<Alert>) returns (r: Result<seq<Incident>, CorrelationError>)
    ensures r == if |c.topology.dependsOn| > 0 && (c.topology.service == "" || "" in c.topology.dependsOn)
                 then Err(BadTopology)
                 else if exists a :: a in alerts && a.signature == "" then Err(MissingSignature)
                 else Ok(Correlated(c, alerts))
  {
    if Malshaped(c.topology) {
      return Err(BadTopology);
    }
    var ordered := Sort(alerts);
    SortSorts(alerts);
    assert forall a :: a in alerts <==> a in multiset(ordered);
    hide Sort, Kept, Dropped, Sorted;
    var d := Deduplicate(ordered);
    if d.Err? {
      return Err(MissingSignature);
    }
    var gs := GroupAlerts(c, d.value.unique);
    GroupedFormed(c, d.value.unique);
    var incidents := Summarise(gs, d.value.byKey, Dropped(ordered));
    return Ok(incidents);
  }

  /** The loop over the kept alerts. */
  method GroupAlerts(c: Context, unique: seq<Alert>) returns (gs: Groups)
    ensures gs == Grouped(c, unique)
  {
    gs := Groups([], map[]);
    var i := 0;
    while i < |unique|
      invariant 0 <= i <= |unique| && gs == Grouped(c, unique[..i])
    {
      assert unique[..i + 1][..i] == unique[..i];
      OrderIsTable(c, unique[..i]);
      hide Place;
      gs := PlaceOne(c, gs, unique[i]);
      i := i + 1;
    }
    assert unique[..i] == unique;
  }

  method PlaceOne(c: Context, gs: Groups, a: Alert) returns (r: Groups)
    requires forall k :: k in gs.order <==> k in gs.table
    ensures r == Place(c, gs, a)
  {
    hide MergeKey, Fingerprint;
    var merged := FindMerge(c, gs, a);
    var key := if merged.Some? && merged.value != "" then merged.value else Fingerprint(c, a);
    var table, order := gs.table, gs.order;
    if key !in table {
      table := table[key := Group(a.service, a.signature, a.environment, key, [], 0.0, {})];
      order := order + [key];
    }
    table := table[key := Extended(table[key], a)];
    assert table == Place(c, gs, a).table;
    return Groups(order, table);
  }

  /** The loop that turns groups into incidents. */
  method Summarise(gs: Groups, byKey: map<Key, nat>, ghost dropped: seq<Alert>) returns (incidents: seq<Incident>)
    requires forall k :: k in gs.order ==> k in gs.table
    requires forall k :: Get(byKey, k) == CountKey(dropped, k)
    ensures incidents == IncidentsOf(gs, dropped, |gs.order|)
  {
    hide IncidentOf;
    incidents := [];
    var n := 0;
    while n < |gs.order|
      invariant 0 <= n <= |gs.order| && incidents == IncidentsOf(gs, dropped, n)
    {
      var incident := SummariseOne(gs.table[gs.order[n]], byKey, dropped);
      incidents := incidents + [incident];
      n := n + 1;
    }
  }

  method SummariseOne(g: Group, byKey: map<Key, nat>, ghost dropped: seq<Alert>) returns (incident: Incident)
    requires forall k :: Get(byKey, k) == CountKey(dropped, k)
    ensures incident == IncidentOf(g, dropped)
  {
    hide Ids, Earliest, Total, CountsOf;
    var own := SumSuppressed(g.keys, byKey, dropped);
    var ids := Ids(g.alerts);
    var capped := |ids| > MAX_STORED_IDS;
    incident := Incident(g.fp, g.service, g.env, if capped then ids[..MAX_STORED_IDS] else ids,
                         Earliest(g.alerts), g.signature, |g.alerts|, own, capped);
  }

  /** The search over the groups in order of creation. */
  method FindMerge(c: Context, gs: Groups, a: Alert) returns (merged: Option<string>)
    requires forall k :: k in gs.order ==> k in gs.table
    ensures merged == MergeKey(c, gs, a, 0)
    ensures merged.Some? ==>
      exists j :: 0 <= j < |gs.order| && gs.order[j] == merged.value && JoinsKey(c, gs, merged.value, a)
                  && forall h :: 0 <= h < j ==> !JoinsKey(c, gs, gs.order[h], a)
    ensures merged.None? <==> forall j :: 0 <= j < |gs.order| ==> !JoinsKey(c, gs, gs.order[j], a)
  {
    MergeOldest(c, gs, a, 0);
    var i := 0;
    while i < |gs.order|
      invariant 0 <= i <= |gs.order| && MergeKey(c, gs, a, 0) == MergeKey(c, gs, a, i)
    {
      var g := gs.table[gs.order[i]];
      if g.service != a.service && Edge(c.topology, a.service, g.service)
         && Within(a.ts, g.lastTs, MERGE_WINDOW_S) && Similar(a.signature, g.signature) {
        return Some(gs.order[i]);
      }
      i := i + 1;
    }
    return None;
  }

  method SumSuppressed(keys: set<Key>, byKey: map<Key, nat>, ghost dropped: seq<Alert>) returns (total: nat)
    requires forall k :: Get(byKey, k) == CountKey(dropped, k)
    ensures total == Total(CountsOf(keys, dropped))
  {
    total := 0;
    var todo := keys;
    while todo != {}
      invariant todo <= keys && total == Total(CountsOf(keys - todo, dropped))
    {
      var k :| k in todo;
      ghost var counted := CountsOf(keys - todo, dropped);
      TotalUpdate(counted, k, CountKey(dropped, k));
      assert counted[k := CountKey(dropped, k)] == CountsOf(keys - (todo - {k}), dropped);
      total := total + Get(byKey, k);
      todo := todo - {k};
    }
    assert keys - todo == keys;
  }

  /** Incidents come out in the order of detection, each detected at the time of its group's
      first member, and together they count exactly the kept alerts. */
  lemma IncidentsOrdered(c: Context, alerts: seq<Alert>)
    ensures var out, kept := Correlated(c, alerts), Kept(Sort(alerts));
      var gs := Grouped(c, kept);
      && CountAll(out) == |kept| && |out| == |gs.order|
      && (forall i :: 0 <= i < |out| ==>
            && gs.order[i] in gs.table && gs.table[gs.order[i]].alerts != []
            && out[i].fingerprint == gs.order[i]
            && out[i].detectedAt == gs.table[gs.order[i]].alerts[0].ts)
      && (forall i, j :: 0 <= i < j < |out| ==> out[i].detectedAt <= out[j].detectedAt)
  {
    hide Sort, Kept, Dropped, Grouped, Members, IncidentsOf, IncidentOf, GoodGroup, CountAll, Sorted;
    var ordered := Sort(alerts);
    var kept := Kept(ordered);
    SortSorts(alerts);
    KeptSorted(ordered);
    GroupsPartition(c, kept);
    GroupedFormed(c, kept);
    GroupedInTime(c, kept);
    var gs := Grouped(c, kept);
    CountsAddUp(gs, Dropped(ordered), |gs.order|);
    HeadsAreMembers(gs, |gs.order|);
    IncidentAt(gs, Dropped(ordered), |gs.order|);
    assert gs.order[..|gs.order|] == gs.order;
    FirstsOrdered(gs, Dropped(ordered), c);
  }

  lemma FirstsOrdered(gs: Groups, dropped: seq<Alert>, c: Context)
    requires Formed(c, gs) && exists now :: InTime(gs, now)
    ensures forall i :: 0 <= i < |gs.order| ==>
      && IncidentOf(gs.table[gs.order[i]], dropped).detectedAt == gs.table[gs.order[i]].alerts[0].ts
      && IncidentOf(gs.table[gs.order[i]], dropped).fingerprint == gs.order[i]
  {
    hide Total, Ids, Fingerprint, Justified;
    forall i | 0 <= i < |gs.order|
      ensures IncidentOf(gs.table[gs.order[i]], dropped).detectedAt == gs.table[gs.order[i]].alerts[0].ts
    {
      FirstIsEarliest(gs.table[gs.order[i]].alerts);
    }
  }

  /** The incident of a single alert. */
  lemma OneIncident(c: Context, alerts: seq<Alert>, x: Alert)
    requires Kept(Sort(alerts)) == [x]
    ensures |Correlated(c, alerts)| == 1 && Correlated(c, alerts)[0].sourceAlertIds == [x.alertId]
  {
    hide Fingerprint, Sort, Kept, Dropped, Total;
    assert [x][..0] == [];
    assert Grouped(c, []) == Groups([], map[]);
    assert Target(c, Groups([], map[]), x) == Fingerprint(c, x);
    var gs := Grouped(c, [x]);
    assert gs == Place(c, Grouped(c, []), x);
    assert |gs.order| == 1 && gs.table[gs.order[0]].alerts == [x];
    assert Ids([x]) == [x.alertId];
    IncidentAt(gs, Dropped(Sort(alerts)), 1);
  }

  /** With a shared timestamp the input order decides which of two duplicates survives, and so
      what the incident says. */
  lemma TieChangesIncidents(c: Context) returns (x: Alert, y: Alert)
    ensures multiset([x, y]) == multiset([y, x])
    ensures Kept(Sort([x, y])) == [x] && Kept(Sort([y, x])) == [y]
    ensures Correlated(c, [x, y]) != Correlated(c, [y, x])
  {
    x := Alert("a", "web", "cpu_spike", "prod", 0.0);
    y := Alert("b", "web", "cpu_spike", "prod", 0.0);
    TwoDuplicates(x, y);
    TwoDuplicates(y, x);
    hide Correlated;
    OneIncident(c, [x, y], x);
    OneIncident(c, [y, x], y);
    assert [x.alertId][0] != [y.alertId][0];
  }

  lemma TwoDuplicates(x: Alert, y: Alert)
    requires x.ts == y.ts && KeyOf(x) == KeyOf(y)
    ensures Kept(Sort([x, y])) == [x]
  {
    assert [x, y][..1] == [x] && [x][..0] == [];
    assert Sort([x]) == [x];
    assert Sort([x, y]) == [x, y];
    assert Kept([x]) == [x];
    assert LastKept([x], KeyOf(y)) == Some(x.ts);
  }
}
