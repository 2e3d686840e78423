/** Alert correlation (backend/app/services/correlator.py): sort by time, suppress duplicates,
    group with cross-service merging. */
module Correlator {
  import opened Wrappers
  import opened Sums

  datatype Alert = Alert(alertId: string, service: string, signature: string, environment: string, ts: Instant)

  type Key = (string, string, string)

  const DEPLOY_WINDOW_S: real := 900.0
  const MERGE_WINDOW_S: real := 600.0
  const DEDUP_WINDOW_S: real := 5.0
  const MAX_STORED_IDS: nat := 100

  function KeyOf(a: Alert): Key {
    (a.service, a.signature, a.environment)
  }

  predicate Within(x: Instant, y: Instant, window: real) {
    -window <= x - y <= window
  }

  // ------------------------------------------------ sorting by timestamp

  /** Behind everything that is not later. */
  function Insert(s: seq<Alert>, a: Alert): seq<Alert> {
    if s != [] && a.ts < s[|s| - 1].ts then Insert(s[..|s| - 1], a) + [s[|s| - 1]] else s + [a]
  }

  /** The stable sort by timestamp. */
  function Sort(s: seq<Alert>): seq<Alert> {
    if s == [] then [] else Insert(Sort(s[..|s| - 1]), s[|s| - 1])
  }

  ghost predicate Sorted(s: seq<Alert>) {
    forall i, j :: 0 <= i < j < |s| ==> s[i].ts <= s[j].ts
  }

  function At(s: seq<Alert>, t: Instant): seq<Alert> {
    if s == [] then []
    else At(s[..|s| - 1], t) + if s[|s| - 1].ts == t then [s[|s| - 1]] else []
  }

  lemma {:induction false} InsertPermutes(s: seq<Alert>, a: Alert)
    ensures multiset(Insert(s, a)) == multiset(s) + multiset{a}
  {
    if s != [] && a.ts < s[|s| - 1].ts {
      InsertPermutes(s[..|s| - 1], a);
      assert s == s[..|s| - 1] + [s[|s| - 1]];
    }
  }

  lemma {:induction false} InsertSorts(s: seq<Alert>, a: Alert)
    requires Sorted(s)
    ensures Sorted(Insert(s, a))
    ensures forall i :: 0 <= i < |Insert(s, a)| ==> Insert(s, a)[i] == a || Insert(s, a)[i] in s
  {
    if s != [] && a.ts < s[|s| - 1].ts {
      var init := s[..|s| - 1];
      InsertSorts(init, a);
      forall x | x in init ensures x in s && x.ts <= s[|s| - 1].ts {
        var i :| 0 <= i < |init| && init[i] == x;
        assert s[i] == x;
      }
    }
  }

  lemma {:induction false} InsertStable(s: seq<Alert>, a: Alert, t: Instant)
    requires Sorted(s)
    ensures At(Insert(s, a), t) == At(s, t) + if a.ts == t then [a] else []
  {
    if s != [] && a.ts < s[|s| - 1].ts {
      var init, last := s[..|s| - 1], s[|s| - 1];
      InsertStable(init, a, t);
      var r := Insert(init, a);
      assert (r + [last])[..|r|] == r;
      if last.ts == t {
        assert At(init, t) + [] + [last] == At(init, t) + [last] + [];
      }
    } else {
      assert (s + [a])[..|s|] == s;
    }
  }

  /** Sorted, a permutation, and stable: alerts of one time keep their order. */
  lemma {:induction false} SortSorts(s: seq<Alert>)
    ensures Sorted(Sort(s)) && multiset(Sort(s)) == multiset(s)
    ensures forall t :: At(Sort(s), t) == At(s, t)
  {
    if s != [] {
      var init, last := s[..|s| - 1], s[|s| - 1];
      SortSorts(init);
      InsertSorts(Sort(init), last);
      InsertPermutes(Sort(init), last);
      forall t ensures At(Sort(s), t) == At(s, t) {
        InsertStable(Sort(init), last, t);
      }
      assert s == init + [last];
    }
  }

  /** No two different alerts share a timestamp. */
  ghost predicate TimesIdentify(s: seq<Alert>) {
    forall x, y :: x in s && y in s && x.ts == y.ts ==> x == y
  }

  lemma TailOf(s: seq<Alert>)
    requires s != []
    ensures multiset(s) == multiset{s[0]} + multiset(s[1..])
  {
    assert s == [s[0]] + s[1..];
  }

  lemma SameHead(s: seq<Alert>, t: seq<Alert>)
    requires Sorted(s) && Sorted(t) && multiset(s) == multiset(t) && TimesIdentify(s) && s != [] && t != []
    ensures s[0] == t[0]
  {
    assert s[0] in multiset(t) && t[0] in multiset(s);
    var i :| 0 <= i < |t| && t[i] == s[0];
    var j :| 0 <= j < |s| && s[j] == t[0];
    assert t[0].ts <= t[i].ts && s[0].ts <= s[j].ts;
  }

  lemma Tails(s: seq<Alert>, t: seq<Alert>)
    requires s != [] && t != [] && s[0] == t[0] && multiset(s) == multiset(t) && Sorted(s) && Sorted(t) && TimesIdentify(s)
    ensures multiset(s[1..]) == multiset(t[1..]) && Sorted(s[1..]) && Sorted(t[1..]) && TimesIdentify(s[1..])
  {
    TailOf(s);
    TailOf(t);
    assert multiset(s[1..]) == multiset(s) - multiset{s[0]};
    assert multiset(t[1..]) == multiset(t) - multiset{s[0]};
  }

  lemma {:induction false} SortedUnique(s: seq<Alert>, t: seq<Alert>)
    requires Sorted(s) && Sorted(t) && multiset(s) == multiset(t) && TimesIdentify(s)
    ensures s == t
  {
    assert |multiset(s)| == |s| && |multiset(t)| == |t|;
    if s != [] {
      SameHead(s, t);
      Tails(s, t);
      hide Sorted, TimesIdentify;
      SortedUnique(s[1..], t[1..]);
      assert s == [s[0]] + s[1..] && t == [t[0]] + t[1..];
    }
  }

  lemma {:induction false} AtFront(x: Alert, rest: seq<Alert>)
    ensures At([x] + rest, x.ts) != [] && At([x] + rest, x.ts)[0] == x
  {
    var s := [x] + rest;
    if rest == [] {
      assert s[..0] == [];
    } else {
      assert s[..|s| - 1] == [x] + rest[..|rest| - 1];
      AtFront(x, rest[..|rest| - 1]);
    }
  }

  lemma Fronted(s: seq<Alert>, x: Alert) returns (t: seq<Alert>)
    requires x in s
    ensures multiset(t) == multiset(s) && t != [] && t[0] == x
  {
    var i :| 0 <= i < |s| && s[i] == x;
    t := [x] + (s[..i] + s[i + 1..]);
    assert s == s[..i] + [x] + s[i + 1..];
  }

  lemma OrderDetermined(s: seq<Alert>, t: seq<Alert>)
    requires TimesIdentify(s) && multiset(t) == multiset(s)
    ensures Sort(t) == Sort(s)
  {
    SortSorts(s);
    SortSorts(t);
    forall x | x in Sort(s) ensures x in s {
      assert x in multiset(Sort(s));
    }
    SortedUnique(Sort(s), Sort(t));
  }

  /** Two alerts of one time come out in the order in which they went in. */
  lemma TieKeepsOrder(s: seq<Alert>, x: Alert, y: Alert) returns (t: seq<Alert>, u: seq<Alert>)
    requires x in s && y in s && x.ts == y.ts && x != y
    ensures multiset(t) == multiset(s) && multiset(u) == multiset(s) && Sort(t) != Sort(u)
  {
    hide At, Sort;
    t := Fronted(s, x);
    u := Fronted(s, y);
    FrontStays(t);
    FrontStays(u);
  }

  lemma FrontStays(s: seq<Alert>)
    requires s != []
    ensures At(Sort(s), s[0].ts) != [] && At(Sort(s), s[0].ts)[0] == s[0]
  {
    hide At, Sort;
    SortStable(s, s[0].ts);
    AtFront(s[0], s[1..]);
    assert s == [s[0]] + s[1..];
  }

  lemma SortStable(s: seq<Alert>, t: Instant)
    ensures At(Sort(s), t) == At(s, t)
  {
    hide At, Sort, Sorted;
    SortSorts(s);
  }

  /** The processing order is the same for every permutation of the input if and only if no two
      different alerts share a timestamp. */
  lemma OrderDeterminedExactly(s: seq<Alert>)
    ensures (forall t :: multiset(t) == multiset(s) ==> Sort(t) == Sort(s)) <==> TimesIdentify(s)
  {
    if TimesIdentify(s) {
      forall t | multiset(t) == multiset(s) ensures Sort(t) == Sort(s) {
        OrderDetermined(s, t);
      }
    } else {
      var x, y :| x in s && y in s && x.ts == y.ts && x != y;
      var t, u := TieKeepsOrder(s, x, y);
    }
  }

  // ------------------------------------------------ de-duplication

  /** The time of the last kept alert with this key. */
  function LastKept(kept: seq<Alert>, key: Key): Option<Instant> {
    if kept == [] then None
    else if KeyOf(kept[|kept| - 1]) == key then Some(kept[|kept| - 1].ts)
    else LastKept(kept[..|kept| - 1], key)
  }

  predicate HasId(kept: seq<Alert>, id: string) {
    exists i :: 0 <= i < |kept| && kept[i].alertId == id
  }

  predicate Suppressed(kept: seq<Alert>, a: Alert) {
    HasId(kept, a.alertId) ||
    match LastKept(kept, KeyOf(a)) case Some(t) => Within(a.ts, t, DEDUP_WINDOW_S) case None => false
  }

  function Kept(alerts: seq<Alert>): seq<Alert> {
    if alerts == [] then []
    else
      var before, a := Kept(alerts[..|alerts| - 1]), alerts[|alerts| - 1];
      if Suppressed(before, a) then before else before + [a]
  }

  /** The suppressed alerts, in input order. */
  function Dropped(alerts: seq<Alert>): seq<Alert> {
    if alerts == [] then []
    else
      var init, a := alerts[..|alerts| - 1], alerts[|alerts| - 1];
      Dropped(init) + if Suppressed(Kept(init), a) then [a] else []
  }

  function CountKey(alerts: seq<Alert>, key: Key): nat {
    if alerts == [] then 0
    else CountKey(alerts[..|alerts| - 1], key) + if KeyOf(alerts[|alerts| - 1]) == key then 1 else 0
  }

  datatype Dedup = Dedup(unique: seq<Alert>, suppressed: nat, byKey: map<Key, nat>)

  function Get(m: map<Key, nat>, key: Key): nat {
    if key in m then m[key] else 0
  }

  /** What the loop leaves behind: kept alerts, their number and key-wise counts of the rest. */
  ghost predicate Tallies(d: Dedup, alerts: seq<Alert>) {
    && d.unique == Kept(alerts)
    && d.suppressed == |Dropped(alerts)|
    && (forall key :: Get(d.byKey, key) == CountKey(Dropped(alerts), key))
    && Total(d.byKey) == d.suppressed
  }

  datatype CorrelationError = MissingSignature | BadTopology

  lemma OneMore(alerts: seq<Alert>, i: nat)
    requires i < |alerts|
    ensures var before, a := alerts[..i], alerts[i];
      && Kept(alerts[..i + 1]) == (if Suppressed(Kept(before), a) then Kept(before) else Kept(before) + [a])
      && Dropped(alerts[..i + 1]) == (if Suppressed(Kept(before), a) then Dropped(before) + [a] else Dropped(before))
  {
    assert alerts[..i + 1][..i] == alerts[..i];
  }

  method Deduplicate(alerts: seq<Alert>) returns (r: Result<Dedup, CorrelationError>)
    ensures r.Ok? <==> forall a :: a in alerts ==> a.signature != ""
    ensures r.Err? ==> r.error == MissingSignature
    ensures r.Ok? ==> Tallies(r.value, alerts)
  {
    hide Kept, Dropped, Suppressed, LastKept, HasId, CountKey, Within;
    Nothing();
    assert alerts[..0] == [];
    var seenIds: set<string> := {};
    var lastSeen: map<Key, Instant> := map[];
    var unique: seq<Alert> := [];
    var suppressed := 0;
    var byKey: map<Key, nat> := map[];
    var i := 0;
    while i < |alerts|
      invariant 0 <= i <= |alerts|
      invariant forall j :: 0 <= j < i ==> alerts[j].signature != ""
      invariant forall id :: id in seenIds <==> HasId(unique, id)
      invariant forall key :: LastKept(unique, key) == if key in lastSeen then Some(lastSeen[key]) else None
      invariant Tallies(Dedup(unique, suppressed, byKey), alerts[..i])
    {
      var a := alerts[i];
      if a.signature == "" {
        return Err(MissingSignature);
      }
      OneMore(alerts, i);
      SuppressedMeans(unique, a);
      var key := KeyOf(a);
      if a.alertId in seenIds || (key in lastSeen && Within(a.ts, lastSeen[key], DEDUP_WINDOW_S)) {
        TallyOne(byKey, Dropped(alerts[..i]), a);
        suppressed := suppressed + 1;
        byKey := byKey[key := Get(byKey, key) + 1];
      } else {
        IdAdded(unique, a);
        KeyAdded(unique, a);
        seenIds := seenIds + {a.alertId};
        lastSeen := lastSeen[key := a.ts];
        unique := unique + [a];
      }
      i := i + 1;
    }
    assert alerts[..i] == alerts;
    return Ok(Dedup(unique, suppressed, byKey));
  }

  lemma Nothing()
    ensures Tallies(Dedup([], 0, map[]), [])
    ensures forall id :: !HasId([], id)
    ensures forall key :: LastKept([], key) == None
  {
  }

  lemma SuppressedMeans(kept: seq<Alert>, a: Alert)
    ensures Suppressed(kept, a) <==>
      (|| HasId(kept, a.alertId)
       || (LastKept(kept, KeyOf(a)).Some? && Within(a.ts, LastKept(kept, KeyOf(a)).value, DEDUP_WINDOW_S)))
  {
  }

  lemma TallyOne(m: map<Key, nat>, dropped: seq<Alert>, a: Alert)
    requires forall key :: Get(m, key) == CountKey(dropped, key)
    ensures forall key :: Get(m[KeyOf(a) := Get(m, KeyOf(a)) + 1], key) == CountKey(dropped + [a], key)
    ensures Total(m[KeyOf(a) := Get(m, KeyOf(a)) + 1]) == Total(m) + 1
  {
    assert (dropped + [a])[..|dropped|] == dropped;
    TotalUpdate(m, KeyOf(a), Get(m, KeyOf(a)) + 1);
  }

  lemma IdAdded(kept: seq<Alert>, a: Alert)
    ensures forall id :: HasId(kept + [a], id) <==> HasId(kept, id) || id == a.alertId
  {
    forall id | HasId(kept, id) || id == a.alertId ensures HasId(kept + [a], id) {
      if HasId(kept, id) {
        var i :| 0 <= i < |kept| && kept[i].alertId == id;
        assert (kept + [a])[i].alertId == id;
      } else {
        assert (kept + [a])[|kept|].alertId == id;
      }
    }
  }

  lemma KeyAdded(kept: seq<Alert>, a: Alert)
    ensures forall key :: LastKept(kept + [a], key) == if key == KeyOf(a) then Some(a.ts) else LastKept(kept, key)
  {
    assert (kept + [a])[..|kept|] == kept;
  }

  /** `t` keeps some elements of `s`, in order. */
  ghost predicate IsSubsequence(t: seq<Alert>, s: seq<Alert>) {
    if t == [] then true
    else if s == [] then false
    else if t[|t| - 1] == s[|s| - 1] && IsSubsequence(t[..|t| - 1], s[..|s| - 1]) then true
    else IsSubsequence(t, s[..|s| - 1])
  }

  ghost predicate DistinctIds(s: seq<Alert>) {
    forall i, j :: 0 <= i < j < |s| ==> s[i].alertId != s[j].alertId
  }

  lemma {:induction false} DedupCounts(alerts: seq<Alert>)
    ensures |Kept(alerts)| + |Dropped(alerts)| == |alerts|
    ensures multiset(Kept(alerts)) + multiset(Dropped(alerts)) == multiset(alerts)
  {
    hide Suppressed;
    if alerts != [] {
      var init, a := alerts[..|alerts| - 1], alerts[|alerts| - 1];
      DedupCounts(init);
      assert alerts == init + [a];
      assert multiset(alerts) == multiset(init) + multiset{a};
    }
  }

  lemma {:induction false} KeptSubsequence(alerts: seq<Alert>)
    ensures IsSubsequence(Kept(alerts), alerts)
  {
    if alerts != [] {
      var init, a := alerts[..|alerts| - 1], alerts[|alerts| - 1];
      KeptSubsequence(init);
      assert (Kept(init) + [a])[..|Kept(init)|] == Kept(init);
    }
  }

  lemma {:induction false} KeptDistinct(alerts: seq<Alert>)
    ensures DistinctIds(Kept(alerts))
  {
    if alerts != [] {
      KeptDistinct(alerts[..|alerts| - 1]);
    }
  }

  /** Kept and suppressed alerts split the input; the kept ones are a subsequence of it with
      distinct ids. */
  lemma DedupSplits(alerts: seq<Alert>)
    ensures |Kept(alerts)| + |Dropped(alerts)| == |alerts|
    ensures multiset(Kept(alerts)) + multiset(Dropped(alerts)) == multiset(alerts)
    ensures IsSubsequence(Kept(alerts), alerts) && DistinctIds(Kept(alerts))
  {
    DedupCounts(alerts);
    KeptSubsequence(alerts);
    KeptDistinct(alerts);
  }

  lemma {:induction false} KeptIn(alerts: seq<Alert>, x: Alert)
    requires x in Kept(alerts)
    ensures x in alerts
  {
    if x !in Kept(alerts[..|alerts| - 1]) {
      assert x == alerts[|alerts| - 1];
    } else {
      KeptIn(alerts[..|alerts| - 1], x);
    }
  }

  lemma SortedInit(alerts: seq<Alert>)
    requires Sorted(alerts) && alerts != []
    ensures Sorted(alerts[..|alerts| - 1])
    ensures forall x :: x in Kept(alerts[..|alerts| - 1]) ==> x.ts <= alerts[|alerts| - 1].ts
  {
    var init := alerts[..|alerts| - 1];
    forall x | x in Kept(init) ensures x.ts <= alerts[|alerts| - 1].ts {
      KeptIn(init, x);
      var i :| 0 <= i < |init| && init[i] == x;
      assert alerts[i] == x;
    }
  }

  lemma {:induction false} KeptSorted(alerts: seq<Alert>)
    requires Sorted(alerts)
    ensures Sorted(Kept(alerts))
  {
    if alerts != [] {
      SortedInit(alerts);
      KeptSorted(alerts[..|alerts| - 1]);
    }
  }

  /** In a sorted list the last alert of a key is its latest. */
  lemma {:induction false} LastIsLatest(kept: seq<Alert>, key: Key)
    requires Sorted(kept)
    ensures LastKept(kept, key).None? <==> forall x :: x in kept ==> KeyOf(x) != key
    ensures LastKept(kept, key).Some? ==>
      && (exists x :: x in kept && KeyOf(x) == key && x.ts == LastKept(kept, key).value)
      && (forall x :: x in kept && KeyOf(x) == key ==> x.ts <= LastKept(kept, key).value)
  {
    if kept != [] {
      var init, last := kept[..|kept| - 1], kept[|kept| - 1];
      LastIsLatest(init, key);
      assert kept == init + [last];
      if KeyOf(last) == key {
        assert last in kept;
      }
    }
  }

  predicate SameKind(a: Alert, b: Alert) {
    a.service == b.service && a.signature == b.signature && a.environment == b.environment
  }

  /** On sorted input an alert is suppressed exactly when an already kept one has its id, or
      its key at most five seconds before. */
  lemma SuppressedExactly(alerts: seq<Alert>)
    requires Sorted(alerts) && alerts != []
    ensures var a := alerts[|alerts| - 1];
      Suppressed(Kept(alerts[..|alerts| - 1]), a) <==>
        exists w :: w in Kept(alerts[..|alerts| - 1]) &&
          (w.alertId == a.alertId || (SameKind(w, a) && a.ts - w.ts <= 5.0))
  {
    var kept, a := Kept(alerts[..|alerts| - 1]), alerts[|alerts| - 1];
    SortedInit(alerts);
    KeptSorted(alerts[..|alerts| - 1]);
    LastIsLatest(kept, KeyOf(a));
    if HasId(kept, a.alertId) {
      var i :| 0 <= i < |kept| && kept[i].alertId == a.alertId;
      assert kept[i] in kept;
    }
  }

  /** On sorted input, kept alerts of one key are more than five seconds apart. */
  lemma {:induction false} KeptApart(alerts: seq<Alert>)
    requires Sorted(alerts)
    ensures var k := Kept(alerts);
      forall i, j :: 0 <= i < j < |k| && SameKind(k[i], k[j]) ==> k[j].ts - k[i].ts > 5.0
  {
    if alerts != [] {
      var init, a := alerts[..|alerts| - 1], alerts[|alerts| - 1];
      SortedInit(alerts);
      KeptApart(init);
      SuppressedExactly(alerts);
      var before := Kept(init);
      if !Suppressed(before, a) {
        forall i | 0 <= i < |before| && SameKind(before[i], a) ensures a.ts - before[i].ts > DEDUP_WINDOW_S {
          assert before[i] in before;
        }
      }
    }
  }

  /** A second pass suppresses nothing, sorted input or not. */
  lemma {:induction false} SecondPassKeepsAll(alerts: seq<Alert>)
    ensures Kept(Kept(alerts)) == Kept(alerts) && Dropped(Kept(alerts)) == []
  {
    if alerts != [] {
      var init, a := alerts[..|alerts| - 1], alerts[|alerts| - 1];
      SecondPassKeepsAll(init);
      var before := Kept(init);
      assert (before + [a])[..|before|] == before;
    }
  }
}
