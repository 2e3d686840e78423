/** Alerts that share a timestamp: exactly when their input order decides which alerts the
    correlation keeps. */
module Ties {
  import opened Wrappers
  import opened Sums
  import opened Correlator
  import opened Grouping

  /** Once kept, `w` suppresses `a` if it stands within the window. */
  predicate Clash(w: Alert, a: Alert) {
    w.alertId == a.alertId || (SameKind(w, a) && a.ts - w.ts <= DEDUP_WINDOW_S)
  }

  /** Nothing kept before its time suppresses the alert. */
  ghost predicate Clear(kept: seq<Alert>, a: Alert) {
    forall w :: w in kept && w.ts < a.ts ==> !Clash(w, a)
  }

  /** Of alerts that share a timestamp, all but one are suppressed by what was kept earlier. */
  ghost predicate HarmlessTies(alerts: seq<Alert>) {
    OneClear(alerts, Kept(Sort(alerts)))
  }

  ghost predicate OneClear(alerts: seq<Alert>, kept: seq<Alert>) {
    forall x, y :: x in alerts && y in alerts && x.ts == y.ts && Clear(kept, x) && Clear(kept, y) ==> x == y
  }

  // ------------------------------------------------ what is kept of a sorted list

  /** A dropped alert has a kept one before it that clashes. */
  lemma {:induction false} KeptOrBlocked(s: seq<Alert>, x: Alert)
    requires Sorted(s) && x in s
    ensures x in Kept(s) || exists w :: w in Kept(s) && w.ts <= x.ts && Clash(w, x)
  {
    var init, last := s[..|s| - 1], s[|s| - 1];
    SortedInit(s);
    if x in init {
      KeptOrBlocked(init, x);
    } else {
      assert s == init + [last];
      SuppressedExactly(s);
      hide Suppressed, SameKind;
      if Suppressed(Kept(init), last) {
        var w :| w in Kept(init) && Clash(w, last);
      }
    }
  }

  lemma KeptClear(s: seq<Alert>, x: Alert)
    requires Sorted(s) && x in Kept(s)
    ensures Clear(Kept(s), x)
  {
    var k := Kept(s);
    hide Kept, Sorted, DistinctIds, Clash;
    var i :| 0 <= i < |k| && k[i] == x;
    forall w | w in k && w.ts < x.ts ensures !Clash(w, x) {
      var j :| 0 <= j < |k| && k[j] == w;
      NoClash(s, j, i);
    }
  }

  lemma NoClash(s: seq<Alert>, j: nat, i: nat)
    requires Sorted(s) && j < |Kept(s)| && i < |Kept(s)| && Kept(s)[j].ts < Kept(s)[i].ts
    ensures !Clash(Kept(s)[j], Kept(s)[i])
  {
    hide Kept, SameKind;
    KeptDistinct(s);
    KeptSorted(s);
    KeptApart(s);
    assert j < i;
  }

  ghost predicate SameBefore(k: seq<Alert>, m: seq<Alert>, t: Instant) {
    forall w: Alert :: w.ts < t ==> (w in k <==> w in m)
  }

  lemma SameClear(k: seq<Alert>, m: seq<Alert>, z: Alert)
    requires SameBefore(k, m, z.ts)
    ensures Clear(k, z) <==> Clear(m, z)
  {
  }

  lemma ClearOfEarlier(k: seq<Alert>, w: Alert, x: Alert)
    requires Clear(k, x) && w in k && w.ts < x.ts
    ensures !Clash(w, x)
  {
  }

  lemma KeptIfClear(s: seq<Alert>, t: seq<Alert>, x: Alert)
    requires Sorted(t) && multiset(s) == multiset(t) && x in s && Clear(Kept(t), x)
    requires SameBefore(Kept(s), Kept(t), x.ts) && OneClear(s, Kept(s))
    ensures x in Kept(t)
  {
    hide Kept, Sorted, Clash, SameBefore, Clear;
    assert x in multiset(t);
    KeptOrBlocked(t, x);
    SameClear(Kept(s), Kept(t), x);
    forall w | w in Kept(t) && w.ts <= x.ts && Clash(w, x) ensures x in Kept(t) {
      if w.ts == x.ts {
        KeptClear(t, w);
        KeptIn(t, w);
        SameClear(Kept(s), Kept(t), w);
        assert w in multiset(s);
      } else {
        ClearOfEarlier(Kept(t), w, x);
      }
    }
  }

  /** Two orders of the same alerts keep the same ones. */
  lemma {:induction false} Agree(s: seq<Alert>, t: seq<Alert>, i: nat)
    requires Sorted(s) && Sorted(t) && multiset(s) == multiset(t) && i < |s| && OneClear(s, Kept(s))
    ensures s[i] in Kept(s) <==> s[i] in Kept(t)
    decreases i
  {
    hide Kept, Clash, Clear, OneClear;
    var x := s[i];
    forall w: Alert | w.ts < x.ts ensures w in Kept(s) <==> w in Kept(t) {
      if w in s {
        var j :| 0 <= j < |s| && s[j] == w;
        assert j < i;
        Agree(s, t, j);
      } else {
        assert w !in multiset(s);
        OnlyInput(s, w);
        OnlyInput(t, w);
      }
    }
    hide Sorted;
    AgreeAt(s, t, x);
  }

  lemma AgreeAt(s: seq<Alert>, t: seq<Alert>, x: Alert)
    requires Sorted(s) && Sorted(t) && multiset(s) == multiset(t) && x in s && OneClear(s, Kept(s))
    requires SameBefore(Kept(s), Kept(t), x.ts)
    ensures x in Kept(s) <==> x in Kept(t)
  {
    hide Kept, Clash, Clear, OneClear, Sorted;
    SameClear(Kept(s), Kept(t), x);
    if x in Kept(s) {
      KeptClear(s, x);
      KeptIfClear(s, t, x);
    } else if x in Kept(t) {
      KeptClear(t, x);
      assert SameBefore(Kept(s), Kept(s), x.ts);
      KeptIfClear(s, s, x);
    }
  }

  lemma OnlyInput(s: seq<Alert>, w: Alert)
    ensures w in Kept(s) ==> w in multiset(s)
  {
    if w in Kept(s) {
      KeptIn(s, w);
    }
  }

  lemma KeptTimesIdentify(s: seq<Alert>)
    requires Sorted(s) && OneClear(s, Kept(s))
    ensures TimesIdentify(Kept(s))
  {
    hide Kept, Clash, Clear, Sorted;
    forall x, y | x in Kept(s) && y in Kept(s) && x.ts == y.ts ensures x == y {
      KeptClear(s, x);
      KeptClear(s, y);
      KeptIn(s, x);
      KeptIn(s, y);
    }
  }

  lemma SameKept(s: seq<Alert>, t: seq<Alert>)
    requires Sorted(s) && Sorted(t) && multiset(s) == multiset(t) && OneClear(s, Kept(s))
    ensures Kept(t) == Kept(s)
  {
    hide Kept, Clash, Clear, OneClear, Sorted;
    KeptDistinct(s);
    KeptDistinct(t);
    hide DistinctIds;
    forall x ensures multiset(Kept(s))[x] == multiset(Kept(t))[x] {
      OnlyInput(s, x);
      OnlyInput(t, x);
      if x in multiset(s) {
        var i :| 0 <= i < |s| && s[i] == x;
        Agree(s, t, i);
      }
      if x in Kept(s) && x in Kept(t) {
        CountOnce(Kept(s), x);
        CountOnce(Kept(t), x);
      }
    }
    assert multiset(Kept(s)) == multiset(Kept(t));
    KeptTimesIdentify(s);
    KeptSorted(s);
    KeptSorted(t);
    hide TimesIdentify;
    SortedUnique(Kept(s), Kept(t));
  }

  // ------------------------------------------------ a tie that matters

  /** A clear alert in front of all others of its time is the first kept one of that time. */
  lemma {:induction false} FrontKept(s: seq<Alert>, a: Alert)
    requires Sorted(s) && At(s, a.ts) != [] && At(s, a.ts)[0] == a && Clear(Kept(s), a)
    ensures At(Kept(s), a.ts) != [] && At(Kept(s), a.ts)[0] == a
  {
    assert s != [];
    var init, last := s[..|s| - 1], s[|s| - 1];
    assert s == init + [last];
    hide Sorted, Clash, Suppressed, Kept, At;
    SortedInit(s);
    KeptSnoc(init, last);
    AtSnoc(init, last, a.ts);
    AtSnoc(Kept(init), last, a.ts);
    if At(init, a.ts) != [] {
      assert forall w :: w in Kept(init) ==> w in Kept(s);
      FrontKept(init, a);
    } else {
      NoneAt(init, a.ts);
      FirstClear(s, a);
    }
  }

  lemma KeptSnoc(init: seq<Alert>, last: Alert)
    ensures Kept(init + [last]) == if Suppressed(Kept(init), last) then Kept(init) else Kept(init) + [last]
  {
    assert (init + [last])[..|init|] == init;
  }

  lemma AtSnoc(s: seq<Alert>, x: Alert, t: Instant)
    ensures At(s + [x], t) == At(s, t) + if x.ts == t then [x] else []
  {
    assert (s + [x])[..|s|] == s;
  }

  lemma {:induction false} NoneAt(s: seq<Alert>, t: Instant)
    ensures At(s, t) == [] <==> forall x :: x in s ==> x.ts != t
  {
    if s != [] {
      NoneAt(s[..|s| - 1], t);
      assert s == s[..|s| - 1] + [s[|s| - 1]];
    }
  }

  lemma FirstClear(s: seq<Alert>, a: Alert)
    requires s != [] && Sorted(s) && s[|s| - 1] == a && Clear(Kept(s), a)
    requires forall x :: x in s[..|s| - 1] ==> x.ts != a.ts
    ensures !Suppressed(Kept(s[..|s| - 1]), a) && At(Kept(s[..|s| - 1]), a.ts) == []
  {
    var init := s[..|s| - 1];
    SuppressedExactly(s);
    SortedInit(s);
    KeptSnoc(init, a);
    assert s == init + [a];
    hide Sorted, Suppressed, Kept;
    forall w | w in Kept(init) ensures w.ts != a.ts {
      OnlyInput(init, w);
    }
    NoneAt(Kept(init), a.ts);
    forall w | w in Kept(init) ensures !Clash(w, a) {
      assert w in Kept(s);
    }
  }

  /** The alerts that are kept, and their order, are the same for every permutation of the input
      if and only if all ties are harmless, as they are when there are none. */
  lemma KeptDeterminedExactly(alerts: seq<Alert>)
    ensures (forall t :: multiset(t) == multiset(alerts) ==> Kept(Sort(t)) == Kept(Sort(alerts))) <==> HarmlessTies(alerts)
    ensures TimesIdentify(alerts) ==> HarmlessTies(alerts)
  {
    hide Kept, Sort, Clear, Sorted;
    SortSorts(alerts);
    if HarmlessTies(alerts) {
      forall t | multiset(t) == multiset(alerts) ensures Kept(Sort(t)) == Kept(Sort(alerts)) {
        SameKeptSorted(alerts, t);
      }
    } else {
      var kept := Kept(Sort(alerts));
      var x, y :| x in alerts && y in alerts && x.ts == y.ts && Clear(kept, x) && Clear(kept, y) && x != y;
      var t := OtherKept(alerts, x, y);
    }
  }

  /** Two clear alerts of one time: put in front, each is the first one kept of that time. */
  lemma OtherKept(alerts: seq<Alert>, x: Alert, y: Alert) returns (t: seq<Alert>)
    requires x in alerts && y in alerts && x.ts == y.ts && x != y
    requires Clear(Kept(Sort(alerts)), x) && Clear(Kept(Sort(alerts)), y)
    ensures multiset(t) == multiset(alerts) && Kept(Sort(t)) != Kept(Sort(alerts))
  {
    hide Kept, Sort, Clear, At;
    t := Fronted(alerts, x);
    if Kept(Sort(t)) == Kept(Sort(alerts)) {
      FrontedKept(t);
      t := Fronted(alerts, y);
      if Kept(Sort(t)) == Kept(Sort(alerts)) {
        FrontedKept(t);
      }
    }
  }

  lemma FrontedKept(t: seq<Alert>)
    requires t != [] && Clear(Kept(Sort(t)), t[0])
    ensures At(Kept(Sort(t)), t[0].ts) != [] && At(Kept(Sort(t)), t[0].ts)[0] == t[0]
  {
    hide Kept, Sort, Clear, Sorted, At;
    SortSorts(t);
    FrontStays(t);
    FrontKept(Sort(t), t[0]);
  }

  lemma SameKeptSorted(alerts: seq<Alert>, t: seq<Alert>)
    requires HarmlessTies(alerts) && multiset(t) == multiset(alerts)
    ensures Kept(Sort(t)) == Kept(Sort(alerts))
  {
    hide Kept, Sort, Clear, Sorted;
    SortSorts(alerts);
    SortSorts(t);
    assert forall x :: x in Sort(alerts) ==> x in multiset(Sort(alerts));
    assert OneClear(Sort(alerts), Kept(Sort(alerts)));
    SameKept(Sort(alerts), Sort(t));
  }

  // ------------------------------------------------ the incidents

  lemma {:induction false} CountTaken(s: seq<Alert>, i: nat, key: Key)
    requires i < |s|
    ensures CountKey(s, key) == CountKey(s[..i] + s[i + 1..], key) + if KeyOf(s[i]) == key then 1 else 0
  {
    var init, last := s[..|s| - 1], s[|s| - 1];
    var rest := s[..i] + s[i + 1..];
    if i == |s| - 1 {
      assert rest == init;
    } else {
      CountTaken(init, i, key);
      var most := init[..i] + init[i + 1..];
      assert rest == most + [last];
      assert (most + [last])[..|most|] == most;
    }
  }

  lemma Taken(s: seq<Alert>, t: seq<Alert>, last: Alert) returns (i: nat)
    requires multiset(s + [last]) == multiset(t)
    ensures i < |t| && t[i] == last && multiset(t[..i] + t[i + 1..]) == multiset(s)
  {
    assert last in multiset(s + [last]);
    i :| 0 <= i < |t| && t[i] == last;
    var before, after := multiset(t[..i]), multiset(t[i + 1..]);
    assert t == t[..i] + [last] + t[i + 1..];
    assert multiset(t) == before + multiset{last} + after;
    assert before + after == before + multiset{last} + after - multiset{last};
    assert multiset(s) == multiset(s + [last]) - multiset{last};
  }

  lemma {:induction false} CountSame(s: seq<Alert>, t: seq<Alert>, key: Key)
    requires multiset(s) == multiset(t)
    ensures CountKey(s, key) == CountKey(t, key)
  {
    if s == [] {
      assert |multiset(t)| == 0;
    } else {
      var init, last := s[..|s| - 1], s[|s| - 1];
      assert s == init + [last];
      var i := Taken(init, t, last);
      CountTaken(t, i, key);
      CountSame(init, t[..i] + t[i + 1..], key);
    }
  }

  lemma {:induction false} IncidentsSame(gs: Groups, s: seq<Alert>, t: seq<Alert>, n: nat)
    requires n <= |gs.order| && (forall k :: k in gs.order ==> k in gs.table) && multiset(s) == multiset(t)
    ensures IncidentsOf(gs, s, n) == IncidentsOf(gs, t, n)
  {
    if n > 0 {
      IncidentsSame(gs, s, t, n - 1);
      var keys := gs.table[gs.order[n - 1]].keys;
      forall k | k in keys ensures CountKey(s, k) == CountKey(t, k) {
        CountSame(s, t, k);
      }
      hide Ids, Earliest, Total, CountKey;
      assert CountsOf(keys, s) == CountsOf(keys, t);
    }
  }

  /** Determinism: when all ties are harmless, every permutation of the input yields the same
      incidents. */
  lemma Deterministic(c: Context, alerts: seq<Alert>, permuted: seq<Alert>)
    requires multiset(permuted) == multiset(alerts) && HarmlessTies(alerts)
    ensures Correlated(c, permuted) == Correlated(c, alerts)
  {
    hide Kept, Sort, Dropped, IncidentsOf, HarmlessTies, Grouped, Sorted;
    SameKeptSorted(alerts, permuted);
    SortSorts(alerts);
    SortSorts(permuted);
    DedupCounts(Sort(alerts));
    DedupCounts(Sort(permuted));
    var kept, s, t := Kept(Sort(alerts)), Dropped(Sort(permuted)), Dropped(Sort(alerts));
    assert multiset(s) == multiset(alerts) - multiset(kept) == multiset(t);
    GroupedFormed(c, kept);
    IncidentsSame(Grouped(c, kept), s, t, |Grouped(c, kept).order|);
  }
}
