/** Every run of polls of a growing chain, failures and restarts included: what is handed over, how
    often a cursor is given up and how many errors are reported, as a function of the answers alone. */
module PollRuns {
  import opened Wrappers
  import opened LiveStream
  import opened StreamClient

  /** How far the chain had been seen at the last failing poll that had seen anything; `g` before. */
  function GivenUpLast(polls: seq<Fetch>, p: nat, g: nat): nat {
    if polls == [] then g
    else
      var init := polls[..|polls| - 1];
      if polls[|polls| - 1].Failed? && Seen(init, p) > 0 then Seen(init, p) else GivenUpLast(init, p, g)
  }

  /** Since the last answer a poll has failed where none had failed before. */
  predicate Restarted(polls: seq<Fetch>, p: nat, g: nat) {
    polls != [] && polls[|polls| - 1].Failed? &&
    var init := polls[..|polls| - 1];
    Restarted(init, p, g) || (Seen(init, p) > 0 && Seen(init, p) != GivenUpLast(init, p, g))
  }

  /** Where the next answer is taken up. */
  function From(polls: seq<Fetch>, p: nat, g: nat): nat {
    if Restarted(polls, p, g) then 0 else Seen(polls, p)
  }

  function Shown(polls: seq<Fetch>, p: nat, g: nat): seq<Item> {
    if polls == [] then []
    else
      var init, f := polls[..|polls| - 1], polls[|polls| - 1];
      Shown(init, p, g) + if f.Got? && From(init, p, g) <= |f.items| then f.items[From(init, p, g)..] else []
  }

  /** How far the chain had been seen when polls failed. */
  function FailedAt(polls: seq<Fetch>, p: nat): set<nat> {
    if polls == [] then {}
    else
      var init := polls[..|polls| - 1];
      FailedAt(init, p) + if polls[|polls| - 1].Failed? then {Seen(init, p)} else {}
  }

  function Failures(polls: seq<Fetch>): nat {
    if polls == [] then 0 else Failures(polls[..|polls| - 1]) + if polls[|polls| - 1].Failed? then 1 else 0
  }

  ghost predicate Bounded(polls: seq<Fetch>, p: nat, g: nat) {
    var q := Seen(polls, p);
    && g <= p <= q && GivenUpLast(polls, p, g) <= q && (forall n :: n in FailedAt(polls, p) ==> n <= q)
    && (Restarted(polls, p, g) ==> 0 < q && GivenUpLast(polls, p, g) == q)
    && (q > 0 ==> (GivenUpLast(polls, p, g) == q <==> q in FailedAt(polls, p) || q == g))
  }

  lemma {:induction false} AlwaysBounded(polls: seq<Fetch>, first: seq<Item>, last: seq<Item>, p: nat, g: nat)
    requires Growing(polls, first, last) && g <= p <= |first|
    ensures Bounded(polls, p, g)
    decreases |polls|
  {
    if polls != [] {
      var init, f := polls[..|polls| - 1], polls[|polls| - 1];
      AlwaysBounded(init, first, last, p, g);
      SeenGrows(polls, first, last, p);
    }
  }

  lemma SeenGrows(polls: seq<Fetch>, first: seq<Item>, last: seq<Item>, p: nat)
    requires Growing(polls, first, last) && p <= |first| && polls != []
    ensures Seen(polls[..|polls| - 1], p) <= Seen(polls, p) <= |last|
    ensures Growing(polls[..|polls| - 1], first, last)
  {
    var init, f := polls[..|polls| - 1], polls[|polls| - 1];
    SeenBounds(polls, p, first, last);
    SeenBounds(init, p, first, last);
    if f.Got? && Seen(init, p) != p {
      var i :| 0 <= i < |init| && init[i].Got? && Seen(init, p) == |init[i].items|;
      assert polls[i].items <= f.items;
    }
  }

  /** The client stands at `from`, has given up the cursor at `given` last, and has handed over
      `shown` with so many restarts and errors since `c`. */
  ghost predicate Stands(c: Client, d: Client, last: seq<Item>, from: nat, given: nat, shown: seq<Item>,
                         restarts: nat, errors: nat)
  {
    && At(d.cursor, last, from) && At(d.replayed, last, given) && d.delivered == c.delivered + shown
    && d.resets == c.resets + restarts && d.errors == c.errors + errors
  }

  lemma FailureStands(c: Client, d: Client, last: seq<Item>, from: nat, given: nat, shown: seq<Item>,
                      restarts: nat, errors: nat)
    requires Stands(c, d, last, from, given, shown, restarts, errors) && UniqueIds(last)
    ensures var e := Poll(d, Failed);
      if from > 0 && given != from then Stands(c, e, last, 0, from, shown, restarts + 1, errors)
      else Stands(c, e, last, from, given, shown, restarts, errors + 1)
  {
    if from > 0 && given != from {
      CursorsDiffer(last, d.cursor, d.replayed, from, given);
    }
  }

  lemma AnswerStands(c: Client, d: Client, items: seq<Item>, last: seq<Item>, from: nat, given: nat, shown: seq<Item>,
                     restarts: nat, errors: nat)
    requires Stands(c, d, last, from, given, shown, restarts, errors) && items <= last && from <= |items|
    requires Identified(last) && UniqueIds(last)
    ensures Stands(c, Poll(d, Got(items)), last, |items|, given, shown + items[from..], restarts, errors)
  {
    hide Reach, Identified, UniqueIds, Poll, At;
    PrefixIds(items, last, d.cursor, from);
    PollFrom(d, items, from);
    Found(d, items, from);
    assert c.delivered + shown + items[from..] == c.delivered + (shown + items[from..]);
  }

  lemma Found(d: Client, items: seq<Item>, from: nat)
    requires Identified(items) && UniqueIds(items) && At(d.cursor, items, from)
    ensures Poll(d, Got(items)).replayed == d.replayed && Poll(d, Got(items)).errors == d.errors
  {
    if from > 0 {
      ReachAt(items, from);
    }
  }

  lemma CursorsDiffer(last: seq<Item>, a: Option<string>, b: Option<string>, m: nat, n: nat)
    requires UniqueIds(last) && At(a, last, m) && At(b, last, n) && m > 0 && m != n
    ensures a.Some? && a != b
  {
    assert n > 0 ==> last[m - 1].eventId != last[n - 1].eventId;
  }

  /** At how many lengths other than these the polls fail. */
  function Restarts(polls: seq<Fetch>, p: nat, g: nat): nat {
    |FailedAt(polls, p) - {0, g}|
  }

  /** The client after the polls, in terms of their answers. */
  ghost predicate Tracks(c: Client, d: Client, last: seq<Item>, polls: seq<Fetch>, p: nat, g: nat) {
    && Restarts(polls, p, g) <= Failures(polls)
    && Stands(c, d, last, From(polls, p, g), GivenUpLast(polls, p, g), Shown(polls, p, g), Restarts(polls, p, g),
              Failures(polls) - Restarts(polls, p, g))
  }

  lemma AfterFailure(init: seq<Fetch>, p: nat, g: nat)
    ensures var polls, q := init + [Failed], Seen(init, p);
      && Seen(polls, p) == q && Shown(polls, p, g) == Shown(init, p, g) && Failures(polls) == Failures(init) + 1
      && FailedAt(polls, p) == FailedAt(init, p) + {q}
      && GivenUpLast(polls, p, g) == (if q > 0 then q else GivenUpLast(init, p, g))
      && From(polls, p, g) == (if q > 0 && GivenUpLast(init, p, g) != q then 0 else From(init, p, g))
  {
    var polls := init + [Failed];
    assert polls[..|polls| - 1] == init;
  }

  lemma AfterAnswer(init: seq<Fetch>, items: seq<Item>, p: nat, g: nat)
    ensures var polls := init + [Got(items)];
      && From(polls, p, g) == |items| && Failures(polls) == Failures(init) && FailedAt(polls, p) == FailedAt(init, p)
      && GivenUpLast(polls, p, g) == GivenUpLast(init, p, g)
      && Shown(polls, p, g) ==
           Shown(init, p, g) + if From(init, p, g) <= |items| then items[From(init, p, g)..] else []
  {
    var polls := init + [Got(items)];
    assert polls[..|polls| - 1] == init;
  }

  lemma NewFailure(failed: set<nat>, q: nat, g: nat)
    ensures var before, after := failed - {0, g}, failed + {q} - {0, g};
      |after| == |before| + if q == 0 || q == g || q in failed then 0 else 1
  {
    var before, after := failed - {0, g}, failed + {q} - {0, g};
    if q == 0 || q == g || q in failed {
      assert after == before;
    } else {
      assert after == before + {q};
    }
  }

  lemma FailureTracks(c: Client, d: Client, last: seq<Item>, init: seq<Fetch>, p: nat, g: nat)
    requires Tracks(c, d, last, init, p, g) && Bounded(init, p, g) && UniqueIds(last)
    ensures Tracks(c, Poll(d, Failed), last, init + [Failed], p, g)
  {
    var q, from, given := Seen(init, p), From(init, p, g), GivenUpLast(init, p, g);
    AfterFailure(init, p, g);
    NewFailure(FailedAt(init, p), q, g);
    assert from > 0 && given != from <==> q > 0 && given != q;
    assert q == 0 ==> given == GivenUpLast(init + [Failed], p, g);
    var restarts := Restarts(init, p, g);
    assert Restarts(init + [Failed], p, g) == restarts + if q > 0 && given != q then 1 else 0;
    hide Poll, Stands, Seen, Shown, Failures, FailedAt, GivenUpLast, Restarted, From, Restarts, At, UniqueIds;
    FailureStands(c, d, last, from, given, Shown(init, p, g), restarts, Failures(init) - restarts);
  }

  lemma AnswerTracks(c: Client, d: Client, items: seq<Item>, last: seq<Item>, init: seq<Fetch>, p: nat, g: nat)
    requires Tracks(c, d, last, init, p, g) && items <= last && Seen(init, p) <= |items|
    requires Identified(last) && UniqueIds(last)
    ensures Tracks(c, Poll(d, Got(items)), last, init + [Got(items)], p, g)
  {
    var restarts := Restarts(init, p, g);
    AfterAnswer(init, items, p, g);
    assert Restarts(init + [Got(items)], p, g) == restarts;
    hide Poll, Stands, Seen, Shown, Failures, FailedAt, GivenUpLast, Restarted, Restarts, At, UniqueIds, Identified;
    AnswerStands(c, d, items, last, From(init, p, g), GivenUpLast(init, p, g), Shown(init, p, g), restarts,
                 Failures(init) - restarts);
  }

  lemma {:induction false} PollsTrack(c: Client, first: seq<Item>, last: seq<Item>, p: nat, g: nat, polls: seq<Fetch>)
    requires Growing(polls, first, last) && Identified(last) && UniqueIds(last)
    requires At(c.cursor, first, p) && At(c.replayed, first, g) && g <= p
    ensures Tracks(c, RunPolls(c, polls), last, polls, p, g)
    decreases |polls|
  {
    if polls == [] {
      NothingPolled(c, first, last, p, g);
    } else {
      var init, f := polls[..|polls| - 1], polls[|polls| - 1];
      SeenGrows(polls, first, last, p);
      AlwaysBounded(init, first, last, p, g);
      assert polls == init + [f];
      hide Tracks, Identified, UniqueIds, Bounded, At, Poll;
      PollsTrack(c, first, last, p, g, init);
      if f.Got? {
        AnswerTracks(c, RunPolls(c, init), f.items, last, init, p, g);
      } else {
        FailureTracks(c, RunPolls(c, init), last, init, p, g);
      }
    }
  }

  lemma NothingPolled(c: Client, first: seq<Item>, last: seq<Item>, p: nat, g: nat)
    requires first <= last && At(c.cursor, first, p) && At(c.replayed, first, g)
    ensures Tracks(c, c, last, [], p, g)
  {
    FirstIsLast(c.cursor, first, last, p);
    FirstIsLast(c.replayed, first, last, g);
    assert FailedAt([], p) - {0, g} == {};
  }

  /** Over any run of polls of a growing chain: what is handed over, a cursor given up exactly once
      for each position at which polls fail, and an error for every other failure. */
  lemma PollsExactly(c: Client, first: seq<Item>, last: seq<Item>, p: nat, g: nat, polls: seq<Fetch>)
    requires Growing(polls, first, last) && Identified(last) && UniqueIds(last)
    requires At(c.cursor, first, p) && At(c.replayed, first, g) && g <= p
    ensures var d := RunPolls(c, polls);
      && d.delivered == c.delivered + Shown(polls, p, g)
      && d.resets == c.resets + |FailedAt(polls, p) - {0, g}|
      && d.errors + d.resets == c.errors + c.resets + Failures(polls)
      && At(d.cursor, last, From(polls, p, g))
  {
    PollsTrack(c, first, last, p, g, polls);
  }

  /** A quiet chain, shown to its end: the first failure replays it, and from the second on failures
      are errors and answers hand over nothing, however often polls fail. */
  lemma {:induction false} QuietChain(c: Client, items: seq<Item>, g: nat, rounds: nat)
    requires Identified(items) && UniqueIds(items) && items != [] && At(c.cursor, items, |items|)
    requires At(c.replayed, items, g) && rounds > 0
    ensures var d := RunPolls(c, Rounds(items, rounds));
      && d.cursor == c.cursor && d.replayed == c.cursor
      && d.delivered == c.delivered + (if g == |items| then [] else items)
      && d.resets == c.resets + (if g == |items| then 0 else 1)
      && d.errors == c.errors + (if g == |items| then rounds else rounds - 1)
    decreases rounds
  {
    if rounds == 1 {
      RoundsGrow(c, items, 0);
      OneRound(c, items, g);
    } else {
      QuietChain(c, items, g, rounds - 1);
      RoundsGrow(c, items, rounds - 1);
      OneRound(RunPolls(c, Rounds(items, rounds - 1)), items, |items|);
    }
  }

  /** A failing poll and an answered one, so many times. */
  function Rounds(items: seq<Item>, rounds: nat): seq<Fetch> {
    if rounds == 0 then [] else Rounds(items, rounds - 1) + [Failed, Got(items)]
  }

  lemma RoundsGrow(c: Client, items: seq<Item>, rounds: nat)
    ensures RunPolls(c, Rounds(items, rounds + 1)) == Poll(Poll(RunPolls(c, Rounds(items, rounds)), Failed), Got(items))
  {
    var most := Rounds(items, rounds);
    var polls := most + [Failed, Got(items)];
    assert polls[..|polls| - 1] == most + [Failed] && (most + [Failed])[..|most|] == most;
  }

  lemma OneRound(c: Client, items: seq<Item>, g: nat)
    requires Identified(items) && UniqueIds(items) && items != [] && At(c.cursor, items, |items|) && At(c.replayed, items, g)
    ensures var d := Poll(Poll(c, Failed), Got(items));
      if g == |items| then d == c.(errors := c.errors + 1)
      else d == Client(c.cursor, c.cursor, c.delivered + items, c.resets + 1, c.errors)
  {
    var n := |items|;
    if g == n {
      PollFrom(Poll(c, Failed), items, n);
      ReachAt(items, n);
      assert items[n..] == [];
    } else {
      CursorsDiffer(items, c.cursor, c.replayed, n, g);
      PollFrom(Poll(c, Failed), items, 0);
      assert items[0..] == items;
    }
  }
}
