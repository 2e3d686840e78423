/** The browser's cursor (frontend/src/sse.ts): polling the whole chain and handing over only
    what lies after the cursor, restarting from the beginning once when the cursor fails. */
module StreamClient {
  import opened Wrappers
  import opened Text
  import opened LiveStream

  /** The answer to one poll: the chain, or an error. */
  datatype Fetch = Got(items: seq<Item>) | Failed

  /** `delivered` are the onItem calls so far, `resets` counts onCursorReset, `errors` onError. */
  datatype Client = Client(cursor: Option<string>, replayed: Option<string>, delivered: seq<Item>,
                           resets: nat, errors: nat)

  function StreamEventId(x: Item): Option<string> {
    if x.auditEventId != "" then Some(x.auditEventId)
    else if x.eventId != "" then Some(x.eventId)
    else None
  }

  function IdOrBlank(x: Item): string {
    match StreamEventId(x) case Some(id) => id case None => ""
  }

  /** The cursor after handing over the items. */
  function Advanced(cursor: Option<string>, items: seq<Item>): Option<string> {
    if items == [] then cursor
    else
      var before, id := Advanced(cursor, items[..|items| - 1]), IdOrBlank(items[|items| - 1]);
      if id == "" then before else Some(id)
  }

  /** How many items lead up to and include the first one with this id; none without it. */
  function Reach(items: seq<Item>, id: string): (r: Option<nat>)
    ensures r.Some? ==> 0 < r.value <= |items| && IdOrBlank(items[r.value - 1]) == id
    ensures r.None? ==> forall i :: 0 <= i < |items| ==> IdOrBlank(items[i]) != id
  {
    if items == [] then None
    else if IdOrBlank(items[0]) == id then Some(1)
    else match Reach(items[1..], id)
      case None => None
      case Some(n) => Some(n + 1)
  }

  /** Give up the cursor once: the same failing cursor is not given up twice. */
  function ResetOrFail(c: Client): Client {
    if c.cursor.None? || c.replayed == c.cursor then c.(errors := c.errors + 1)
    else c.(replayed := c.cursor, cursor := None, resets := c.resets + 1)
  }

  function Handed(c: Client, items: seq<Item>): Client {
    c.(delivered := c.delivered + items, cursor := Advanced(c.cursor, items))
  }

  function Poll(c: Client, f: Fetch): Client {
    match f
    case Failed => ResetOrFail(c)
    case Got(items) =>
      if c.cursor.None? then Handed(c, items)
      else match Reach(items, c.cursor.value)
        case Some(n) => Handed(c, items[n..])
        case None => ResetOrFail(c)
  }

  function OnMessage(c: Client, x: Item): Client {
    Handed(c, [x])
  }

  class Subscriber {
    var cursor: Option<string>
    var replayedCursor: Option<string>
    var delivered: seq<Item>
    var resets: nat
    var errors: nat
    var polling: bool
    var stopped: bool

    ghost function State(): Client
      reads this
    {
      Client(cursor, replayedCursor, delivered, resets, errors)
    }

    constructor (sinceId: Option<string>)
      ensures State() == Client(sinceId, None, [], 0, 0) && !polling && !stopped
    {
      cursor, replayedCursor, delivered := sinceId, None, [];
      resets, errors, polling, stopped := 0, 0, false, false;
    }

    method ResetCursorOnce(failed: Option<string>) returns (again: bool)
      modifies this`cursor, this`replayedCursor, this`resets
      ensures again <==> failed.Some? && old(replayedCursor) != failed
      ensures again ==> cursor == None && replayedCursor == failed && resets == old(resets) + 1
      ensures !again ==> unchanged(this)
    {
      if failed.None? || replayedCursor == failed {
        return false;
      }
      replayedCursor := failed;
      cursor := None;
      resets := resets + 1;
      return true;
    }

    /** The loop over one response: skip up to the cursor, hand over the rest. */
    method HandOver(items: seq<Item>) returns (reached: bool)
      modifies this`cursor, this`delivered
      ensures reached <==> old(cursor).None? || Reach(items, old(cursor).value).Some?
      ensures State() == if !reached then old(State())
        else Handed(old(State()), items[if old(cursor).None? then 0 else Reach(items, old(cursor).value).value..])
    {
      hide Shifted, Reach, Advanced;
      var pollCursor := cursor;
      reached := pollCursor.None?;
      SearchStarts(State(), items);
      ghost var start := 0;
      var i := 0;
      while i < |items|
        invariant 0 <= start <= i <= |items|
        invariant !reached ==> State() == old(State()) && pollCursor.Some? && Shifted(items, pollCursor.value, i)
        invariant reached ==> State() == Handed(old(State()), items[start..i])
        invariant reached && pollCursor.Some? ==> Reach(items, pollCursor.value) == Some(start)
        invariant pollCursor.None? ==> reached && start == 0
      {
        var eventId := IdOrBlank(items[i]);
        if !reached {
          SearchSteps(items, pollCursor.value, i);
          if eventId == pollCursor.value {
            assert items[i + 1..i + 1] == [];
            reached := true;
          }
          start := i + 1;
        } else {
          HandedMore(old(State()), items, start, i);
          if eventId != "" {
            cursor := Some(eventId);
          }
          delivered := delivered + [items[i]];
        }
        i := i + 1;
      }
      assert items[start..i] == items[start..];
      if !reached {
        SearchEnds(items, pollCursor.value);
      }
    }

    /** A poll whose request has been sent, from its response on. The stream may have taken
        over in the meantime: an answer is then ignored, a failure is not. */
    method PollOnce(response: Fetch) returns (replayImmediately: bool)
      modifies this
      ensures polling == old(polling) && stopped == old(stopped)
      ensures State() == if response.Got? && (old(stopped) || !old(polling)) then old(State())
                         else Poll(old(State()), response)
      ensures replayImmediately <==> resets != old(resets)
    {
      replayImmediately := false;
      var failed := response.Failed?;
      if response.Got? {
        if stopped || !polling {
          return;
        }
        assert response.items[0..] == response.items;
        var reached := HandOver(response.items);
        failed := !reached;
      }
      if failed {
        replayImmediately := ResetCursorOnce(cursor);
        if !replayImmediately {
          errors := errors + 1;
        }
      }
    }

    method Message(x: Item)
      modifies this
      ensures State() == OnMessage(old(State()), x)
    {
      HandedMore(State(), [x], 0, 0);
      assert [x][0..1] == [x] && Handed(State(), [x][0..0]) == State();
      var eventId := StreamEventId(x);
      if eventId.Some? {
        cursor := eventId;
      }
      delivered := delivered + [x];
    }
  }

  /** No item before position `i` carries the id, so the search continues at `i`. */
  ghost predicate Shifted(items: seq<Item>, id: string, i: nat) {
    i <= |items| &&
    match Reach(items[i..], id)
    case Some(n) => Reach(items, id) == Some(i + n)
    case None => Reach(items, id) == None
  }

  lemma SearchStarts(c: Client, items: seq<Item>)
    ensures forall id :: Shifted(items, id, 0)
    ensures Handed(c, []) == c
  {
    assert items[0..] == items;
  }

  lemma SearchSteps(items: seq<Item>, id: string, i: nat)
    requires i < |items| && Shifted(items, id, i)
    ensures if IdOrBlank(items[i]) == id then Reach(items, id) == Some(i + 1) else Shifted(items, id, i + 1)
  {
    assert items[i..][1..] == items[i + 1..];
  }

  lemma SearchEnds(items: seq<Item>, id: string)
    requires Shifted(items, id, |items|)
    ensures Reach(items, id).None?
  {
  }

  lemma HandedMore(c: Client, items: seq<Item>, start: nat, i: nat)
    requires start <= i < |items|
    ensures var d := Handed(c, items[start..i]);
      Handed(c, items[start..i + 1]) == d.(delivered := d.delivered + [items[i]],
        cursor := if IdOrBlank(items[i]) == "" then d.cursor else Some(IdOrBlank(items[i])))
  {
    assert items[start..i + 1][..i - start] == items[start..i];
    assert items[start..i + 1] == items[start..i] + [items[i]];
  }

  /** The cursor after handing over: the audit event id, or else the event id, of the last item that
      has one. */
  lemma {:induction false} CursorAfter(c: Client, items: seq<Item>, k: nat)
    requires k <= |items| && forall i :: k <= i < |items| ==> items[i].auditEventId == "" == items[i].eventId
    requires k > 0 ==> items[k - 1].auditEventId != "" || items[k - 1].eventId != ""
    ensures var d := Handed(c, items);
      && d.delivered == c.delivered + items
      && d.cursor == if k == 0 then c.cursor
                     else Some(if items[k - 1].auditEventId != "" then items[k - 1].auditEventId else items[k - 1].eventId)
    decreases |items|
  {
    if |items| > k {
      CursorAfter(c, items[..|items| - 1], k);
    }
  }

  /** The search for the cursor looks for the first item with that id. */
  lemma ReachExactly(items: seq<Item>, id: string)
    requires id != ""
    ensures var r := Reach(items, id);
      && (r.Some? ==> 0 < r.value <= |items| && HasId(items[r.value - 1], id)
                      && forall i :: 0 <= i < r.value - 1 ==> !HasId(items[i], id))
      && (r.None? ==> forall i :: 0 <= i < |items| ==> !HasId(items[i], id))
  {
    ReachFirst(items, id);
  }

  predicate HasId(x: Item, id: string) {
    x.auditEventId == id || (x.auditEventId == "" && x.eventId == id)
  }

  lemma {:induction false} ReachFirst(items: seq<Item>, id: string)
    ensures Reach(items, id).Some? ==> forall i :: 0 <= i < Reach(items, id).value - 1 ==> IdOrBlank(items[i]) != id
  {
    if items != [] {
      ReachFirst(items[1..], id);
    }
  }

  // ------------------------------------------------ agreement with the server

  /** Items as the stream and audit endpoints send them: one id each, the event id, not blank. */
  ghost predicate Identified(items: seq<Item>) {
    forall i :: 0 <= i < |items| ==> items[i].auditEventId == items[i].eventId && !IsBlank(items[i].eventId)
  }

  ghost predicate UniqueIds(items: seq<Item>) {
    forall i, j :: 0 <= i < j < |items| ==> items[i].eventId != items[j].eventId
  }

  lemma {:induction false} ReachIsCursorEnd(items: seq<Item>, id: string)
    requires Identified(items)
    ensures Reach(items, id) == CursorEnd(items, id)
  {
    if items != [] {
      assert Identified(items[1..]);
      assert items[0].eventId != "";
      ReachIsCursorEnd(items[1..], id);
    }
  }

  /** A poll hands over what the server's own cursor filter would send, and nothing when the
      server would call the cursor unknown. */
  lemma PollAgreesWithServer(c: Client, items: seq<Item>)
    requires Identified(items) && (c.cursor.Some? ==> !IsBlank(c.cursor.value))
    ensures match Replayed(items, c.cursor)
      case Ok(n) => n <= |items| && Poll(c, Got(items)).delivered == c.delivered + items[n..]
      case Err(_) => Poll(c, Got(items)).delivered == c.delivered
  {
    if c.cursor.Some? {
      ReachIsCursorEnd(items, c.cursor.value);
    } else {
      assert items[0..] == items;
    }
  }

  // ------------------------------------------------ runs of polls

  function RunPolls(c: Client, polls: seq<Fetch>): Client {
    if polls == [] then c else Poll(RunPolls(c, polls[..|polls| - 1]), polls[|polls| - 1])
  }

  /** The cursor stands right after the first `p` events. */
  ghost predicate At(cursor: Option<string>, chain: seq<Item>, p: nat) {
    p <= |chain| && if p == 0 then cursor == None else cursor == Some(chain[p - 1].eventId)
  }

  /** The chain as the polls see it: append-only, ending in `last`. */
  ghost predicate Growing(polls: seq<Fetch>, first: seq<Item>, last: seq<Item>) {
    && first <= last
    && (forall i :: 0 <= i < |polls| && polls[i].Got? ==> first <= polls[i].items <= last)
    && (forall i, j :: 0 <= i < j < |polls| && polls[i].Got? && polls[j].Got? ==> polls[i].items <= polls[j].items)
  }

  lemma {:induction false} AdvancedTo(cursor: Option<string>, items: seq<Item>)
    requires Identified(items) && items != []
    ensures Advanced(cursor, items) == Some(items[|items| - 1].eventId)
  {
    assert items[|items| - 1].eventId != "";
  }

  lemma {:induction false} ReachAt(items: seq<Item>, p: nat)
    requires Identified(items) && UniqueIds(items) && 0 < p <= |items|
    ensures Reach(items, items[p - 1].eventId) == Some(p)
  {
    assert items[0].eventId != "";
    if p > 1 {
      var rest := items[1..];
      assert forall i :: 0 <= i < |rest| ==> rest[i] == items[i + 1];
      assert items[0].eventId != items[p - 1].eventId;
      ReachAt(rest, p - 1);
    }
  }

  lemma PollFrom(c: Client, items: seq<Item>, p: nat)
    requires Identified(items) && UniqueIds(items) && At(c.cursor, items, p)
    ensures var d := Poll(c, Got(items));
      d.delivered == c.delivered + items[p..] && At(d.cursor, items, |items|) && d.resets == c.resets
  {
    if p > 0 {
      ReachAt(items, p);
    } else {
      assert items[0..] == items;
    }
    if p < |items| {
      assert Identified(items[p..]);
      AdvancedTo(c.cursor, items[p..]);
    }
  }

  lemma {:induction false} ResetsGrow(c: Client, polls: seq<Fetch>)
    ensures RunPolls(c, polls).resets >= c.resets
  {
    if polls != [] {
      ResetsGrow(c, polls[..|polls| - 1]);
    }
  }

  /** The length of the chain at the last answered poll, `p` before any. */
  function Seen(polls: seq<Fetch>, p: nat): nat {
    if polls == [] then p
    else if polls[|polls| - 1].Got? then |polls[|polls| - 1].items|
    else Seen(polls[..|polls| - 1], p)
  }

  lemma {:induction false} SeenBounds(polls: seq<Fetch>, p: nat, first: seq<Item>, last: seq<Item>)
    requires Growing(polls, first, last) && p <= |first|
    ensures p <= Seen(polls, p) <= |last|
    ensures Seen(polls, p) == p || exists i :: 0 <= i < |polls| && polls[i].Got? && Seen(polls, p) == |polls[i].items|
  {
    if polls != [] && polls[|polls| - 1].Failed? {
      SeenBounds(polls[..|polls| - 1], p, first, last);
    }
  }

  lemma PrefixIds(items: seq<Item>, last: seq<Item>, cursor: Option<string>, q: nat)
    requires items <= last && Identified(last) && UniqueIds(last) && At(cursor, last, q) && q <= |items|
    ensures Identified(items) && UniqueIds(items) && At(cursor, items, q)
    ensures forall d :: At(d, items, |items|) ==> At(d, last, |items|)
  {
    assert forall i :: 0 <= i < |items| ==> items[i] == last[i];
  }

  lemma PollStep(c: Client, f: Fetch, last: seq<Item>, p: nat, q: nat, before: seq<Item>)
    requires f.Got? && f.items <= last && Identified(last) && UniqueIds(last)
    requires p <= q <= |f.items| && At(c.cursor, last, q) && c.delivered == before + last[p..q]
    ensures var d := Poll(c, f);
      At(d.cursor, last, |f.items|) && d.delivered == before + last[p..|f.items|]
  {
    hide Identified, UniqueIds, At, Poll;
    var n := |f.items|;
    assert f.items == last[..n];
    PrefixIds(f.items, last, c.cursor, q);
    PollFrom(c, f.items, q);
    assert last[p..q] + f.items[q..] == last[p..n];
    assert before + last[p..q] + f.items[q..] == before + last[p..n];
  }

  /** Over any run of polls against a growing chain, failures included, without a reset the
      items handed over are exactly the events after the starting cursor that the answered
      polls showed, each once and in order, and the cursor stands right after them. */
  lemma {:induction false} PollsHandOverTail(c: Client, first: seq<Item>, last: seq<Item>, p: nat, polls: seq<Fetch>)
    requires Growing(polls, first, last) && Identified(last) && UniqueIds(last) && At(c.cursor, first, p)
    requires RunPolls(c, polls).resets == c.resets
    ensures p <= Seen(polls, p) <= |last| && At(RunPolls(c, polls).cursor, last, Seen(polls, p))
    ensures RunPolls(c, polls).delivered == c.delivered + last[p..Seen(polls, p)]
  {
    SeenBounds(polls, p, first, last);
    if polls == [] {
      assert last[p..p] == [];
    } else {
      var init, f := polls[..|polls| - 1], polls[|polls| - 1];
      ResetsGrow(c, init);
      PollsHandOverTail(c, first, last, p, init);
      if f.Got? {
        SeenBounds(init, p, first, last);
        PollStep(RunPolls(c, init), f, last, p, Seen(init, p), c.delivered);
      }
    }
  }

  // ------------------------------------------------ when a run of polls repeats nothing

  /** A poll that fails here does not make the client give up its cursor: it has none, or it
      gave up this very cursor before. */
  ghost predicate Harmless(c: Client, last: seq<Item>, q: nat) {
    q == 0 || (q <= |last| && c.replayed == Some(last[q - 1].eventId))
  }

  /** Every failing poll falls where the answered ones have shown nothing yet, or end at the
      event that was given up as a cursor before. */
  ghost predicate FailuresHarmless(c: Client, last: seq<Item>, p: nat, polls: seq<Fetch>) {
    forall i :: 0 <= i < |polls| && polls[i].Failed? ==> Harmless(c, last, Seen(polls[..i], p))
  }

  lemma FailuresSnoc(c: Client, last: seq<Item>, p: nat, polls: seq<Fetch>)
    requires polls != []
    ensures var init, f := polls[..|polls| - 1], polls[|polls| - 1];
      FailuresHarmless(c, last, p, polls) <==>
        FailuresHarmless(c, last, p, init) && (f.Failed? ==> Harmless(c, last, Seen(init, p)))
  {
    hide Harmless, Seen;
    var init := polls[..|polls| - 1];
    assert forall i :: 0 <= i < |init| ==> init[i] == polls[i] && init[..i] == polls[..i];
    if FailuresHarmless(c, last, p, init) && (polls[|polls| - 1].Failed? ==> Harmless(c, last, Seen(init, p))) {
      forall i | 0 <= i < |polls| && polls[i].Failed? ensures Harmless(c, last, Seen(polls[..i], p)) {
        if i == |init| {
          assert polls[..i] == init;
        }
      }
    }
  }

  /** What a run of polls has come to: without a reset the client is where `PollsHandOverTail`
      says; after one it has handed over more than the tail, or will with the next answer. */
  ghost predicate Outcome(c: Client, d: Client, last: seq<Item>, p: nat, q: nat) {
    if d.resets == c.resets then
      d.replayed == c.replayed && p <= q <= |last| && At(d.cursor, last, q) && d.delivered == c.delivered + last[p..q]
    else
      && d.resets > c.resets && 0 < q <= |last| && p <= q
      && if d.cursor == None then |d.delivered| >= |c.delivered| + q - p
         else At(d.cursor, last, q) && |d.delivered| > |c.delivered| + q - p
  }

  lemma AnswerOutcome(c: Client, d: Client, f: Fetch, last: seq<Item>, p: nat, q: nat)
    requires Outcome(c, d, last, p, q) && f.Got? && f.items <= last && q <= |f.items|
    requires Identified(last) && UniqueIds(last)
    ensures Outcome(c, Poll(d, f), last, p, |f.items|)
    ensures Poll(d, f).resets == d.resets && (|f.items| > 0 ==> Poll(d, f).cursor != None)
  {
    var n := |f.items|;
    if d.resets == c.resets {
      PollStep(d, f, last, p, q, c.delivered);
      PrefixIds(f.items, last, d.cursor, q);
      PollFrom(d, f.items, q);
      RepliesKept(d, f);
    } else if d.cursor == None {
      assert At(d.cursor, last, 0);
      PrefixIds(f.items, last, d.cursor, 0);
      PollFrom(d, f.items, 0);
    } else {
      PrefixIds(f.items, last, d.cursor, q);
      PollFrom(d, f.items, q);
    }
  }

  lemma RepliesKept(d: Client, f: Fetch)
    requires f.Got? && Poll(d, f).resets == d.resets
    ensures Poll(d, f).replayed == d.replayed
  {
  }

  lemma FailureOutcome(c: Client, d: Client, last: seq<Item>, p: nat, q: nat)
    requires Outcome(c, d, last, p, q) && Identified(last)
    ensures Outcome(c, Poll(d, Failed), last, p, q)
    ensures d.resets == c.resets ==> (Poll(d, Failed).resets == c.resets <==> Harmless(c, last, q))
  {
  }

  lemma {:induction false} PollsOutcome(c: Client, first: seq<Item>, last: seq<Item>, p: nat, polls: seq<Fetch>)
    requires Growing(polls, first, last) && Identified(last) && UniqueIds(last) && At(c.cursor, first, p)
    ensures Outcome(c, RunPolls(c, polls), last, p, Seen(polls, p))
    ensures RunPolls(c, polls).resets == c.resets <==> FailuresHarmless(c, last, p, polls)
    ensures polls != [] && polls[|polls| - 1].Got? && |polls[|polls| - 1].items| > 0 ==> RunPolls(c, polls).cursor != None
  {
    SeenBounds(polls, p, first, last);
    if polls == [] {
      PrefixIds(first, last, c.cursor, p) by {
        FirstIsLast(c.cursor, first, last, p);
      }
      assert last[p..p] == [];
    } else {
      var init, f := polls[..|polls| - 1], polls[|polls| - 1];
      PollsOutcome(c, first, last, p, init);
      SeenBounds(init, p, first, last);
      FailuresSnoc(c, last, p, polls);
      ResetsGrow(c, polls);
      hide Outcome, Poll, Harmless, FailuresHarmless;
      if f.Got? {
        AnswerOutcome(c, RunPolls(c, init), f, last, p, Seen(init, p));
      } else {
        FailureOutcome(c, RunPolls(c, init), last, p, Seen(init, p));
        FailureGrows(RunPolls(c, init));
      }
    }
  }

  lemma FirstIsLast(cursor: Option<string>, first: seq<Item>, last: seq<Item>, p: nat)
    requires first <= last && At(cursor, first, p)
    ensures At(cursor, last, p)
  {
  }

  lemma FailureGrows(d: Client)
    ensures Poll(d, Failed).resets >= d.resets
  {
  }

  /** No poll gives up the cursor if and only if every failing poll is harmless, and over a run
      that ends with an answer this is exactly when nothing is handed over twice. */
  lemma RepeatsNothingExactly(c: Client, first: seq<Item>, last: seq<Item>, p: nat, polls: seq<Fetch>)
    requires Growing(polls, first, last) && Identified(last) && UniqueIds(last) && At(c.cursor, first, p)
    ensures p <= Seen(polls, p) <= |last|
    ensures RunPolls(c, polls).resets == c.resets <==> FailuresHarmless(c, last, p, polls)
    ensures polls != [] && polls[|polls| - 1].Got? ==>
      (RunPolls(c, polls).delivered == c.delivered + last[p..Seen(polls, p)] <==> FailuresHarmless(c, last, p, polls))
  {
    PollsOutcome(c, first, last, p, polls);
    SeenBounds(polls, p, first, last);
    hide FailuresHarmless, Growing, At;
  }

  // ------------------------------------------------ where duplicates come from

  /** One failed request is enough to hand over the whole chain again, cursor or not. */
  lemma FailedPollReplaysAll(c: Client, items: seq<Item>)
    requires c.cursor.Some? && c.replayed != c.cursor
    ensures RunPolls(c, [Failed, Got(items)]).delivered == c.delivered + items
    ensures RunPolls(c, [Failed, Got(items)]).resets == c.resets + 1
  {
    var polls := [Failed, Got(items)];
    assert polls[..1] == [Failed] && [Failed][..0] == [];
    assert RunPolls(c, [Failed]) == Poll(c, Failed);
  }

  /** When a failed poll before an answered one repeats nothing: the client had no cursor, or had
      given up this very cursor before. */
  lemma FailedPollExactly(c: Client, items: seq<Item>, p: nat)
    requires Identified(items) && UniqueIds(items) && At(c.cursor, items, p)
    ensures RunPolls(c, [Failed, Got(items)]).delivered == c.delivered + items[p..] <==>
      c.cursor.None? || c.replayed == c.cursor
  {
    if c.cursor.Some? && c.replayed != c.cursor {
      FailedPollReplaysAll(c, items);
      assert |c.delivered + items| != |c.delivered + items[p..]|;
    } else {
      var polls := [Failed, Got(items)];
      assert polls[..1] == [Failed] && [Failed][..0] == [];
      assert RunPolls(c, [Failed]) == Poll(c, Failed);
      PollFrom(Poll(c, Failed), items, p);
    }
  }

  function RunMessages(c: Client, items: seq<Item>): Client {
    if items == [] then c else OnMessage(RunMessages(c, items[..|items| - 1]), items[|items| - 1])
  }

  lemma {:induction false} MessagesHandOver(c: Client, items: seq<Item>)
    ensures RunMessages(c, items).delivered == c.delivered + items
  {
    if items != [] {
      MessagesHandOver(c, items[..|items| - 1]);
      assert items == items[..|items| - 1] + [items[|items| - 1]];
    }
  }

  /** A connection asks for the events after the cursor of the moment. A poll answered between
      that request and its replay hands over its events first, and the replay repeats exactly
      those: nothing is repeated if and only if the poll had nothing new. */
  lemma PollBeforeReplayRepeats(c: Client, polled: seq<Item>, chain: seq<Item>, p: nat)
    requires polled <= chain && Identified(chain) && UniqueIds(chain) && At(c.cursor, polled, p)
    ensures var end := RunMessages(Poll(c, Got(polled)), chain[p..]);
      && end.delivered == c.delivered + polled[p..] + chain[p..]
      && (end.delivered == c.delivered + chain[p..] <==> |polled| == p)
  {
    hide Poll;
    assert polled == chain[..|polled|];
    PollFrom(c, polled, p);
    MessagesHandOver(Poll(c, Got(polled)), chain[p..]);
    var end := RunMessages(Poll(c, Got(polled)), chain[p..]);
    assert |end.delivered| == |c.delivered| + (|polled| - p) + |chain[p..]|;
  }
}
