/** Two further facts about whole connections of the live stream: the interleaved machine sends
    exactly what the generator sends, and a reconnect never makes up for what was dropped. */
module StreamRuns {
  import opened Wrappers
  import opened Text
  import EventBus
  import opened LiveStream

  // ------------------------------------------------ the machine sends what the generator sends

  lemma {:induction false} LastSeqSnoc(lastSeq: nat, items: seq<Item>, x: Item)
    ensures LastSeq(lastSeq, items + [x]) == Max(LastSeq(lastSeq, items), x.ordinal)
    decreases |items|
  {
    if items == [] {
      assert [x][1..] == [];
    } else {
      assert (items + [x])[1..] == items[1..] + [x];
      LastSeqSnoc(Max(lastSeq, items[0].ordinal), items[1..], x);
    }
  }

  /** The highest ordinal sent, after the items received so far. */
  function Reached(lastSeq: nat, received: seq<Item>): nat {
    LastSeq(lastSeq, Followed(lastSeq, received))
  }

  lemma {:induction false} FollowedSnoc(lastSeq: nat, received: seq<Item>, x: Item)
    ensures Followed(lastSeq, received + [x]) ==
      Followed(lastSeq, received) + if Stale(Reached(lastSeq, received), x) then [] else [ToStreamItem(x)]
    decreases |received|
  {
    if received == [] {
      assert [x][1..] == [];
    } else {
      var r := received[0];
      assert (received + [x])[1..] == received[1..] + [x];
      if Stale(lastSeq, r) {
        FollowedSnoc(lastSeq, received[1..], x);
      } else {
        var sent := Followed(Max(lastSeq, r.ordinal), received[1..]);
        assert Followed(lastSeq, received) == [ToStreamItem(r)] + sent;
        assert Followed(lastSeq, received)[1..] == sent;
        FollowedSnoc(Max(lastSeq, r.ordinal), received[1..], x);
      }
    }
  }

  ghost function Backlog(n: Net): seq<Item>
    requires n.cursorEnd <= n.backlogEnd <= |n.chain|
  {
    n.chain[n.cursorEnd..n.backlogEnd]
  }

  ghost predicate Framed(n: Net) {
    && (n.reader.Waiting? || n.reader.Subscribed? ==> n.delivered == [] && n.lastSeq == 0 && n.received == [])
    && (n.reader.Replaying? || n.reader.Following? ==> n.cursorEnd <= n.backlogEnd <= |n.chain|)
    && (n.reader.Replaying? ==>
          n.delivered + n.reader.rest == Backlog(n) && n.lastSeq == LastSeq(0, n.delivered) && n.received == [])
    && (n.reader.Following? ==>
          var seen := LastSeq(0, Backlog(n));
          n.delivered == Backlog(n) + Followed(seen, n.received) && n.lastSeq == Reached(seen, n.received))
  }

  lemma AppendFramed(n: Net, id: string)
    requires Framed(n) && n.phase.Idle?
    ensures Framed(Apply(n, Append(id)))
  {
    var m := Apply(n, Append(id));
    if n.reader.Replaying? || n.reader.Following? {
      assert Backlog(m) == Backlog(n);
    }
  }

  lemma SendFramed(n: Net)
    requires Framed(n) && n.reader.Replaying?
    ensures Framed(Apply(n, SendBacklog))
  {
    if n.reader.rest != [] {
      var x := n.reader.rest[0];
      LastSeqSnoc(0, n.delivered, x);
      assert n.delivered + n.reader.rest == (n.delivered + [x]) + n.reader.rest[1..];
    } else {
      assert n.delivered == Backlog(n) && Backlog(n) + [] == Backlog(n);
    }
  }

  lemma FollowFramed(n: Net)
    requires Framed(n) && Enabled(n, Follow)
    ensures Framed(Apply(n, Follow))
  {
    hide LastSeq, Followed;
    var x, seen := n.box.queue[0], LastSeq(0, Backlog(n));
    FollowedSnoc(seen, n.received, x);
    if !Stale(n.lastSeq, x) {
      LastSeqSnoc(seen, Followed(seen, n.received), ToStreamItem(x));
      assert n.delivered + [ToStreamItem(x)] == Backlog(n) + (Followed(seen, n.received) + [ToStreamItem(x)]);
    } else {
      assert Followed(seen, n.received) + [] == Followed(seen, n.received);
    }
  }

  lemma OtherFramed(n: Net, s: Step)
    requires Framed(n) && Enabled(n, s) && !s.Append? && !s.SendBacklog? && !s.Follow?
    ensures Framed(Apply(n, s))
  {
    if s.ReadBacklog? {
      ReadFramed(n);
    } else {
      hide LastSeq, Followed;
    }
  }

  lemma ReadFramed(n: Net)
    requires Framed(n) && n.reader.Subscribed?
    ensures Framed(Apply(n, ReadBacklog))
  {
    var m := Apply(n, ReadBacklog);
    if m.reader.Replaying? {
      assert m.delivered == [] && Backlog(m) == m.reader.rest;
    }
  }

  lemma {:induction false} RunFramed(n: Net, steps: seq<Step>)
    requires Framed(n) && Legal(n, steps)
    ensures Framed(Run(n, steps))
    decreases |steps|
  {
    if steps != [] {
      var s := steps[0];
      hide Framed, Apply;
      match s {
        case Append(id) => AppendFramed(n, id);
        case SendBacklog => SendFramed(n);
        case Follow => FollowFramed(n);
        case _ => OtherFramed(n, s);
      }
      RunFramed(Apply(n, s), steps[1..]);
    }
  }

  /** In every interleaving a connection that has come to follow has sent what the generator
      sends for the backlog it read and the items its queue gave it. */
  lemma SendsWhatLiveFramesSends(n: Net, steps: seq<Step>)
    requires Initial(n) && Legal(n, steps) && Run(n, steps).reader.Following?
    ensures var m := Run(n, steps);
      && m.cursorEnd <= m.backlogEnd <= |m.chain|
      && m.delivered == Backlog(m) + Followed(LastSeq(0, Backlog(m)), m.received)
  {
    RunFramed(n, steps);
  }

  // ------------------------------------------------ what was dropped stays lost

  /** Every delivered event is the one at its place in the chain. */
  ghost predicate InChain(chain: seq<Item>, delivered: seq<Item>) {
    forall x :: x in delivered ==> 0 < x.ordinal <= |chain| && chain[x.ordinal - 1] == x
  }

  /** Everything delivered lies after both the cursor and the subscription, or after one. */
  ghost predicate After(n: Net) {
    forall x :: x in n.delivered ==> x.ordinal > n.cursorEnd || x.ordinal > n.subAt
  }

  ghost predicate Traced(n: Net) {
    && Gapless(n) && Ordered(n) && InChain(n.chain, n.delivered)
    && (n.reader.Replaying? || n.reader.Following? || n.reader.Closed? ==> After(n))
  }

  lemma SendTraced(n: Net)
    requires Traced(n) && n.reader.Replaying?
    ensures InChain(Apply(n, SendBacklog).chain, Apply(n, SendBacklog).delivered) && After(Apply(n, SendBacklog))
  {
    if n.reader.rest != [] {
      var x := n.reader.rest[0];
      var k := n.backlogEnd - |n.reader.rest|;
      assert x == n.chain[k] && x.ordinal == k + 1;
      assert n.delivered + n.reader.rest == n.chain[n.cursorEnd..n.backlogEnd];
      assert k >= n.cursorEnd;
    }
  }

  lemma FollowTraced(n: Net)
    requires Traced(n) && Enabled(n, Follow)
    ensures InChain(Apply(n, Follow).chain, Apply(n, Follow).delivered) && After(Apply(n, Follow))
  {
    FollowFlows(n);
    var x := n.box.queue[0];
    assert x == n.chain[Low(n)] && x.ordinal == Low(n) + 1 && ToStreamItem(x) == x;
  }

  lemma QuietTraced(n: Net, s: Step)
    requires Traced(n) && Enabled(n, s) && !s.SendBacklog? && !s.Follow?
    ensures InChain(Apply(n, s).chain, Apply(n, s).delivered)
    ensures !Apply(n, s).reader.Waiting? && !Apply(n, s).reader.Subscribed? ==> After(Apply(n, s))
  {
    assert Apply(n, s).delivered == n.delivered && n.chain <= Apply(n, s).chain;
  }

  lemma StepTraced(n: Net, s: Step)
    requires Traced(n) && Enabled(n, s)
    ensures Traced(Apply(n, s))
  {
    StepGapless(n, s);
    StepOrdered(n, s);
    hide Gapless, Ordered, InChain, After, Apply;
    if s.SendBacklog? {
      SendTraced(n);
    } else if s.Follow? {
      FollowTraced(n);
    } else {
      QuietTraced(n, s);
    }
  }

  lemma {:induction false} RunTraced(n: Net, steps: seq<Step>)
    requires Traced(n) && Legal(n, steps)
    ensures Traced(Run(n, steps))
    decreases |steps|
  {
    if steps != [] {
      hide Traced, Apply;
      StepTraced(n, steps[0]);
      RunTraced(Apply(n, steps[0]), steps[1..]);
    }
  }

  /** The cursor is the event at place `c`, and the connection has not gone behind it. */
  ghost predicate CursorAt(n: Net, c: nat) {
    && c <= |n.chain| && n.since.Some? && !IsBlank(n.since.value) && CursorEnd(n.chain, n.since.value) == Some(c)
    && (Listening(n) ==> n.subAt >= c - 1)
    && (n.reader.Replaying? || n.reader.Following? ==> n.cursorEnd == c)
    && (n.reader.Closed? && n.delivered != [] ==> n.cursorEnd == c && n.subAt >= c - 1)
  }

  lemma {:induction false} CursorEndGrows(items: seq<Item>, more: seq<Item>, since: string)
    requires CursorEnd(items, since).Some?
    ensures CursorEnd(items + more, since) == CursorEnd(items, since)
  {
    if !IsCursor(items[0], since) {
      assert (items + more)[1..] == items[1..] + more;
      CursorEndGrows(items[1..], more, since);
    }
  }

  lemma StepCursorAt(n: Net, s: Step, c: nat)
    requires CursorAt(n, c) && Enabled(n, s) && (n.reader.Waiting? || n.reader.Subscribed? ==> n.delivered == [])
    ensures CursorAt(Apply(n, s), c)
  {
    hide CursorEnd, IsBlank;
    if s.Append? {
      CursorEndGrows(n.chain, [Item(|n.chain| + 1, s.eventId, s.eventId)], n.since.value);
    }
  }

  lemma NothingYet(n: Net)
    requires Traced(n)
    ensures n.reader.Waiting? || n.reader.Subscribed? ==> n.delivered == []
  {
  }

  lemma {:induction false} RunCursorAt(n: Net, steps: seq<Step>, c: nat)
    requires CursorAt(n, c) && Traced(n) && Legal(n, steps)
    ensures CursorAt(Run(n, steps), c) && Traced(Run(n, steps))
    decreases |steps|
  {
    if steps != [] {
      hide Traced, CursorAt, Apply;
      NothingYet(n);
      StepCursorAt(n, steps[0], c);
      StepTraced(n, steps[0]);
      RunCursorAt(Apply(n, steps[0]), steps[1..], c);
    }
  }

  lemma InitialTraced(n: Net)
    requires Initial(n)
    ensures Traced(n)
  {
  }

  lemma {:induction false} FoundAt(items: seq<Item>, c: nat)
    requires Numbered(items) && 0 < c <= |items|
    requires forall i :: 0 <= i < c - 1 ==> items[i].eventId != items[c - 1].eventId
    ensures CursorEnd(items, items[c - 1].eventId) == Some(c)
  {
    FoundFrom(items, items[c - 1].eventId, c);
  }

  lemma {:induction false} FoundFrom(items: seq<Item>, id: string, c: nat)
    requires 0 < c <= |items| && IsCursor(items[c - 1], id) && forall i :: 0 <= i < c - 1 ==> !IsCursor(items[i], id)
    ensures CursorEnd(items, id) == Some(c)
  {
    if c > 1 {
      assert forall i :: 0 <= i < c - 2 ==> items[1..][i] == items[i + 1];
      FoundFrom(items[1..], id, c - 1);
    }
  }

  lemma TracedNumbered(n: Net)
    requires Traced(n)
    ensures Numbered(n.chain)
  {
  }

  /** The next connection finds the last delivered event as its cursor. */
  lemma CursorMatches(m: Net, n2: Net)
    requires Traced(m) && m.delivered != [] && Initial(n2) && m.chain <= n2.chain
    requires forall i, j :: 0 <= i < j < |m.chain| ==> m.chain[i].eventId != m.chain[j].eventId
    requires var last := m.delivered[|m.delivered| - 1]; n2.since == Some(last.eventId) && !IsBlank(last.eventId)
    ensures var last := m.delivered[|m.delivered| - 1];
      last.ordinal > 0 && CursorAt(n2, last.ordinal) && Replayed(n2.chain, n2.since) == Ok(last.ordinal)
  {
    hide Gapless, Ordered, After, CursorEnd, IsBlank;
    var last := m.delivered[|m.delivered| - 1];
    assert last in m.delivered && m.chain[last.ordinal - 1] == last;
    TracedNumbered(m);
    FoundAt(m.chain, last.ordinal);
    CursorEndGrows(m.chain, n2.chain[|m.chain|..], last.eventId);
    assert n2.chain == m.chain + n2.chain[|m.chain|..];
  }

  lemma NothingBefore(m: Net, c: nat)
    requires CursorAt(m, c) && Traced(m)
    ensures forall x :: x in m.delivered ==> x.ordinal >= c
    ensures m.subAt >= c ==> forall x :: x in m.delivered ==> x.ordinal > c
  {
  }

  /** The bus documentation says that after a drop the client's cursor will not match, so that
      the client starts over. It does match, being a later event of the chain, and so the next
      connection, over any chain that has grown from this one, delivers nothing before it:
      every dropped event is lost to the client for good. */
  lemma DroppedIsLost(n: Net, steps: seq<Step>, n2: Net, steps2: seq<Step>)
    requires Initial(n) && Legal(n, steps) && Initial(n2) && Legal(n2, steps2)
    requires var m := Run(n, steps);
      && m.delivered != [] && m.chain <= n2.chain
      && (forall i, j :: 0 <= i < j < |m.chain| ==> m.chain[i].eventId != m.chain[j].eventId)
      && var last := m.delivered[|m.delivered| - 1];
         n2.since == Some(last.eventId) && !IsBlank(last.eventId)
    ensures var m, m2 := Run(n, steps), Run(n2, steps2);
      var last := m.delivered[|m.delivered| - 1];
      && Replayed(n2.chain, n2.since) == Ok(last.ordinal)
      && (forall x :: x in m2.delivered ==> x.ordinal >= last.ordinal)
      && (m2.subAt >= last.ordinal ==> forall x :: x in m2.delivered ==> x.ordinal > last.ordinal)
      && (forall x :: x in m.chain && x.ordinal < last.ordinal ==> x !in m2.delivered)
  {
    hide Run, Legal, Traced, CursorAt, Replayed;
    InitialTraced(n);
    RunTraced(n, steps);
    CursorMatches(Run(n, steps), n2);
    InitialTraced(n2);
    var c := Run(n, steps).delivered[|Run(n, steps).delivered| - 1].ordinal;
    RunCursorAt(n2, steps2, c);
    NothingBefore(Run(n2, steps2), c);
  }

  // ------------------------------------------------ a drop

  /** One event appended, published and put into the queue of the reader. */
  lemma PublishOne(n: Net, id: string) returns (steps: seq<Step>)
    requires n.reader.Following? && n.phase.Idle? && n.transit == [] && n.subAt <= |n.chain|
    ensures Legal(n, steps)
    ensures var x := Item(|n.chain| + 1, id, id);
      Run(n, steps) == n.(chain := n.chain + [x], box := EventBus.Put(n.box, x))
  {
    var n1 := Apply(n, Append(id));
    var n2 := Apply(n1, Snapshot);
    var n3 := Apply(n2, OfferLast);
    assert n3.transit == [Item(|n.chain| + 1, id, id)];
    RunCons(n3, RunCallback, []);
    RunCons(n2, OfferLast, [RunCallback]);
    RunCons(n1, Snapshot, [OfferLast] + [RunCallback]);
    steps := [Append(id)] + ([Snapshot] + ([OfferLast] + [RunCallback]));
    RunCons(n, Append(id), [Snapshot] + ([OfferLast] + [RunCallback]));
  }

  /** A reader of an empty chain, following with an empty queue. */
  lemma OpenEmpty() returns (n: Net, steps: seq<Step>)
    ensures Initial(n) && Legal(n, steps)
    ensures Run(n, steps) == Behind(0)
  {
    n := Net([], Idle, [], EventBus.Box(1, [], 0), Waiting, None, 0, [], 0, 0, 0, []);
    var n1 := Apply(n, Subscribe(EventBus.DEFAULT_QUEUE_SIZE));
    var n2 := Apply(n1, ReadBacklog);
    assert n1.chain[0..] == [];
    RunCons(n2, SendBacklog, []);
    RunCons(n1, ReadBacklog, [SendBacklog]);
    steps := [Subscribe(EventBus.DEFAULT_QUEUE_SIZE)] + ([ReadBacklog] + [SendBacklog]);
    RunCons(n, Subscribe(EventBus.DEFAULT_QUEUE_SIZE), [ReadBacklog] + [SendBacklog]);
  }

  function IdOf(k: nat): string {
    seq(k, _ => 'a')
  }

  function Events(k: nat): seq<Item> {
    seq(k, i requires 0 <= i < k => Item(i + 1, IdOf(i + 1), IdOf(i + 1)))
  }

  /** The reader has taken nothing off its queue since it opened, and k events were published. */
  function Behind(k: nat): Net {
    var gone := if k > EventBus.DEFAULT_QUEUE_SIZE then k - EventBus.DEFAULT_QUEUE_SIZE else 0;
    var box := EventBus.Box(EventBus.DEFAULT_QUEUE_SIZE, Events(k)[gone..], gone);
    Net(Events(k), Idle, [], box, Following, None, 0, [], 0, 0, 0, [])
  }

  lemma BehindOneMore(k: nat)
    ensures var x := Item(k + 1, IdOf(k + 1), IdOf(k + 1));
      Behind(k + 1) == Behind(k).(chain := Behind(k).chain + [x], box := EventBus.Put(Behind(k).box, x))
  {
    hide IdOf;
    assert Events(k + 1) == Events(k) + [Item(k + 1, IdOf(k + 1), IdOf(k + 1))];
    if k >= EventBus.DEFAULT_QUEUE_SIZE {
      assert Events(k)[k - EventBus.DEFAULT_QUEUE_SIZE..][1..] == Events(k)[k - EventBus.DEFAULT_QUEUE_SIZE + 1..];
    }
  }

  lemma {:induction false} PublishMany(k: nat) returns (steps: seq<Step>)
    ensures Legal(Behind(0), steps) && Run(Behind(0), steps) == Behind(k)
  {
    if k == 0 {
      steps := [];
    } else {
      var most, last;
      most := PublishMany(k - 1);
      last := PublishOne(Behind(k - 1), IdOf(k));
      BehindOneMore(k - 1);
      hide Legal, Run, Behind;
      RunTwice(Behind(0), most, last);
      steps := most + last;
    }
  }

  /** A connection that is slow to read loses events: of any number of events that its queue
      cannot hold, published before it takes the first one, all but the last 256 are dropped and
      the next one is what it delivers. */
  lemma DropHappens(k: nat) returns (n: Net, steps: seq<Step>)
    requires k > EventBus.DEFAULT_QUEUE_SIZE
    ensures Initial(n) && Legal(n, steps)
    ensures var m := Run(n, steps);
      var gone := k - EventBus.DEFAULT_QUEUE_SIZE;
      && |m.chain| == k && m.box.dropped == gone && m.delivered == [m.chain[gone]] && m.delivered[0].ordinal == gone + 1
      && forall i, j :: 0 <= i < j < k ==> m.chain[i].eventId != m.chain[j].eventId
  {
    var open, publish;
    n, open := OpenEmpty();
    publish := PublishMany(k);
    var m := Behind(k);
    assert m.box.queue[0] == Events(k)[k - EventBus.DEFAULT_QUEUE_SIZE];
    RunCons(m, Follow, []);
    forall i, j | 0 <= i < j < k ensures Events(k)[i].eventId != Events(k)[j].eventId {
      assert |IdOf(i + 1)| != |IdOf(j + 1)|;
    }
    hide Legal, Run;
    RunTwice(Behind(0), publish, [Follow]);
    RunTwice(n, open, publish + [Follow]);
    steps := open + (publish + [Follow]);
  }
}
