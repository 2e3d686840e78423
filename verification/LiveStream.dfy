/** The live audit stream (backend/app/routers/stream.py over eventbus.py and audit.py): cursor
    filtering, the replay-then-follow loop of one connection, and the protocol in which one
    emitter appends and publishes while one reader subscribes, replays and follows. */
module LiveStream {
  import opened Wrappers
  import opened Text
  import opened EventBus

  /** One chain event as a stream item; `ordinal` is the seq field, 0 when absent or unreadable. */
  datatype Item = Item(ordinal: nat, eventId: string, auditEventId: string)

  /** to_stream_item: the event's own id becomes its cursor. */
  function ToStreamItem(e: Item): Item {
    e.(auditEventId := e.eventId)
  }

  datatype CursorError = CursorUnknown

  predicate IsCursor(x: Item, since: string) {
    x.eventId == since || x.auditEventId == since
  }

  predicate NoCursor(since: Option<string>) {
    since.None? || IsBlank(since.value)
  }

  /** The number of items up to and including the first one at the cursor. */
  function CursorEnd(items: seq<Item>, since: string): (r: Option<nat>)
    ensures r.Some? ==> 0 < r.value <= |items| && IsCursor(items[r.value - 1], since)
    ensures r.Some? ==> forall i :: 0 <= i < r.value - 1 ==> !IsCursor(items[i], since)
    ensures r.None? ==> forall i :: 0 <= i < |items| ==> !IsCursor(items[i], since)
  {
    if items == [] then None
    else if IsCursor(items[0], since) then Some(1)
    else match CursorEnd(items[1..], since)
      case None => None
      case Some(n) => Some(n + 1)
  }

  function Replayed(items: seq<Item>, since: Option<string>): Result<nat, CursorError> {
    if NoCursor(since) then Ok(0)
    else match CursorEnd(items, since.value)
      case Some(n) => Ok(n)
      case None => Err(CursorUnknown)
  }

  /** Only items after the cursor; the whole list without one; an error for an unknown one. */
  method FilterAfter(items: seq<Item>, since: Option<string>) returns (r: Result<seq<Item>, CursorError>)
    ensures since.None? || IsBlank(since.value) ==> r == Ok(items)
    ensures since.Some? && !IsBlank(since.value) && r.Ok? ==>
      exists k :: 0 <= k < |items| && since.value in {items[k].eventId, items[k].auditEventId} && r.value == items[k + 1..]
                  && forall i :: 0 <= i < k ==> since.value !in {items[i].eventId, items[i].auditEventId}
    ensures since.Some? && !IsBlank(since.value) ==>
      (r.Err? <==> forall x :: x in items ==> since.value !in {x.eventId, x.auditEventId})
    ensures match Replayed(items, since) case Ok(n) => n <= |items| && r == Ok(items[n..]) case Err(e) => r == Err(e)
  {
    if NoCursor(since) {
      return Ok(items);
    }
    var index := 0;
    while index < |items|
      invariant 0 <= index <= |items|
      invariant forall i :: 0 <= i < index ==> !IsCursor(items[i], since.value)
    {
      if IsCursor(items[index], since.value) {
        return Ok(items[index + 1..]);
      }
      index := index + 1;
    }
    return Err(CursorUnknown);
  }

  // ------------------------------------------------ one connection

  predicate Stale(lastSeq: nat, x: Item) {
    x.ordinal != 0 && x.ordinal <= lastSeq
  }

  function LastSeq(lastSeq: nat, items: seq<Item>): nat
    decreases |items|
  {
    if items == [] then lastSeq else LastSeq(Max(lastSeq, items[0].ordinal), items[1..])
  }

  /** What is sent of the items taken off the queue. */
  function Followed(lastSeq: nat, received: seq<Item>): seq<Item>
    decreases |received|
  {
    if received == [] then []
    else if Stale(lastSeq, received[0]) then Followed(lastSeq, received[1..])
    else [ToStreamItem(received[0])] + Followed(Max(lastSeq, received[0].ordinal), received[1..])
  }

  /** Greater than every number sent or received before, or without a number. */
  ghost predicate IsNews(before: seq<Item>, x: Item) {
    x.ordinal == 0 || forall y :: y in before ==> y.ordinal < x.ordinal
  }

  /** Of the items taken off the queue exactly the news are sent, under their own event ids. */
  lemma {:induction false} FollowedNews(backlog: seq<Item>, received: seq<Item>, x: Item)
    ensures var sent := Followed(LastSeq(0, backlog), received);
      Followed(LastSeq(0, backlog), received + [x]) ==
        sent + if IsNews(backlog + received, x) then [Item(x.ordinal, x.eventId, x.eventId)] else []
  {
    FollowedMore(LastSeq(0, backlog), received, x);
    LastSeqConcat(0, backlog, received);
    LastSeqNews(0, backlog + received, x);
  }

  lemma {:induction false} FollowedMore(lastSeq: nat, received: seq<Item>, x: Item)
    ensures Followed(lastSeq, received + [x]) ==
      Followed(lastSeq, received) + if Stale(LastSeq(lastSeq, received), x) then [] else [ToStreamItem(x)]
    decreases |received|
  {
    if received == [] {
      assert received + [x] == [x] && [x][1..] == [];
    } else {
      assert (received + [x])[1..] == received[1..] + [x];
      FollowedMore(if Stale(lastSeq, received[0]) then lastSeq else Max(lastSeq, received[0].ordinal), received[1..], x);
    }
  }

  lemma {:induction false} LastSeqConcat(lastSeq: nat, a: seq<Item>, b: seq<Item>)
    ensures LastSeq(lastSeq, a + b) == LastSeq(LastSeq(lastSeq, a), b)
    decreases |a|
  {
    if a == [] {
      assert a + b == b;
    } else {
      assert (a + b)[1..] == a[1..] + b;
      LastSeqConcat(Max(lastSeq, a[0].ordinal), a[1..], b);
    }
  }

  lemma {:induction false} LastSeqNews(lastSeq: nat, items: seq<Item>, x: Item)
    ensures LastSeq(lastSeq, items) < x.ordinal <==> lastSeq < x.ordinal && forall y :: y in items ==> y.ordinal < x.ordinal
    decreases |items|
  {
    if items != [] {
      LastSeqNews(Max(lastSeq, items[0].ordinal), items[1..], x);
      assert items == [items[0]] + items[1..];
    }
  }

  /** The generator of one connection, from its backlog and the items its queue gave it. */
  method LiveFrames(backlog: seq<Item>, received: seq<Item>) returns (sent: seq<Item>)
    ensures sent == backlog + Followed(LastSeq(0, backlog), received)
  {
    var lastSeq := 0;
    sent := [];
    var i := 0;
    while i < |backlog|
      invariant 0 <= i <= |backlog| && sent == backlog[..i]
      invariant LastSeq(0, backlog) == LastSeq(lastSeq, backlog[i..])
    {
      lastSeq := Max(lastSeq, backlog[i].ordinal);
      sent := sent + [backlog[i]];
      i := i + 1;
    }
    var j := 0;
    while j < |received|
      invariant 0 <= j <= |received|
      invariant sent + Followed(lastSeq, received[j..]) == backlog + Followed(LastSeq(0, backlog), received)
    {
      if !Stale(lastSeq, received[j]) {
        lastSeq := Max(lastSeq, received[j].ordinal);
        sent := sent + [ToStreamItem(received[j])];
      }
      j := j + 1;
    }
  }

  // ------------------------------------------------ emitter and reader, interleaved

  /** The emitter between its steps: appended but not published, or with the subscriber list
      read (`hit`: it held the reader) but the offer not made. */
  datatype Phase = Idle | Appended | Snapped(hit: bool)

  datatype Reader = Waiting | Subscribed | Replaying(rest: seq<Item>) | Following | Closed

  /** `transit` are offers scheduled on the reader's loop. The rest is history: how many events
      were published when the reader subscribed, where its cursor ended and how long the chain
      was when the backlog was read, and the items taken off the queue. */
  datatype Net = Net(chain: seq<Item>, phase: Phase, transit: seq<Item>, box: Box<Item>, reader: Reader,
                     since: Option<string>, lastSeq: nat, delivered: seq<Item>,
                     subAt: nat, cursorEnd: nat, backlogEnd: nat, received: seq<Item>)

  datatype Step =
    | Append(eventId: string)
    | Snapshot
    | OfferLast
    | RunCallback
    | Subscribe(maxsize: int)
    | ReadBacklog
    | SendBacklog
    | Follow
    | Disconnect

  predicate Listening(n: Net) {
    n.reader.Subscribed? || n.reader.Replaying? || n.reader.Following?
  }

  /** Events whose subscriber snapshot has been taken. */
  function Published(n: Net): nat {
    if n.phase.Appended? && |n.chain| > 0 then |n.chain| - 1 else |n.chain|
  }

  predicate Enabled(n: Net, s: Step) {
    match s
    case Append(_) => n.phase.Idle?
    case Snapshot => n.phase.Appended?
    case OfferLast => n.phase.Snapped? && n.chain != []
    case RunCallback => n.transit != []
    case Subscribe(_) => n.reader.Waiting?
    case ReadBacklog => n.reader.Subscribed?
    case SendBacklog => n.reader.Replaying?
    case Follow => n.reader.Following? && n.box.queue != []
    case Disconnect => Listening(n)
  }

  function Deliver(n: Net, x: Item): Net {
    n.(delivered := n.delivered + [x], lastSeq := Max(n.lastSeq, x.ordinal))
  }

  function Apply(n: Net, s: Step): Net
    requires Enabled(n, s)
  {
    match s
    case Append(id) => n.(chain := n.chain + [Item(|n.chain| + 1, id, id)], phase := Appended)
    case Snapshot => n.(phase := Snapped(Listening(n)))
    case OfferLast =>
      n.(transit := if n.phase.hit then n.transit + [n.chain[|n.chain| - 1]] else n.transit, phase := Idle)
    case RunCallback => n.(box := Put(n.box, n.transit[0]), transit := n.transit[1..])
    case Subscribe(m) => n.(reader := Subscribed, box := Box(m, [], 0), transit := [], subAt := Published(n))
    case ReadBacklog =>
      (match Replayed(n.chain, n.since)
       case Err(_) => n.(reader := Closed)
       case Ok(c) =>
         if c > |n.chain| then n
         else n.(reader := Replaying(n.chain[c..]), cursorEnd := c, backlogEnd := |n.chain|))
    case SendBacklog =>
      if n.reader.rest == [] then n.(reader := Following)
      else Deliver(n.(reader := Replaying(n.reader.rest[1..])), n.reader.rest[0])
    case Follow =>
      var x := n.box.queue[0];
      var m := n.(box := n.box.(queue := n.box.queue[1..]), received := n.received + [x]);
      if Stale(n.lastSeq, x) then m else Deliver(m, ToStreamItem(x))
    case Disconnect => n.(reader := Closed)
  }

  predicate Legal(n: Net, steps: seq<Step>)
    decreases |steps|
  {
    steps != [] ==> Enabled(n, steps[0]) && Legal(Apply(n, steps[0]), steps[1..])
  }

  function Run(n: Net, steps: seq<Step>): Net
    requires Legal(n, steps)
    decreases |steps|
  {
    if steps == [] then n else Run(Apply(n, steps[0]), steps[1..])
  }

  /** A connection about to be opened over any chain, with any cursor. */
  predicate Initial(n: Net) {
    && Numbered(n.chain) && n.phase.Idle? && n.reader.Waiting? && n.transit == [] && n.delivered == []
    && n.lastSeq == 0 && n.received == [] && n.box == Box(1, [], 0)
  }

  /** The store numbers events by position, and the id is the cursor. */
  predicate Numbered(chain: seq<Item>) {
    forall i :: 0 <= i < |chain| ==> chain[i].ordinal == i + 1 && chain[i].auditEventId == chain[i].eventId
  }

  // ------------------------------------------------ strictly increasing, whatever is dropped

  ghost predicate Increasing(items: seq<Item>) {
    forall i, j :: 0 <= i < j < |items| ==> items[i].ordinal < items[j].ordinal
  }

  ghost predicate Positive(items: seq<Item>) {
    forall i :: 0 <= i < |items| ==> items[i].ordinal > 0
  }

  ghost predicate Sent(delivered: seq<Item>, lastSeq: nat) {
    Increasing(delivered) && forall i :: 0 <= i < |delivered| ==> 0 < delivered[i].ordinal <= lastSeq
  }

  /** The unsent backlog is the end of what was read, and everything sent lies before it. */
  ghost predicate Pending(n: Net) {
    n.reader.Replaying? ==>
      && |n.reader.rest| <= n.backlogEnd <= |n.chain|
      && n.reader.rest == n.chain[n.backlogEnd - |n.reader.rest|..n.backlogEnd]
      && n.lastSeq <= n.backlogEnd - |n.reader.rest|
  }

  ghost predicate Ordered(n: Net) {
    && Numbered(n.chain) && Sent(n.delivered, n.lastSeq) && Pending(n)
    && Positive(n.box.queue) && Positive(n.transit)
    && (n.reader.Waiting? || n.reader.Subscribed? ==> n.delivered == [] && n.lastSeq == 0)
  }

  lemma SentGrows(delivered: seq<Item>, lastSeq: nat, x: Item)
    requires Sent(delivered, lastSeq) && lastSeq < x.ordinal
    ensures Sent(delivered + [x], x.ordinal)
  {
  }

  lemma ReadBacklogOrdered(n: Net)
    requires Ordered(n) && n.reader.Subscribed?
    ensures Ordered(Apply(n, ReadBacklog))
  {
    hide Sent, Positive, Numbered;
  }

  lemma SendBacklogOrdered(n: Net)
    requires Ordered(n) && n.reader.Replaying?
    ensures Ordered(Apply(n, SendBacklog))
  {
    hide Sent, Positive;
    if n.reader.rest != [] {
      assert n.reader.rest[0] == n.chain[n.backlogEnd - |n.reader.rest|];
      SentGrows(n.delivered, n.lastSeq, n.reader.rest[0]);
    }
  }

  lemma FollowOrdered(n: Net)
    requires Ordered(n) && Enabled(n, Follow)
    ensures Ordered(Apply(n, Follow))
  {
    hide Sent, Numbered;
    if !Stale(n.lastSeq, n.box.queue[0]) {
      SentGrows(n.delivered, n.lastSeq, ToStreamItem(n.box.queue[0]));
    }
  }

  lemma EmitterOrdered(n: Net, s: Step)
    requires Ordered(n) && Enabled(n, s) && !s.ReadBacklog? && !s.SendBacklog? && !s.Follow?
    ensures Ordered(Apply(n, s))
  {
    hide Sent;
  }

  lemma StepOrdered(n: Net, s: Step)
    requires Ordered(n) && Enabled(n, s)
    ensures Ordered(Apply(n, s))
  {
    hide Ordered, Apply;
    match s
    case ReadBacklog => ReadBacklogOrdered(n);
    case SendBacklog => SendBacklogOrdered(n);
    case Follow => FollowOrdered(n);
    case _ => EmitterOrdered(n, s);
  }

  lemma {:induction false} RunOrdered(n: Net, steps: seq<Step>)
    requires Ordered(n) && Legal(n, steps)
    ensures Ordered(Run(n, steps))
    decreases |steps|
  {
    if steps != [] {
      StepOrdered(n, steps[0]);
      RunOrdered(Apply(n, steps[0]), steps[1..]);
    }
  }

  /** No duplicate and no reordering, in any interleaving and with any losses. */
  lemma DeliveredIncreasing(n: Net, steps: seq<Step>)
    requires Initial(n) && Legal(n, steps)
    ensures Increasing(Run(n, steps).delivered)
  {
    RunOrdered(n, steps);
  }

  // ------------------------------------------------ no gap, as long as nothing was dropped

  /** Position of the next item of the queue in the chain. */
  function Low(n: Net): nat {
    n.subAt + |n.received| + n.box.dropped
  }

  /** How much of the chain has been offered, or was published before the reader subscribed. */
  function High(n: Net): nat {
    Max(n.subAt, if n.phase.Idle? || n.chain == [] then |n.chain| else |n.chain| - 1)
  }

  /** What is on its way to the reader is one contiguous stretch of the chain. */
  ghost predicate Flowing(n: Net) {
    && (!n.phase.Idle? ==> n.chain != [])
    && (n.reader.Waiting? && n.phase.Snapped? ==> !n.phase.hit)
    && (Listening(n) ==>
          && n.subAt <= |n.chain| && Low(n) <= High(n) <= |n.chain|
          && n.box.queue + n.transit == n.chain[Low(n)..High(n)]
          && (n.phase.Appended? ==> n.subAt < |n.chain|)
          && (n.phase.Snapped? ==> (n.phase.hit <==> n.subAt < |n.chain|)))
  }

  /** Where the delivered stretch begins, and how far it has come, when nothing was dropped. */
  function From(n: Net): nat {
    if n.cursorEnd < n.backlogEnd then n.cursorEnd else n.subAt
  }

  function Upto(n: Net): nat {
    if n.cursorEnd < n.backlogEnd then Max(n.backlogEnd, Low(n)) else Low(n)
  }

  ghost predicate Caught(n: Net) {
    && (n.reader.Replaying? || n.reader.Following? ==>
          n.cursorEnd <= n.backlogEnd <= |n.chain| && n.subAt <= n.backlogEnd)
    && (n.reader.Subscribed? || n.reader.Replaying? ==> n.received == [])
    && (n.reader.Subscribed? ==> n.delivered == [] && n.lastSeq == 0)
    && (n.reader.Replaying? ==>
          && n.delivered + n.reader.rest == n.chain[n.cursorEnd..n.backlogEnd]
          && n.lastSeq == if n.delivered == [] then 0 else n.cursorEnd + |n.delivered|)
    && (n.reader.Following? && n.box.dropped == 0 ==>
          && From(n) <= Upto(n) <= |n.chain| && n.delivered == n.chain[From(n)..Upto(n)]
          && n.lastSeq == if n.delivered == [] then 0 else Upto(n))
  }

  ghost predicate Gapless(n: Net) {
    Numbered(n.chain) && Flowing(n) && Caught(n) && (n.reader.Waiting? ==> n.delivered == [] && n.lastSeq == 0 && n.received == [])
  }

  lemma AppendFlows(n: Net, id: string)
    requires Flowing(n) && n.phase.Idle?
    ensures Flowing(Apply(n, Append(id)))
  {
    var m := Apply(n, Append(id));
    if Listening(n) {
      assert Low(m) == Low(n) && High(m) == High(n);
      assert m.chain[Low(n)..High(n)] == n.chain[Low(n)..High(n)];
    }
  }

  lemma OfferFlows(n: Net)
    requires Flowing(n) && n.phase.Snapped?
    ensures Flowing(Apply(n, OfferLast))
  {
    var m := Apply(n, OfferLast);
    if Listening(n) && n.phase.hit {
      var last := n.chain[|n.chain| - 1];
      assert n.chain[Low(n)..High(n)] + [last] == n.chain[Low(m)..High(m)];
      assert m.box.queue + m.transit == (n.box.queue + n.transit) + [last];
    }
  }

  lemma CallbackFlows(n: Net)
    requires Flowing(n) && n.transit != []
    ensures Flowing(Apply(n, RunCallback))
  {
    var m := Apply(n, RunCallback);
    if Listening(n) {
      var line := n.box.queue + n.transit;
      assert n.transit == [n.transit[0]] + n.transit[1..];
      if Full(n.box) {
        assert m.box.queue + m.transit == line[1..];
        assert n.chain[Low(n) + 1..High(n)] == n.chain[Low(n)..High(n)][1..];
      } else {
        assert m.box.queue + m.transit == line;
      }
    }
  }

  lemma FollowFlows(n: Net)
    requires Flowing(n) && Enabled(n, Follow)
    ensures Flowing(Apply(n, Follow))
    ensures Low(n) < |n.chain| && n.box.queue[0] == n.chain[Low(n)]
  {
    var m := Apply(n, Follow);
    var line := n.box.queue + n.transit;
    assert line == n.chain[Low(n)..High(n)];
    assert n.box.queue[0] == line[0];
    assert m.box.queue + m.transit == line[1..];
    assert n.chain[Low(n) + 1..High(n)] == line[1..];
  }

  lemma OpenFlows(n: Net, s: Step)
    requires Flowing(n) && Enabled(n, s) && n.received == []
    requires s.Subscribe? || s.ReadBacklog?
    ensures Flowing(Apply(n, s))
  {
  }

  lemma QuietFlows(n: Net, s: Step)
    requires Flowing(n) && Enabled(n, s) && (s.Snapshot? || s.SendBacklog? || s.Disconnect?)
    ensures Flowing(Apply(n, s))
  {
  }

  lemma StepFlows(n: Net, s: Step)
    requires Flowing(n) && Enabled(n, s) && (n.reader.Waiting? || n.reader.Subscribed? ==> n.received == [])
    ensures Flowing(Apply(n, s))
  {
    hide Flowing, Apply;
    match s
    case Append(id) => AppendFlows(n, id);
    case OfferLast => OfferFlows(n);
    case RunCallback => CallbackFlows(n);
    case Follow => FollowFlows(n);
    case Subscribe(_) => OpenFlows(n, s);
    case ReadBacklog => OpenFlows(n, s);
    case _ => QuietFlows(n, s);
  }

  lemma AppendCaught(n: Net, id: string)
    requires Caught(n) && n.phase.Idle?
    ensures Caught(Apply(n, Append(id)))
  {
    var m := Apply(n, Append(id));
    if n.reader.Replaying? {
      assert m.chain[m.cursorEnd..m.backlogEnd] == n.chain[n.cursorEnd..n.backlogEnd];
    }
    if n.reader.Following? && n.box.dropped == 0 {
      assert m.chain[From(m)..Upto(m)] == n.chain[From(n)..Upto(n)];
    }
  }

  lemma SendCaught(n: Net)
    requires Caught(n) && Numbered(n.chain) && n.reader.Replaying?
    ensures Caught(Apply(n, SendBacklog))
  {
    var m := Apply(n, SendBacklog);
    if n.reader.rest != [] {
      var x := n.reader.rest[0];
      var all := n.chain[n.cursorEnd..n.backlogEnd];
      assert all[|n.delivered|] == x == n.chain[n.cursorEnd + |n.delivered|];
      assert m.delivered + m.reader.rest == all;
    }
  }

  lemma FollowCaught(n: Net)
    requires Caught(n) && Numbered(n.chain) && Enabled(n, Follow)
    requires Low(n) < |n.chain| && n.box.queue[0] == n.chain[Low(n)]
    ensures Caught(Apply(n, Follow))
  {
    var m := Apply(n, Follow);
    var x := n.box.queue[0];
    if n.box.dropped == 0 && !Stale(n.lastSeq, x) {
      assert ToStreamItem(x) == x;
      assert n.chain[From(n)..Upto(n)] + [x] == n.chain[From(m)..Upto(m)];
    }
  }

  lemma OtherCaught(n: Net, s: Step)
    requires Caught(n) && Enabled(n, s) && (n.reader.Subscribed? ==> n.subAt <= |n.chain|)
    requires n.reader.Waiting? ==> n.delivered == [] && n.lastSeq == 0 && n.received == []
    requires !s.Append? && !s.SendBacklog? && !s.Follow?
    ensures Caught(Apply(n, s))
  {
    if s.Subscribe? || s.ReadBacklog? || s.Disconnect? {
      OpenCaught(n, s);
    } else {
      assert Apply(n, s).chain == n.chain && Apply(n, s).reader == n.reader;
    }
  }

  lemma OpenCaught(n: Net, s: Step)
    requires Caught(n) && Enabled(n, s) && (n.reader.Subscribed? ==> n.subAt <= |n.chain|)
    requires n.reader.Waiting? ==> n.delivered == [] && n.lastSeq == 0 && n.received == []
    requires s.Subscribe? || s.ReadBacklog? || s.Disconnect?
    ensures Caught(Apply(n, s))
  {
  }

  lemma StepCaught(n: Net, s: Step)
    requires Gapless(n) && Enabled(n, s)
    ensures Caught(Apply(n, s))
  {
    hide Caught, Apply;
    match s
    case Append(id) => AppendCaught(n, id);
    case SendBacklog => SendCaught(n);
    case Follow => FollowFlows(n); FollowCaught(n);
    case _ => OtherCaught(n, s);
  }

  lemma StepGapless(n: Net, s: Step)
    requires Gapless(n) && Enabled(n, s)
    ensures Gapless(Apply(n, s))
  {
    StepFlows(n, s);
    StepCaught(n, s);
    hide Flowing, Caught;
  }

  lemma {:induction false} RunGapless(n: Net, steps: seq<Step>)
    requires Gapless(n) && Legal(n, steps)
    ensures Gapless(Run(n, steps))
    decreases |steps|
  {
    if steps != [] {
      StepGapless(n, steps[0]);
      RunGapless(Apply(n, steps[0]), steps[1..]);
    }
  }

  /** No gap: with nothing dropped and the cursor's event published before the subscription,
      what was delivered is the contiguous run of events right after the cursor; once nothing
      is on its way any more, it is every event after the cursor. */
  lemma ExactlyAfterCursor(n: Net, steps: seq<Step>)
    requires Initial(n) && Legal(n, steps)
    requires var m := Run(n, steps); m.reader.Following? && m.box.dropped == 0 && m.cursorEnd <= m.subAt
    ensures var m := Run(n, steps);
      && m.cursorEnd + |m.delivered| <= |m.chain|
      && m.delivered == m.chain[m.cursorEnd..m.cursorEnd + |m.delivered|]
      && (m.phase.Idle? && m.transit == [] && m.box.queue == [] ==> m.delivered == m.chain[m.cursorEnd..])
  {
    RunGapless(n, steps);
    hide Run, Legal, Gapless;
    CaughtExactly(Run(n, steps));
  }

  lemma CaughtExactly(m: Net)
    requires Gapless(m) && m.reader.Following? && m.box.dropped == 0 && m.cursorEnd <= m.subAt
    ensures m.cursorEnd + |m.delivered| <= |m.chain|
    ensures m.delivered == m.chain[m.cursorEnd..m.cursorEnd + |m.delivered|]
    ensures m.phase.Idle? && m.transit == [] && m.box.queue == [] ==> m.delivered == m.chain[m.cursorEnd..]
  {
    hide Numbered;
    assert From(m) == m.cursorEnd && |m.delivered| == Upto(m) - From(m);
    if m.phase.Idle? && m.transit == [] && m.box.queue == [] {
      assert m.box.queue + m.transit == [];
      assert |m.chain[Low(m)..High(m)]| == 0;
    }
  }

  /** A hole in the delivered ordinals proves that the queue dropped something. */
  lemma GapMeansDropped(n: Net, steps: seq<Step>, i: nat)
    requires Initial(n) && Legal(n, steps) && Run(n, steps).reader.Following?
    requires i + 1 < |Run(n, steps).delivered|
    requires Run(n, steps).delivered[i + 1].ordinal != Run(n, steps).delivered[i].ordinal + 1
    ensures Run(n, steps).box.dropped > 0
  {
    RunGapless(n, steps);
  }

  /** Exactly when the stream resumes without gap and duplicate: the cursor's event was
      published before the subscription, or a later event was already there to be replayed. */
  lemma ResumesAfterCursorExactly(n: Net, steps: seq<Step>)
    requires Initial(n) && Legal(n, steps)
    requires var m := Run(n, steps); m.reader.Following? && m.box.dropped == 0 && m.delivered != []
    ensures var m := Run(n, steps);
      (m.cursorEnd + |m.delivered| <= |m.chain| && m.delivered == m.chain[m.cursorEnd..m.cursorEnd + |m.delivered|])
      <==> (m.cursorEnd <= m.subAt || m.cursorEnd < m.backlogEnd)
  {
    RunGapless(n, steps);
    hide Run, Legal, Gapless;
    ResumesExactly(Run(n, steps));
  }

  lemma ResumesExactly(m: Net)
    requires Gapless(m) && m.reader.Following? && m.box.dropped == 0 && m.delivered != []
    ensures (m.cursorEnd + |m.delivered| <= |m.chain| && m.delivered == m.chain[m.cursorEnd..m.cursorEnd + |m.delivered|])
      <==> (m.cursorEnd <= m.subAt || m.cursorEnd < m.backlogEnd)
  {
    assert m.delivered == m.chain[From(m)..Upto(m)] && |m.delivered| == Upto(m) - From(m);
    assert m.delivered[0] == m.chain[From(m)] && m.delivered[0].ordinal == From(m) + 1;
    if m.cursorEnd + |m.delivered| <= |m.chain| && m.delivered == m.chain[m.cursorEnd..m.cursorEnd + |m.delivered|] {
      assert m.delivered[0] == m.chain[m.cursorEnd];
    }
  }

  lemma RunCons(n: Net, s: Step, rest: seq<Step>)
    requires Enabled(n, s) && Legal(Apply(n, s), rest)
    ensures Legal(n, [s] + rest) && Run(n, [s] + rest) == Run(Apply(n, s), rest)
  {
    assert ([s] + rest)[0] == s && ([s] + rest)[1..] == rest;
  }

  /** The connection of a client whose cursor is an event appended but not published, up to
      the read of the backlog: nothing is left to replay. */
  lemma UnpublishedStart() returns (n: Net, steps: seq<Step>)
    ensures Initial(n) && Legal(n, steps) && n.since == Some("a")
    ensures Run(n, steps) ==
      Net([Item(1, "a", "a")], Appended, [], Box(DEFAULT_QUEUE_SIZE, [], 0), Replaying([]), Some("a"), 0, [], 0, 1, 1, [])
  {
    n := Net([], Idle, [], Box(1, [], 0), Waiting, Some("a"), 0, [], 0, 0, 0, []);
    var n1 := Apply(n, Append("a"));
    var n2 := Apply(n1, Subscribe(DEFAULT_QUEUE_SIZE));
    assert n1.chain == [Item(1, "a", "a")];
    assert Replayed(n2.chain, Some("a")) == Ok(1);
    assert n2.chain[1..] == [];
    RunCons(n2, ReadBacklog, []);
    RunCons(n1, Subscribe(DEFAULT_QUEUE_SIZE), [ReadBacklog]);
    steps := [Append("a")] + ([Subscribe(DEFAULT_QUEUE_SIZE)] + [ReadBacklog]);
    RunCons(n, Append("a"), [Subscribe(DEFAULT_QUEUE_SIZE)] + [ReadBacklog]);
  }

  /** The event of the cursor is then published, and delivered again. */
  lemma UnpublishedEnd(n: Net) returns (steps: seq<Step>)
    requires n.chain == [Item(1, "a", "a")] && n.phase.Appended? && n.transit == [] && n.box == Box(DEFAULT_QUEUE_SIZE, [], 0)
    requires n.reader == Replaying([]) && n.lastSeq == 0 && n.delivered == []
    ensures Legal(n, steps)
    ensures var m := Run(n, steps);
      m.box.dropped == 0 && m.delivered == m.chain == n.chain && m.since == n.since && m.cursorEnd == n.cursorEnd
  {
    var n4 := Apply(n, SendBacklog);
    var n5 := Apply(n4, Snapshot);
    var n6 := Apply(n5, OfferLast);
    var n7 := Apply(n6, RunCallback);
    assert n7.box.queue == n.chain;
    RunCons(n7, Follow, []);
    RunCons(n6, RunCallback, [Follow]);
    RunCons(n5, OfferLast, [RunCallback] + [Follow]);
    RunCons(n4, Snapshot, [OfferLast] + ([RunCallback] + [Follow]));
    steps := [SendBacklog] + ([Snapshot] + ([OfferLast] + ([RunCallback] + [Follow])));
    RunCons(n, SendBacklog, [Snapshot] + ([OfferLast] + ([RunCallback] + [Follow])));
  }

  lemma {:induction false} RunTwice(n: Net, first: seq<Step>, second: seq<Step>)
    requires Legal(n, first) && Legal(Run(n, first), second)
    ensures Legal(n, first + second) && Run(n, first + second) == Run(Run(n, first), second)
    decreases |first|
  {
    hide Apply, Enabled;
    if first == [] {
      assert first + second == second;
    } else {
      assert (first + second)[0] == first[0] && (first + second)[1..] == first[1..] + second;
      RunTwice(Apply(n, first[0]), first[1..], second);
    }
  }

  /** The documented "no duplicate" on reconnecting fails when the client's cursor is an event
      appended but not yet published: that event is delivered again. */
  lemma UnpublishedCursorRepeats() returns (n: Net, steps: seq<Step>)
    ensures Initial(n) && Legal(n, steps)
    ensures var m := Run(n, steps);
      m.box.dropped == 0 && m.cursorEnd == 1 && m.delivered == m.chain == [Item(1, "a", "a")] && m.since == Some("a")
  {
    hide Apply, Enabled, Legal, Run;
    var first, second;
    n, first := UnpublishedStart();
    second := UnpublishedEnd(Run(n, first));
    steps := first + second;
    RunTwice(n, first, second);
  }
}
