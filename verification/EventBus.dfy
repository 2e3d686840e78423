/** Live fan-out (backend/app/services/eventbus.py): per-subscriber bounded queues that drop
    their oldest item, and the lock-guarded table of subscriptions. */
module EventBus {
  import opened Seqs

  const DEFAULT_QUEUE_SIZE := 256

  // ------------------------------------------------ the bounded queue

  /** One reader's queue. A `maxsize` of zero or less is unbounded, as in asyncio. */
  datatype Box<T> = Box(maxsize: int, queue: seq<T>, dropped: nat)

  predicate Full<T>(b: Box<T>) {
    0 < b.maxsize <= |b.queue|
  }

  /** Enqueue; when full, the oldest unread item makes room. */
  function Put<T>(b: Box<T>, x: T): Box<T> {
    if Full(b) then b.(queue := b.queue[1..] + [x], dropped := b.dropped + 1) else b.(queue := b.queue + [x])
  }

  datatype Op<T> = Offer(item: T) | Read

  /** The queue with its whole past: what was offered, and which of it was read. */
  datatype Ledger<T> = Ledger(box: Box<T>, offered: seq<T>, readAt: seq<nat>)

  /** A read of an empty queue waits, so it changes nothing. */
  function Perform<T>(l: Ledger<T>, op: Op<T>): Ledger<T> {
    match op
    case Offer(x) => l.(box := Put(l.box, x), offered := l.offered + [x])
    case Read =>
      if l.box.queue == [] || |l.offered| < |l.box.queue| then l
      else l.(box := l.box.(queue := l.box.queue[1..]), readAt := l.readAt + [|l.offered| - |l.box.queue|])
  }

  function RunOps<T>(l: Ledger<T>, ops: seq<Op<T>>): Ledger<T> {
    if ops == [] then l else Perform(RunOps(l, ops[..|ops| - 1]), ops[|ops| - 1])
  }

  function Opened<T>(maxsize: int): Ledger<T> {
    Ledger(Box(maxsize, [], 0), [], [])
  }

  /** Nothing is reordered or invented: the queue is the newest part of what was offered, reads
      come from before it in offer order, and every item was read, dropped or is still queued. */
  ghost predicate Accounted<T>(l: Ledger<T>) {
    && (l.box.maxsize >= 1 ==> |l.box.queue| <= l.box.maxsize)
    && |l.offered| == |l.readAt| + l.box.dropped + |l.box.queue|
    && l.box.queue == l.offered[|l.offered| - |l.box.queue|..]
    && (forall i, j :: 0 <= i < j < |l.readAt| ==> l.readAt[i] < l.readAt[j])
    && (forall i :: 0 <= i < |l.readAt| ==> l.readAt[i] < |l.offered| - |l.box.queue|)
    && (l.box.maxsize < 1 ==> l.box.dropped == 0)
  }

  lemma PerformAccounted<T>(l: Ledger<T>, op: Op<T>)
    requires Accounted(l)
    ensures Accounted(Perform(l, op))
  {
    if op.Offer? {
      OfferAccounted(l, op.item);
    }
  }

  lemma OfferAccounted<T>(l: Ledger<T>, x: T)
    requires Accounted(l)
    ensures Accounted(Perform(l, Offer(x)))
  {
    var (q, all) := (l.box.queue, l.offered);
    assert q + [x] == (all + [x])[|all| - |q|..];
    if Full(l.box) {
      assert q[1..] + [x] == (all + [x])[|all| - |q| + 1..];
    }
  }

  /** Conservation over every run of offers and reads. */
  lemma {:induction false} RunAccounted<T>(maxsize: int, ops: seq<Op<T>>)
    ensures Accounted(RunOps(Opened<T>(maxsize), ops))
    ensures RunOps(Opened<T>(maxsize), ops).box.maxsize == maxsize
  {
    if ops != [] {
      hide Accounted;
      RunAccounted<T>(maxsize, ops[..|ops| - 1]);
      PerformAccounted(RunOps(Opened<T>(maxsize), ops[..|ops| - 1]), ops[|ops| - 1]);
    }
  }

  class Subscription<T(0)> {
    const incidentId: string
    const maxsize: int
    var queue: seq<T>
    var dropped: nat
    /** Callbacks scheduled on the reader's loop and not run yet. */
    var scheduled: seq<T>
    var loopClosed: bool

    constructor (incidentId: string, maxsize: int)
      ensures this.incidentId == incidentId && this.maxsize == maxsize
      ensures Valid() && Contents() == Opened<T>(maxsize).box && scheduled == [] && !loopClosed
    {
      this.incidentId, this.maxsize := incidentId, maxsize;
      queue, dropped, scheduled, loopClosed := [], 0, [], false;
    }

    ghost function Contents(): Box<T>
      reads this`queue, this`dropped
    {
      Box(maxsize, queue, dropped)
    }

    ghost predicate Valid()
      reads this
    {
      maxsize >= 1 ==> |queue| <= maxsize
    }

    /** queue.put_nowait: fails when the queue is full. */
    method PutNoWait(x: T) returns (ok: bool)
      modifies this`queue
      ensures ok == !old(Full(Contents()))
      ensures queue == if ok then old(queue) + [x] else old(queue)
    {
      ok := !(0 < maxsize <= |queue|);
      if ok {
        queue := queue + [x];
      }
    }

    /** The scheduled callback. Its inner error branch cannot be reached. */
    method DoPut(x: T)
      requires Valid()
      modifies this`queue, this`dropped
      ensures Valid() && Contents() == Put(old(Contents()), x)
    {
      var ok := PutNoWait(x);
      if !ok {
        if queue == [] {
          assert false;
        } else {
          queue := queue[1..];
          dropped := dropped + 1;
          var again := PutNoWait(x);
          assert again;
        }
      }
    }

    /** Callable from any thread: schedules the put, or nothing once the loop is closed. */
    method DoOffer(x: T)
      modifies this`scheduled
      ensures scheduled == if loopClosed then old(scheduled) else old(scheduled) + [x]
    {
      if !loopClosed {
        scheduled := scheduled + [x];
      }
    }

    /** The awaited get, once an item is there. */
    method Get() returns (x: T)
      requires Valid() && queue != []
      modifies this`queue
      ensures Valid() && x == old(queue)[0] && Contents() == old(Contents()).(queue := old(queue)[1..])
    {
      x := queue[0];
      queue := queue[1..];
    }
  }

  // ------------------------------------------------ the table of subscriptions

  function Added<S>(subs: map<string, seq<S>>, k: string, s: S): map<string, seq<S>> {
    subs[k := (if k in subs then subs[k] else []) + [s]]
  }

  function Without<S(==)>(bucket: seq<S>, s: S): seq<S> {
    if bucket == [] then []
    else if bucket[0] == s then bucket[1..]
    else [bucket[0]] + Without(bucket[1..], s)
  }

  function Removed<S(==)>(subs: map<string, seq<S>>, k: string, s: S): map<string, seq<S>> {
    if k !in subs || s !in subs[k] then subs
    else if Without(subs[k], s) == [] then subs - {k}
    else subs[k := Without(subs[k], s)]
  }

  /** No bucket is kept empty, and nobody is listed twice. */
  ghost predicate Tidy<S(!new)>(subs: map<string, seq<S>>) {
    forall k :: k in subs ==> subs[k] != [] && Distinct(subs[k])
  }

  lemma {:induction false} WithoutLast<S>(bucket: seq<S>, s: S)
    requires s !in bucket
    ensures Without(bucket + [s], s) == bucket
  {
    if bucket != [] {
      WithoutLast(bucket[1..], s);
      assert (bucket + [s])[1..] == bucket[1..] + [s];
    }
  }

  /** The first listing goes, the others keep their order. */
  lemma {:induction false} WithoutExactly<S>(before: seq<S>, s: S, after: seq<S>)
    requires s !in before
    ensures Without(before + [s] + after, s) == before + after
  {
    var bucket := before + [s] + after;
    if before == [] {
      assert bucket[1..] == after && before + after == after;
    } else {
      assert bucket[1..] == before[1..] + [s] + after;
      WithoutExactly(before[1..], s, after);
      assert [before[0]] + (before[1..] + after) == before + after;
    }
  }

  lemma {:induction false} WithoutDistinct<S>(bucket: seq<S>, s: S)
    requires Distinct(bucket)
    ensures Distinct(Without(bucket, s))
    ensures forall x :: x in Without(bucket, s) <==> x in bucket && x != s
  {
    if bucket != [] {
      assert bucket == [bucket[0]] + bucket[1..];
      assert forall i :: 0 <= i < |bucket| - 1 ==> bucket[1..][i] == bucket[i + 1];
      WithoutDistinct(bucket[1..], s);
      assert bucket[0] !in bucket[1..];
    }
  }

  /** Unsubscribing undoes subscribing, down to the emptied bucket. */
  lemma RemoveUndoesAdd<S(!new)>(subs: map<string, seq<S>>, k: string, s: S)
    requires Tidy(subs) && (k in subs ==> s !in subs[k])
    ensures Tidy(Added(subs, k, s)) && Removed(Added(subs, k, s), k, s) == subs
  {
    WithoutLast(if k in subs then subs[k] else [], s);
  }

  class Bus<T(0)> {
    var subs: map<string, seq<Subscription<T>>>

    ghost predicate Valid()
      reads this
    {
      forall k :: k in subs ==> subs[k] != [] && Distinct(subs[k]) && forall s :: s in subs[k] ==> s.incidentId == k
    }

    constructor ()
      ensures Valid() && subs == map[]
    {
      subs := map[];
    }

    method Subscribe(incidentId: string, maxsize: int) returns (sub: Subscription<T>)
      requires Valid()
      modifies this
      ensures Valid() && fresh(sub) && subs == Added(old(subs), incidentId, sub)
      ensures incidentId in subs && (forall k :: k in subs && k != incidentId ==> k in old(subs) && subs[k] == old(subs)[k])
      ensures subs[incidentId] == (if incidentId in old(subs) then old(subs)[incidentId] else []) + [sub]
      ensures sub.Valid() && sub.incidentId == incidentId && sub.Contents() == Opened<T>(maxsize).box && sub.scheduled == []
    {
      sub := new Subscription(incidentId, maxsize);
      assert forall k, s :: k in subs && s in subs[k] ==> s != sub;
      var bucket := if incidentId in subs then subs[incidentId] else [];
      subs := subs[incidentId := bucket + [sub]];
    }

    method Unsubscribe(sub: Subscription<T>)
      requires Valid()
      modifies this
      ensures Valid() && subs == Removed(old(subs), sub.incidentId, sub)
      ensures forall k :: k in subs ==> sub !in subs[k]
    {
      var k := sub.incidentId;
      if k !in subs || sub !in subs[k] {
        return;
      }
      WithoutDistinct(subs[k], sub);
      var bucket := Without(subs[k], sub);
      subs := if bucket == [] then subs - {k} else subs[k := bucket];
    }

    /** Fan out to the subscribers of the moment: the lock covers only the snapshot. */
    method Publish(incidentId: string, payload: T) returns (reached: nat)
      requires Valid()
      modifies (if incidentId in subs then (set s | s in subs[incidentId]) else {})`scheduled
      ensures reached == if incidentId in subs then |subs[incidentId]| else 0
      ensures incidentId in subs ==> forall s :: s in subs[incidentId] ==>
        s.scheduled == (if s.loopClosed then old(s.scheduled) else old(s.scheduled) + [payload])
        && s.Contents() == old(s.Contents()) && s.loopClosed == old(s.loopClosed)
    {
      hide Distinct;
      var targets := if incidentId in subs then subs[incidentId] else [];
      var i := 0;
      while i < |targets|
        invariant 0 <= i <= |targets|
        invariant forall j :: 0 <= j < |targets| ==>
          targets[j].scheduled == (if targets[j].loopClosed || i <= j then old(targets[j].scheduled)
                                   else old(targets[j].scheduled) + [payload])
      {
        DistinctAt(targets, i);
        targets[i].DoOffer(payload);
        i := i + 1;
      }
      return |targets|;
    }
  }
}
