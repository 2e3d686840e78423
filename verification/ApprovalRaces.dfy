/** The lifecycle of a request when handlers interleave. Deciding, assigning the status and
    assigning the decider are separate steps without a lock, so a decision may be written over
    another one. This says exactly when the lifecycle survives. */
module ApprovalRaces {
  import opened Wrappers
  import N = NonceStores
  import opened Approval
  import opened Approvals
  import opened ApprovalProtocol
  import L = ApprovalLifecycle

  // ------------------------------------------------ one step

  /** The content of an entry is frozen, and its status only moves forward. */
  predicate Steady(e: Entry, f: Entry) {
    && f.request == e.request && f.action == e.action
    && f.requesterKeyId == e.requesterKeyId && f.identityMode == e.identityMode
    && L.Moves(e.status, f.status)
  }

  ghost predicate TableMoves(t: Table, u: Table) {
    forall id :: id in t ==> id in u && Steady(t[id], u[id])
  }

  /** The status that the event assigns, and to which request. */
  function Assigns(s: Sys, e: Event): Option<(string, Status)> {
    match e
    case Commit(tid) =>
      if tid in s.flights && s.flights[tid].kind == ToApprove && s.flights[tid].live then Some((s.flights[tid].id, Approved))
      else None
    case WriteStatus(tid) =>
      if tid !in s.writes then None
      else (match s.writes[tid]
            case Denying(id, _) => Some((id, Denied))
            case Lapsing(id) => Some((id, Lapsed))
            case _ => None)
    case _ => None
  }

  /** What an assignment finds may still move there: pending, the same status already, or
      approved when it expires. */
  predicate InOrder(s: Sys, e: Event) {
    var a := Assigns(s, e);
    a.Some? && a.value.0 in s.desk.requests ==>
      var before := s.desk.requests[a.value.0].status;
      before == Pending || before == a.value.1 || (before == Approved && a.value.1 == Lapsed)
  }

  /** No crash, no late load, and approval ids are drawn new. */
  predicate Ordinary(s: Sys, e: Event) {
    !e.Crash? && !e.LateLoad? && (e.Raise? ==> e.approvalId !in EnsureLoaded(s.desk).requests)
  }

  lemma PutMovesExactly(t: Table, id: string, status: Status)
    ensures TableMoves(t, Put(t, id, status)) <==> (id in t ==> L.Moves(t[id].status, status))
  {
    var u := Put(t, id, status);
    if id in t {
      assert TableMoves(t, u) <==> Steady(t[id], u[id]);
    }
  }

  lemma Unmoved(t: Table, u: Table)
    requires t.Keys <= u.Keys && forall id :: id in t ==> u[id] == t[id] || u[id] == t[id].(decidedBy := u[id].decidedBy)
    ensures TableMoves(t, u)
  {
  }

  lemma LoadMoves(d: Desk)
    ensures TableMoves(d.requests, EnsureLoaded(d).requests)
  {
  }

  lemma RaiseMoves(s: Sys, e: Event)
    requires e.Raise? && e.approvalId !in EnsureLoaded(s.desk).requests
    ensures TableMoves(s.desk.requests, DoRaise(s, e).desk.requests)
  {
    RequestTable(s.desk, e);
    assert DoRaise(s, e).desk == Raised(s.desk, e).1;
    hide Raised, DoRaise;
  }

  lemma SweepMoves(d: Desk, at: Instant)
    ensures TableMoves(d.requests, Swept(EnsureLoaded(d).requests, at))
  {
  }

  lemma DeciderMoves(t: Table, w: Write)
    requires w.Deciding?
    ensures TableMoves(t, PutDecider(t, w))
  {
    Unmoved(t, PutDecider(t, w));
  }

  lemma BeginDesk(s: Sys, tid: nat, id: string, kind: Kind, keyId: string, perKey: bool, verdict: Verdict)
    requires id in s.desk.requests
    ensures DoBegin(s, tid, id, kind, keyId, perKey, verdict).desk == s.desk
  {
  }

  lemma BurnDesk(s: Sys, tid: nat, io: N.Io)
    requires tid in s.flights
    ensures DoBurn(s, tid, io).desk.requests == s.desk.requests
  {
    hide N.Consume;
  }

  /** What each event does to the table. */
  function TableAfter(s: Sys, e: Event): Table
    requires Enabled(s, e) && !e.Crash? && !e.LateLoad?
  {
    match e
    case Raise(_, _, _, _, _, _, _, _, _, _) => DoRaise(s, e).desk.requests
    case SweepAll(_, at) => Swept(EnsureLoaded(s.desk).requests, at)
    case WriteDecider(tid) => PutDecider(s.desk.requests, s.writes[tid])
    case Commit(_) => if Assigns(s, e).Some? then Put(s.desk.requests, Assigns(s, e).value.0, Approved) else s.desk.requests
    case WriteStatus(_) => Put(s.desk.requests, Assigns(s, e).value.0, Assigns(s, e).value.1)
    case BeginApprove(_, _, _, _) => EnsureLoaded(s.desk).requests
    case BeginMint(_, _, _, _) => EnsureLoaded(s.desk).requests
    case BeginDecline(_, _, _) => EnsureLoaded(s.desk).requests
    case BeginLapse(_, _, _) => EnsureLoaded(s.desk).requests
    case _ => s.desk.requests
  }

  lemma BeginTable(s: Sys, e: Event)
    requires Enabled(s, e) && (e.BeginApprove? || e.BeginMint?)
    ensures Do(s, e).desk.requests == TableAfter(s, e)
  {
    hide DoBegin, EnsureLoaded, ApproveGate, MintGate;
    var loaded := s.(desk := EnsureLoaded(s.desk));
    match e
    case BeginApprove(tid, id, x, env) =>
      if id in loaded.desk.requests {
        BeginDesk(loaded, tid, id, ToApprove, x.approverKeyId, x.identityMode == PER_KEY,
                  ApproveGate(loaded.desk.requests[id], x, env));
      }
    case BeginMint(tid, id, claim, env) =>
      if id in loaded.desk.requests {
        BeginDesk(loaded, tid, id, ToMint, "", false, MintGate(loaded.desk.requests[id], claim, env));
      }
  }

  lemma WriteTable(s: Sys, e: Event)
    requires Enabled(s, e) && (e.Commit? || e.WriteStatus? || e.WriteDecider? || e.BurnKey?)
    ensures Do(s, e).desk.requests == TableAfter(s, e)
  {
    hide DoBurn, DoCommit, DoWriteStatus, Put, PutDecider;
    match e
    case BurnKey(tid, io) => BurnDesk(s, tid, io);
    case Commit(tid) => CommitDesk(s, tid);
    case WriteStatus(tid) => StatusDesk(s, tid);
    case WriteDecider(_) =>
  }

  lemma OtherTable(s: Sys, e: Event)
    requires Enabled(s, e) && !e.Crash? && !e.LateLoad? && !e.BeginApprove? && !e.BeginMint?
    requires !e.Commit? && !e.WriteStatus? && !e.WriteDecider? && !e.BurnKey?
    ensures Do(s, e).desk.requests == TableAfter(s, e)
  {
    hide DoRaise, DoCopy, DoAbandon, EnsureLoaded, MayReject, Overdue, Swept;
    match e
    case CopyEntry(tid, id) => CopyDesk(s, tid, id, s.desk.requests[id]);
    case CopyDecider(tid, id) =>
      CopyDesk(s, tid, id, s.writes[tid].copy[id].(decidedBy := s.desk.requests[id].decidedBy));
    case Abandon(tid) => AbandonDesk(s, tid);
    case _ =>
  }

  lemma NextTable(s: Sys, e: Event)
    requires Enabled(s, e) && !e.Crash? && !e.LateLoad?
    ensures Next(s, e).desk.requests == TableAfter(s, e)
  {
    hide Do, Enabled, TableAfter;
    if e.BeginApprove? || e.BeginMint? {
      BeginTable(s, e);
    } else if e.Commit? || e.WriteStatus? || e.WriteDecider? || e.BurnKey? {
      WriteTable(s, e);
    } else {
      OtherTable(s, e);
    }
  }

  lemma CommitDesk(s: Sys, tid: nat)
    requires tid in s.flights
    ensures var f := s.flights[tid];
      DoCommit(s, tid).desk.requests ==
        if f.kind == ToApprove && f.live then Put(s.desk.requests, f.id, Approved) else s.desk.requests
  {
    hide Put;
  }

  lemma StatusDesk(s: Sys, tid: nat)
    requires Enabled(s, WriteStatus(tid))
    ensures DoWriteStatus(s, tid).desk.requests ==
      Put(s.desk.requests, s.writes[tid].id, if s.writes[tid].Denying? then Denied else Lapsed)
  {
    hide Put;
  }

  lemma CopyDesk(s: Sys, tid: nat, id: string, e: Entry)
    requires IsSaving(s, tid)
    ensures DoCopy(s, tid, id, e).desk == s.desk
  {
  }

  lemma AbandonDesk(s: Sys, tid: nat)
    ensures DoAbandon(s, tid).desk == s.desk
  {
  }

  /** A step keeps the lifecycle exactly when it assigns no status, or one that fits. */
  lemma StepMovesExactly(s: Sys, e: Event)
    requires Enabled(s, e) && Ordinary(s, e)
    ensures TableMoves(s.desk.requests, Next(s, e).desk.requests) <==> InOrder(s, e)
  {
    NextTable(s, e);
    LoadMoves(s.desk);
    hide Next, Enabled, TableMoves, DoRaise, Swept, Put, PutDecider, EnsureLoaded;
    Unmoved(s.desk.requests, s.desk.requests);
    match e
    case Raise(_, _, _, _, _, _, _, _, _, _) => RaiseMoves(s, e);
    case SweepAll(_, at) => SweepMoves(s.desk, at);
    case WriteDecider(tid) => DeciderMoves(s.desk.requests, s.writes[tid]);
    case Commit(tid) =>
      if Assigns(s, e).Some? {
        PutMovesExactly(s.desk.requests, s.flights[tid].id, Approved);
      }
    case WriteStatus(tid) =>
      PutMovesExactly(s.desk.requests, Assigns(s, e).value.0, Assigns(s, e).value.1);
    case _ =>
  }

  // ------------------------------------------------ runs

  ghost predicate AllOrdinary(s: Sys, events: seq<Event>)
    requires Legal(s, events)
    decreases |events|
  {
    events != [] ==> Ordinary(s, events[0]) && AllOrdinary(Next(s, events[0]), events[1..])
  }

  ghost predicate AllInOrder(s: Sys, events: seq<Event>)
    requires Legal(s, events)
    decreases |events|
  {
    events != [] ==> InOrder(s, events[0]) && AllInOrder(Next(s, events[0]), events[1..])
  }

  /** Every step of the run moves requests along the lifecycle only. */
  ghost predicate MovesThroughout(s: Sys, events: seq<Event>)
    requires Legal(s, events)
    decreases |events|
  {
    events != [] ==>
      TableMoves(s.desk.requests, Next(s, events[0]).desk.requests) && MovesThroughout(Next(s, events[0]), events[1..])
  }

  /** Over every interleaving, the lifecycle holds exactly if every assignment of a status finds
      an entry that may still move there. */
  lemma {:induction false} RunMovesExactly(s: Sys, events: seq<Event>)
    requires Legal(s, events) && AllOrdinary(s, events)
    ensures MovesThroughout(s, events) <==> AllInOrder(s, events)
    decreases |events|
  {
    hide InOrder, Ordinary, TableMoves, Next, Enabled;
    if events != [] {
      StepMovesExactly(s, events[0]);
      RunMovesExactly(Next(s, events[0]), events[1..]);
    }
  }

  // ------------------------------------------------ runs in which no decision is overtaken

  ghost predicate Handles(s: Sys, tid: nat, id: string) {
    || (tid in s.flights && s.flights[tid].id == id)
    || (tid in s.writes && !s.writes[tid].Saving? && s.writes[tid].id == id)
  }

  ghost predicate Rewritten(t: Table, u: Table, id: string) {
    id in t && id in u && t[id] != u[id]
  }

  /** The event assigns status or decider for this handler. */
  predicate WritesFor(s: Sys, e: Event, tid: nat) {
    || (e.Commit? && e.tid == tid && tid in s.flights && s.flights[tid].kind == ToApprove)
    || (e.WriteStatus? && e.tid == tid)
    || (e.WriteDecider? && e.tid == tid)
  }

  /** The handlers in progress whose request another one changed since they decided about it. */
  ghost function Overtaken(s: Sys, e: Event, t: Sys, before: set<nat>): set<nat> {
    set tid | tid in s.flights.Keys + s.writes.Keys && !Idle(t, tid) &&
      (tid in before
       || (!WritesFor(s, e, tid) && exists id :: Handles(s, tid, id) && Rewritten(s.desk.requests, t.desk.requests, id)))
  }

  /** No handler assigns anything after another handler or a sweep has changed the request it
      decided about. */
  ghost predicate Undisturbed(s: Sys, overtaken: set<nat>, events: seq<Event>)
    requires Legal(s, events)
    decreases |events|
  {
    events != [] ==>
      && (forall tid :: tid in overtaken ==> !WritesFor(s, events[0], tid))
      && Undisturbed(Next(s, events[0]), Overtaken(s, events[0], Next(s, events[0]), overtaken), events[1..])
  }

  predicate StillFits(t: Table, f: Flight) {
    f.id in t && (f.kind == ToApprove ==> t[f.id].status == Pending)
  }

  predicate StillWritable(t: Table, w: Write) {
    match w
    case Denying(id, _) => id in t && t[id].status == Pending
    case Lapsing(id) => id in t && t[id].status != Denied
    case Deciding(id, _, to) => id in t && t[id].status == to
    case Saving(_) => true
  }

  /** A handler that was not overtaken finds what it decided about, or what it has assigned. */
  ghost predicate Settled(s: Sys, overtaken: set<nat>) {
    && s.flights.Keys !! s.writes.Keys
    && (forall tid :: tid in s.flights && tid !in overtaken ==> StillFits(s.desk.requests, s.flights[tid]))
    && (forall tid :: tid in s.writes && tid !in overtaken ==> StillWritable(s.desk.requests, s.writes[tid]))
  }

  ghost predicate FlightFollows(s: Sys, e: Event, t: Sys, tid: nat)
    requires tid in t.flights
  {
    || (&& tid in s.flights && t.flights[tid].id == s.flights[tid].id && t.flights[tid].kind == s.flights[tid].kind
        && !WritesFor(s, e, tid))
    || StillFits(t.desk.requests, t.flights[tid])
  }

  ghost predicate WriteFollows(s: Sys, e: Event, t: Sys, tid: nat)
    requires tid in t.writes
  {
    || (tid in s.writes && t.writes[tid] == s.writes[tid] && !WritesFor(s, e, tid))
    || StillWritable(t.desk.requests, t.writes[tid])
  }

  /** Every handler was there before, or fits what is in the table now. */
  ghost predicate Follows(s: Sys, e: Event, t: Sys) {
    && (forall tid :: tid in t.flights ==> FlightFollows(s, e, t, tid))
    && (forall tid :: tid in t.writes ==> WriteFollows(s, e, t, tid))
    && (forall id :: id in s.desk.requests ==> id in t.desk.requests)
    && t.flights.Keys !! t.writes.Keys
  }

  lemma FollowsSettled(s: Sys, e: Event, t: Sys, overtaken: set<nat>)
    requires Settled(s, overtaken) && Follows(s, e, t)
    ensures Settled(t, Overtaken(s, e, t, overtaken))
  {
    var after := Overtaken(s, e, t, overtaken);
    hide Overtaken;
    forall tid | tid in t.flights && tid !in after ensures StillFits(t.desk.requests, t.flights[tid]) {
      assert FlightFollows(s, e, t, tid);
      if !StillFits(t.desk.requests, t.flights[tid]) {
        NotOvertaken(s, e, t, overtaken, tid, s.flights[tid].id);
      }
    }
    forall tid | tid in t.writes && tid !in after ensures StillWritable(t.desk.requests, t.writes[tid]) {
      assert WriteFollows(s, e, t, tid);
      if !StillWritable(t.desk.requests, t.writes[tid]) {
        NotOvertaken(s, e, t, overtaken, tid, s.writes[tid].id);
      }
    }
  }

  lemma NotOvertaken(s: Sys, e: Event, t: Sys, overtaken: set<nat>, tid: nat, id: string)
    requires !Idle(s, tid) && !Idle(t, tid) && tid !in Overtaken(s, e, t, overtaken) && !WritesFor(s, e, tid)
    requires Handles(s, tid, id)
    ensures tid !in overtaken && !Rewritten(s.desk.requests, t.desk.requests, id)
  {
  }

  // The events, one kind at a time.

  lemma BeginFollows(s: Sys, e: Event)
    requires s.flights.Keys !! s.writes.Keys && Enabled(s, e) && (e.BeginApprove? || e.BeginMint?)
    ensures Follows(s, e, Do(s, e))
  {
    hide DoBegin, EnsureLoaded, Check;
    LoadKeeps(s.desk);
    var loaded := s.(desk := EnsureLoaded(s.desk));
    match e
    case BeginApprove(tid, id, x, env) =>
      if id in loaded.desk.requests {
        BeginFits(loaded, tid, id, ToApprove, x.approverKeyId, x.identityMode == PER_KEY,
                  ApproveGate(loaded.desk.requests[id], x, env));
      }
    case BeginMint(tid, id, claim, env) =>
      if id in loaded.desk.requests {
        BeginFits(loaded, tid, id, ToMint, "", false, MintGate(loaded.desk.requests[id], claim, env));
      }
  }

  lemma LoadKeeps(d: Desk)
    ensures forall id :: id in d.requests ==> id in EnsureLoaded(d).requests
  {
  }

  lemma BeginFits(s: Sys, tid: nat, id: string, kind: Kind, keyId: string, perKey: bool, verdict: Verdict)
    requires id in s.desk.requests
    requires kind == ToApprove && verdict == Proceed ==> s.desk.requests[id].status == Pending
    requires verdict == Expire ==> s.desk.requests[id].status != Denied
    ensures var t := DoBegin(s, tid, id, kind, keyId, perKey, verdict);
      && t.desk == s.desk
      && (forall v :: v in t.flights ==> (v in s.flights && t.flights[v] == s.flights[v]) || StillFits(t.desk.requests, t.flights[v]))
      && (forall v :: v in t.writes ==> (v in s.writes && t.writes[v] == s.writes[v]) || StillWritable(t.desk.requests, t.writes[v]))
      && t.flights.Keys <= s.flights.Keys + {tid} && t.writes.Keys <= s.writes.Keys + {tid}
      && (t.flights == s.flights || t.writes == s.writes)
  {
  }

  lemma DecideFollows(s: Sys, e: Event)
    requires s.flights.Keys !! s.writes.Keys && Enabled(s, e) && (e.BeginDecline? || e.BeginLapse? || e.SweepAll?)
    ensures Follows(s, e, Do(s, e))
  {
    hide EnsureLoaded;
    LoadKeeps(s.desk);
  }

  lemma WriteFollowsOn(s: Sys, e: Event, overtaken: set<nat>)
    requires Settled(s, overtaken) && Enabled(s, e) && (e.Commit? || e.WriteStatus? || e.WriteDecider?)
    requires forall tid :: tid in overtaken ==> !WritesFor(s, e, tid)
    ensures Follows(s, e, Do(s, e)) && InOrder(s, e)
  {
    match e
    case Commit(tid) =>
      if s.flights[tid].kind == ToApprove {
        assert StillFits(s.desk.requests, s.flights[tid]);
      }
    case WriteStatus(tid) =>
      assert StillWritable(s.desk.requests, s.writes[tid]);
    case WriteDecider(tid) =>
  }

  lemma OtherFollows(s: Sys, e: Event)
    requires s.flights.Keys !! s.writes.Keys && Enabled(s, e)
    requires e.Tick? || e.BurnKey? || e.SaveTable? || e.CopyEntry? || e.CopyDecider? || e.EndSave? || e.Abandon?
    ensures Follows(s, e, Do(s, e))
  {
    if e.BurnKey? {
      BurnFollows(s, e);
    } else if e.Tick? || e.Abandon? {
      hide EnsureLoaded, DoRaise, DoBegin, DoBurn, DoCommit, DoLateLoad, DoDecide, DoWriteStatus, DoWriteDecider, DoSave, DoCopy;
    } else {
      SaveFollows(s, e);
    }
  }

  lemma BurnFollows(s: Sys, e: Event)
    requires s.flights.Keys !! s.writes.Keys && Enabled(s, e) && e.BurnKey?
    ensures Follows(s, e, Do(s, e))
  {
    hide N.Consume, EnsureLoaded;
  }

  lemma SaveFollows(s: Sys, e: Event)
    requires s.flights.Keys !! s.writes.Keys && Enabled(s, e)
    requires e.SaveTable? || e.CopyEntry? || e.CopyDecider? || e.EndSave?
    ensures Follows(s, e, Do(s, e))
  {
    hide EnsureLoaded, DoRaise, DoBegin, DoBurn, DoCommit, DoLateLoad, DoDecide, DoWriteStatus, DoWriteDecider, DoAbandon;
  }

  lemma RaiseFollows(s: Sys, e: Event)
    requires s.flights.Keys !! s.writes.Keys && Enabled(s, e) && e.Raise? && Ordinary(s, e)
    ensures Follows(s, e, Do(s, e))
  {
    RequestTable(s.desk, e);
    LoadKeeps(s.desk);
    hide Raised, EnsureLoaded;
  }

  lemma StepSettled(s: Sys, e: Event, overtaken: set<nat>)
    requires Settled(s, overtaken) && Enabled(s, e) && Ordinary(s, e)
    requires forall tid :: tid in overtaken ==> !WritesFor(s, e, tid)
    ensures InOrder(s, e) && Settled(Next(s, e), Overtaken(s, e, Next(s, e), overtaken))
  {
    hide Do, Enabled, Overtaken, Follows, WritesFor;
    if e.BeginApprove? || e.BeginMint? {
      BeginFollows(s, e);
    } else if e.BeginDecline? || e.BeginLapse? || e.SweepAll? {
      DecideFollows(s, e);
    } else if e.Commit? || e.WriteStatus? || e.WriteDecider? {
      WriteFollowsOn(s, e, overtaken);
    } else if e.Raise? {
      RaiseFollows(s, e);
    } else {
      OtherFollows(s, e);
    }
    FollowsSettled(s, e, Do(s, e), overtaken);
    ArchiveSettled(s, e, overtaken);
  }

  lemma ArchiveSettled(s: Sys, e: Event, overtaken: set<nat>)
    requires Enabled(s, e) && Settled(Do(s, e), Overtaken(s, e, Do(s, e), overtaken))
    ensures Settled(Next(s, e), Overtaken(s, e, Next(s, e), overtaken))
  {
    hide Do, Enabled;
    assert Overtaken(s, e, Next(s, e), overtaken) == Overtaken(s, e, Do(s, e), overtaken);
  }

  lemma {:induction false} UndisturbedInOrder(s: Sys, overtaken: set<nat>, events: seq<Event>)
    requires Settled(s, overtaken) && Legal(s, events) && AllOrdinary(s, events) && Undisturbed(s, overtaken, events)
    ensures AllInOrder(s, events)
    decreases |events|
  {
    hide Settled, Overtaken, Next, Ordinary, InOrder, WritesFor, Enabled;
    if events != [] {
      StepSettled(s, events[0], overtaken);
      UndisturbedInOrder(Next(s, events[0]), Overtaken(s, events[0], Next(s, events[0]), overtaken), events[1..]);
    }
  }

  // ------------------------------------------------ the decider stays

  /** The request was decided by this key, and no handler that may still assign anything stands
      between its two assignments. */
  ghost predicate Decided(s: Sys, overtaken: set<nat>, id: string, keyId: string) {
    && id in s.desk.requests && s.desk.requests[id].status != Pending && s.desk.requests[id].decidedBy == keyId
    && forall tid :: tid in s.writes && s.writes[tid].Deciding? && s.writes[tid].id == id ==> tid in overtaken
  }

  lemma DecidedTable(s: Sys, e: Event, overtaken: set<nat>, id: string, keyId: string)
    requires Decided(s, overtaken, id, keyId) && Settled(s, overtaken) && Enabled(s, e) && Ordinary(s, e)
    requires forall tid :: tid in overtaken ==> !WritesFor(s, e, tid)
    ensures id in TableAfter(s, e) && TableAfter(s, e)[id].status != Pending && TableAfter(s, e)[id].decidedBy == keyId
  {
    if e.Raise? {
      RequestTable(s.desk, e);
      hide Raised;
    }
  }

  /** A handler newly between its two assignments is not on a decided request. */
  lemma DecidedWrites(s: Sys, e: Event, overtaken: set<nat>, id: string, keyId: string, tid: nat)
    requires Decided(s, overtaken, id, keyId) && Settled(s, overtaken) && Enabled(s, e) && Ordinary(s, e)
    requires forall v :: v in overtaken ==> !WritesFor(s, e, v)
    requires tid in Next(s, e).writes && Next(s, e).writes[tid].Deciding? && Next(s, e).writes[tid].id == id
    ensures tid in overtaken && tid in s.writes
  {
    DecidingBefore(s, e, tid);
    hide Next;
    assert tid in s.flights && tid !in overtaken ==> StillFits(s.desk.requests, s.flights[tid]);
    assert tid in s.writes && tid !in overtaken ==> StillWritable(s.desk.requests, s.writes[tid]);
  }

  /** Where a handler between its two assignments comes from. */
  ghost predicate FromBefore(s: Sys, e: Event, tid: nat, w: Write)
    requires w.Deciding?
  {
    || (tid in s.writes && s.writes[tid] == w)
    || (e == Commit(tid) && tid in s.flights && s.flights[tid].kind == ToApprove && s.flights[tid].live
        && w == Deciding(s.flights[tid].id, s.flights[tid].keyId, Approved))
    || (e == WriteStatus(tid) && tid in s.writes && s.writes[tid].Denying?
        && w == Deciding(s.writes[tid].id, s.writes[tid].keyId, Denied))
  }

  lemma BeginNoDeciding(s: Sys, tid: nat, id: string, kind: Kind, keyId: string, perKey: bool, verdict: Verdict)
    requires id in s.desk.requests
    ensures var t := DoBegin(s, tid, id, kind, keyId, perKey, verdict);
      forall v :: v in t.writes && t.writes[v].Deciding? ==> v in s.writes && s.writes[v] == t.writes[v]
  {
  }

  lemma BeginBefore(s: Sys, e: Event, tid: nat)
    requires Enabled(s, e) && (e.BeginApprove? || e.BeginMint?)
    requires tid in Do(s, e).writes && Do(s, e).writes[tid].Deciding?
    ensures FromBefore(s, e, tid, Do(s, e).writes[tid])
  {
    hide DoBegin, EnsureLoaded, ApproveGate, MintGate;
    var loaded := s.(desk := EnsureLoaded(s.desk));
    match e
    case BeginApprove(v, id, x, env) =>
      if id in loaded.desk.requests {
        BeginNoDeciding(loaded, v, id, ToApprove, x.approverKeyId, x.identityMode == PER_KEY,
                        ApproveGate(loaded.desk.requests[id], x, env));
      }
    case BeginMint(v, id, claim, env) =>
      if id in loaded.desk.requests {
        BeginNoDeciding(loaded, v, id, ToMint, "", false, MintGate(loaded.desk.requests[id], claim, env));
      }
  }

  lemma WriteBefore(s: Sys, e: Event, tid: nat)
    requires Enabled(s, e) && (e.Commit? || e.WriteStatus? || e.WriteDecider?)
    requires tid in Do(s, e).writes && Do(s, e).writes[tid].Deciding?
    ensures FromBefore(s, e, tid, Do(s, e).writes[tid])
  {
    hide Put, PutDecider;
  }

  lemma OtherBefore(s: Sys, e: Event, tid: nat)
    requires Enabled(s, e) && !e.BeginApprove? && !e.BeginMint? && !e.Commit? && !e.WriteStatus? && !e.WriteDecider?
    requires tid in Do(s, e).writes && Do(s, e).writes[tid].Deciding?
    ensures FromBefore(s, e, tid, Do(s, e).writes[tid])
  {
    hide DoBurn, EnsureLoaded, Swept, MayReject, Overdue, Raised;
    if e.BurnKey? {
      BurnWrites(s, e.tid, e.io);
    }
  }

  lemma DecidingBefore(s: Sys, e: Event, tid: nat)
    requires Enabled(s, e) && tid in Next(s, e).writes && Next(s, e).writes[tid].Deciding?
    ensures FromBefore(s, e, tid, Next(s, e).writes[tid])
  {
    hide Do, FromBefore, Enabled;
    if e.BeginApprove? || e.BeginMint? {
      BeginBefore(s, e, tid);
    } else if e.Commit? || e.WriteStatus? || e.WriteDecider? {
      WriteBefore(s, e, tid);
    } else {
      OtherBefore(s, e, tid);
    }
  }

  lemma BurnWrites(s: Sys, tid: nat, io: N.Io)
    requires tid in s.flights
    ensures DoBurn(s, tid, io).writes == s.writes
  {
    hide N.Consume;
  }

  lemma StepDecided(s: Sys, e: Event, overtaken: set<nat>, id: string, keyId: string)
    requires Decided(s, overtaken, id, keyId) && Settled(s, overtaken) && Enabled(s, e) && Ordinary(s, e)
    requires forall tid :: tid in overtaken ==> !WritesFor(s, e, tid)
    ensures Decided(Next(s, e), Overtaken(s, e, Next(s, e), overtaken), id, keyId)
  {
    DecidedTable(s, e, overtaken, id, keyId);
    NextTable(s, e);
    var t := Next(s, e);
    hide Next, Settled, TableAfter;
    forall tid | tid in t.writes && t.writes[tid].Deciding? && t.writes[tid].id == id
      ensures tid in Overtaken(s, e, t, overtaken)
    {
      DecidedWrites(s, e, overtaken, id, keyId, tid);
    }
  }

  lemma {:induction false} RunDecided(s: Sys, overtaken: set<nat>, events: seq<Event>, id: string, keyId: string)
    requires Decided(s, overtaken, id, keyId) && Settled(s, overtaken) && Legal(s, events) && AllOrdinary(s, events)
    requires Undisturbed(s, overtaken, events)
    ensures id in Run(s, events).desk.requests && Run(s, events).desk.requests[id].decidedBy == keyId
    decreases |events|
  {
    if events != [] {
      StepSettled(s, events[0], overtaken);
      StepDecided(s, events[0], overtaken, id, keyId);
      hide Settled, Overtaken, Next, Ordinary, InOrder, WritesFor, Enabled, Decided;
      RunDecided(Next(s, events[0]), Overtaken(s, events[0], Next(s, events[0]), overtaken), events[1..], id, keyId);
    }
  }

  // ------------------------------------------------ the lifecycle over concurrent runs

  lemma MovesTwice(t: Table, u: Table, v: Table)
    requires TableMoves(t, u) && TableMoves(u, v)
    ensures TableMoves(t, v)
  {
    forall id | id in t ensures id in v && Steady(t[id], v[id]) {
      assert Steady(t[id], u[id]) && Steady(u[id], v[id]);
    }
  }

  lemma {:induction false} RunMoves(s: Sys, events: seq<Event>)
    requires Legal(s, events) && MovesThroughout(s, events)
    ensures TableMoves(s.desk.requests, Run(s, events).desk.requests)
    decreases |events|
  {
    if events != [] {
      RunMoves(Next(s, events[0]), events[1..]);
      hide TableMoves, Next, Enabled;
      MovesTwice(s.desk.requests, Next(s, events[0]).desk.requests, Run(s, events).desk.requests);
    } else {
      Unmoved(s.desk.requests, s.desk.requests);
    }
  }

  /** The rest of an undisturbed run is undisturbed too. */
  lemma {:induction false} Split(s: Sys, overtaken: set<nat>, first: seq<Event>, rest: seq<Event>) returns (later: set<nat>)
    requires Settled(s, overtaken) && Legal(s, first + rest) && AllOrdinary(s, first + rest)
    requires Undisturbed(s, overtaken, first + rest)
    ensures Legal(s, first) && Legal(Run(s, first), rest) && Run(s, first + rest) == Run(Run(s, first), rest)
    ensures AllOrdinary(Run(s, first), rest) && Settled(Run(s, first), later) && Undisturbed(Run(s, first), later, rest)
    decreases |first|
  {
    if first == [] {
      assert first + rest == rest;
      later := overtaken;
    } else {
      assert (first + rest)[0] == first[0] && (first + rest)[1..] == first[1..] + rest;
      StepSettled(s, first[0], overtaken);
      hide Settled, Overtaken, Next, Ordinary, InOrder, WritesFor, Enabled;
      later := Split(Next(s, first[0]), Overtaken(s, first[0], Next(s, first[0]), overtaken), first[1..], rest);
    }
  }

  /** No handler stands between its two assignments to this request. */
  ghost predicate NoneBetween(s: Sys, id: string) {
    forall tid :: tid in s.writes && s.writes[tid].Deciding? ==> s.writes[tid].id != id
  }

  /** The lifecycle over concurrent runs: as long as no decision is overtaken, requests move
      pending to approved, denied or expired and approved to expired, what was raised stays as it
      was, and so does the decider of a request on which no handler stands between its two
      assignments. */
  lemma LifecycleUndisturbed(now: Instant, first: seq<Event>, rest: seq<Event>)
    requires Legal(Start(now), first + rest) && AllOrdinary(Start(now), first + rest)
    requires Undisturbed(Start(now), {}, first + rest)
    ensures Legal(Start(now), first)
    ensures var s, t := Run(Start(now), first), Run(Start(now), first + rest).desk.requests;
      && TableMoves(s.desk.requests, t)
      && forall id :: id in s.desk.requests && s.desk.requests[id].status != Pending && NoneBetween(s, id) ==>
           id in t && t[id].decidedBy == s.desk.requests[id].decidedBy
  {
    var later := Split(Start(now), {}, first, rest);
    var s := Run(Start(now), first);
    hide Run, Settled, Undisturbed;
    UndisturbedInOrder(s, later, rest);
    RunMovesExactly(s, rest);
    RunMoves(s, rest);
    forall id | id in s.desk.requests && s.desk.requests[id].status != Pending && NoneBetween(s, id)
      ensures id in Run(s, rest).desk.requests && Run(s, rest).desk.requests[id].decidedBy == s.desk.requests[id].decidedBy
    {
      RunDecided(s, later, rest, id, s.desk.requests[id].decidedBy);
    }
  }
}
