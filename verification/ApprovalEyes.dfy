/** Four eyes when handlers interleave and processes crash: what every grant keeps, and exactly
    when the table itself says so. */
module ApprovalEyes {
  import opened Wrappers
  import N = NonceStores
  import opened Approvals
  import opened ApprovalProtocol

  // ------------------------------------------------ every grant

  /** Granted through a per-key identity, by another key than the one that raised the request. */
  ghost predicate ByAnother(issued: map<string, Issued>, nonce: string, keyId: string) {
    nonce in issued && keyId != "" && keyId != issued[nonce].raisedBy
  }

  ghost predicate FlightsByAnother(issued: map<string, Issued>, flights: map<nat, Flight>) {
    forall tid :: tid in flights && flights[tid].kind == ToApprove && flights[tid].perKey ==>
      ByAnother(issued, flights[tid].request.nonce, flights[tid].keyId)
  }

  ghost predicate GrantsByAnother(issued: map<string, Issued>, grants: seq<Granted>) {
    forall i :: 0 <= i < |grants| && grants[i].perKey ==> ByAnother(issued, grants[i].nonce, grants[i].keyId)
  }

  ghost predicate Honest(s: Sys) {
    FlightsByAnother(s.issued, s.flights) && GrantsByAnother(s.issued, s.grants)
  }

  /** The gate of the per-key path. */
  lemma GateByAnother(e: Entry, x: Decision, env: Env)
    requires x.identityMode == PER_KEY && ApproveGate(e, x, env) == Proceed
    ensures x.approverKeyId != "" && x.approverKeyId != e.requesterKeyId
  {
  }

  lemma BeginHonest(s: Sys, tid: nat, id: string, kind: Kind, keyId: string, perKey: bool, verdict: Verdict)
    requires Honest(s) && id in s.desk.requests && KnownEntry(s.desk.requests[id], s.issued)
    requires kind == ToApprove && perKey && verdict == Proceed ==> keyId != "" && keyId != s.desk.requests[id].requesterKeyId
    ensures Honest(DoBegin(s, tid, id, kind, keyId, perKey, verdict))
  {
  }

  lemma RaiseHonest(s: Sys, e: Event)
    requires Honest(s) && e.Raise? && e.nonce !in s.issued
    ensures Honest(DoRaise(s, e))
  {
    hide Raised;
    var t := DoRaise(s, e);
    assert forall n :: n in s.issued ==> n in t.issued && t.issued[n] == s.issued[n];
  }

  /** Steps that start no handler and grant nothing. */
  lemma FrameHonest(s: Sys, t: Sys)
    requires Honest(s) && t.issued == s.issued && t.grants == s.grants
    requires forall tid :: tid in t.flights ==>
      && tid in s.flights && t.flights[tid].request == s.flights[tid].request && t.flights[tid].kind == s.flights[tid].kind
      && t.flights[tid].keyId == s.flights[tid].keyId && t.flights[tid].perKey == s.flights[tid].perKey
    ensures Honest(t)
  {
  }

  lemma BurnHonest(s: Sys, tid: nat, io: N.Io)
    requires Honest(s) && tid in s.flights
    ensures Honest(DoBurn(s, tid, io))
  {
    hide N.Consume, Honest;
    FrameHonest(s, DoBurn(s, tid, io));
  }

  lemma CommitHonest(s: Sys, tid: nat)
    requires Honest(s) && tid in s.flights
    ensures Honest(DoCommit(s, tid))
  {
    hide Put;
  }

  lemma LateLoadHonest(s: Sys, t: Table, whole: bool)
    requires Honest(s)
    ensures Honest(DoLateLoad(s, t, whole))
  {
    hide Honest;
    FrameHonest(s, DoLateLoad(s, t, whole));
  }

  lemma AbandonHonest(s: Sys, tid: nat)
    requires Honest(s)
    ensures Honest(DoAbandon(s, tid))
  {
    hide Honest;
    FrameHonest(s, DoAbandon(s, tid));
  }

  lemma EventHonest(s: Sys, e: Event)
    requires Tables(s) && Honest(s) && Enabled(s, e)
    ensures Honest(Do(s, e))
  {
    LoadTables(s);
    var loaded := s.(desk := EnsureLoaded(s.desk));
    FrameHonest(s, loaded);
    hide Honest, DoRaise, DoBegin, DoBurn, DoCommit, DoAbandon, DoLateLoad, EnsureLoaded, ApproveGate, MintGate;
    match e {
      case Raise(_, _, _, _, _, _, _, _, _, _) => RaiseHonest(s, e);
      case BeginApprove(tid, id, x, env) =>
        if id in loaded.desk.requests {
          assert KnownEntry(loaded.desk.requests[id], s.issued);
          if x.identityMode == PER_KEY && ApproveGate(loaded.desk.requests[id], x, env) == Proceed {
            GateByAnother(loaded.desk.requests[id], x, env);
          }
          BeginHonest(loaded, tid, id, ToApprove, x.approverKeyId, x.identityMode == PER_KEY,
                      ApproveGate(loaded.desk.requests[id], x, env));
        }
      case BeginMint(tid, id, claim, env) =>
        if id in loaded.desk.requests {
          assert KnownEntry(loaded.desk.requests[id], s.issued);
          BeginHonest(loaded, tid, id, ToMint, "", false, MintGate(loaded.desk.requests[id], claim, env));
        }
      case BurnKey(tid, io) => BurnHonest(s, tid, io);
      case Commit(tid) => CommitHonest(s, tid);
      case Abandon(tid) => AbandonHonest(s, tid);
      case LateLoad(table, whole) => LateLoadHonest(s, table, whole);
      case Tick(now) => FrameHonest(s, s.(now := now));
      case Crash(_, _) => FrameHonest(s, Do(s, e));
      case _ =>
        QuietEvent(s, e);
        FrameHonest(s, Do(s, e));
    }
  }

  lemma {:induction false} RunHonest(s: Sys, events: seq<Event>)
    requires Tables(s) && Honest(s) && Legal(s, events)
    ensures Honest(Run(s, events))
    decreases |events|
  {
    if events != [] {
      EventTables(s, events[0]);
      ArchiveTables(Do(s, events[0]));
      EventHonest(s, events[0]);
      FrameHonest(Do(s, events[0]), Next(s, events[0]));
      hide Tables, Honest, Do, Enabled;
      RunHonest(Next(s, events[0]), events[1..]);
    }
  }

  /** In every interleaving, with every crash, torn save and late load, each grant made through a
      per-key identity was made by another key than the one that raised the request with that
      nonce. */
  lemma GrantedByAnother(now: Instant, events: seq<Event>)
    requires Legal(Start(now), events)
    ensures var s := Run(Start(now), events);
      forall i :: 0 <= i < |s.grants| && s.grants[i].perKey ==>
        && s.grants[i].nonce in s.issued && s.grants[i].keyId != ""
        && s.grants[i].keyId != s.issued[s.grants[i].nonce].raisedBy
  {
    RunHonest(Start(now), events);
    var s := Run(Start(now), events);
    hide Run;
    forall i | 0 <= i < |s.grants| && s.grants[i].perKey ensures ByAnother(s.issued, s.grants[i].nonce, s.grants[i].keyId) {
    }
  }

  // ------------------------------------------------ what the tables say

  /** An approved request was decided by another key than the one that raised it. */
  predicate FourEyes(e: Entry) {
    e.status == Approved ==> e.decidedBy != "" && e.decidedBy != e.requesterKeyId
  }

  ghost predicate AllFourEyes(t: Table) {
    forall id :: id in t ==> FourEyes(t[id])
  }

  /** A grant of this request has assigned its status and not yet its decider. */
  ghost predicate HalfGranted(writes: map<nat, Write>, id: string) {
    exists tid :: tid in writes && writes[tid].Deciding? && writes[tid].id == id && writes[tid].to == Approved
  }

  ghost predicate MemoryEyes(t: Table, writes: map<nat, Write>) {
    forall id :: id in t ==> FourEyes(t[id]) || HalfGranted(writes, id)
  }

  ghost predicate CopiesEyes(writes: map<nat, Write>) {
    forall tid :: tid in writes && writes[tid].Saving? ==> AllFourEyes(writes[tid].copy)
  }

  ghost predicate DiskEyes(file: Option<Table>, snapshots: set<Table>) {
    (file.Some? ==> AllFourEyes(file.value)) && forall t :: t in snapshots ==> AllFourEyes(t)
  }

  /** Every table says so: in memory, except between the two assignments of a grant, in the
      copies that savers are making, and on disk. */
  ghost predicate Eyes(s: Sys) {
    MemoryEyes(s.desk.requests, s.writes) && CopiesEyes(s.writes) && DiskEyes(s.desk.file, s.snapshots)
  }

  predicate KeyFits(t: Table, id: string, keyId: string) {
    id in t && keyId != "" && keyId != t[id].requesterKeyId
  }

  /** The grants in progress are by other keys. */
  ghost predicate Support(s: Sys) {
    && s.flights.Keys !! s.writes.Keys
    && (forall tid :: tid in s.flights && s.flights[tid].kind == ToApprove && s.flights[tid].live ==>
          KeyFits(s.desk.requests, s.flights[tid].id, s.flights[tid].keyId))
    && (forall tid :: tid in s.writes && s.writes[tid].Deciding? && s.writes[tid].to == Approved ==>
          KeyFits(s.desk.requests, s.writes[tid].id, s.writes[tid].keyId))
  }

  /** Approvals come from per-key identities, and approval ids are drawn new. */
  predicate PerKeyOnly(s: Sys, e: Event) {
    && (e.BeginApprove? ==> e.x.identityMode == PER_KEY)
    && (e.Raise? ==> e.approvalId !in EnsureLoaded(s.desk).requests)
  }

  /** Approved by a grant that has still to replace the decider, which is empty or the raising key. */
  ghost predicate Unsigned(s: Sys, id: string) {
    && HalfGranted(s.writes, id) && id in s.desk.requests && s.desk.requests[id].status == Approved
    && s.desk.requests[id].decidedBy in {"", s.desk.requests[id].requesterKeyId}
  }

  /** In an honest table these are the only entries that do not tell. */
  lemma UnsignedExactly(s: Sys)
    requires Eyes(s)
    ensures forall id :: Unsigned(s, id) <==> id in s.desk.requests && !FourEyes(s.desk.requests[id])
    ensures AllFourEyes(s.desk.requests) <==> !exists id :: Unsigned(s, id)
  {
    hide HalfGranted;
    assert forall id :: Unsigned(s, id) <==> id in s.desk.requests && !FourEyes(s.desk.requests[id]);
  }

  /** The steps that make a table lie. A rejection presenting the raising key assigns the decider
      of a request that has meanwhile been granted, the grant having assigned its own before. Or
      a saver reads an entry between the two assignments of a grant. Or it reads the status
      while the request is approved, and the decider after a rejection has changed it. */
  ghost predicate Breaks(s: Sys, e: Event) {
    match e
    case WriteDecider(tid) =>
      && tid in s.writes && s.writes[tid].Deciding? && s.writes[tid].to != Approved && s.writes[tid].id in s.desk.requests
      && var r := s.desk.requests[s.writes[tid].id];
         && r.status == Approved && s.writes[tid].keyId != "" && s.writes[tid].keyId == r.requesterKeyId
         && !HalfGranted(s.writes, s.writes[tid].id)
    case SaveTable(_, saved) => saved && exists id :: Unsigned(s, id)
    case CopyEntry(_, id) => Unsigned(s, id)
    case CopyDecider(tid, id) =>
      && IsSaving(s, tid) && id in s.writes[tid].copy && id in s.desk.requests
      && s.writes[tid].copy[id].status == Approved
      && s.desk.requests[id].decidedBy in {"", s.writes[tid].copy[id].requesterKeyId}
    case _ => false
  }

  // ------------------------------------------------ the grants in progress stay by other keys

  ghost predicate SameRaisers(t: Table, u: Table) {
    forall id :: id in t ==> id in u && u[id].requesterKeyId == t[id].requesterKeyId
  }

  lemma FrameSupport(s: Sys, t: Sys)
    requires Support(s) && SameRaisers(s.desk.requests, t.desk.requests) && t.flights.Keys !! t.writes.Keys
    requires forall tid :: tid in t.flights ==>
      && tid in s.flights && t.flights[tid].id == s.flights[tid].id && t.flights[tid].kind == s.flights[tid].kind
      && t.flights[tid].keyId == s.flights[tid].keyId && t.flights[tid].live == s.flights[tid].live
    requires forall tid :: tid in t.writes && t.writes[tid].Deciding? && t.writes[tid].to == Approved ==>
      || (tid in s.writes && t.writes[tid] == s.writes[tid])
      || KeyFits(s.desk.requests, t.writes[tid].id, t.writes[tid].keyId)
    ensures Support(t)
  {
  }

  /** A step after which entries are as before or fine, grants in progress still in progress,
      copies as before or empty, and the disk as before. */
  lemma FrameEyes(s: Sys, t: Sys)
    requires Eyes(s) && t.desk.file == s.desk.file && t.snapshots == s.snapshots
    requires forall id :: id in t.desk.requests ==>
      (id in s.desk.requests && t.desk.requests[id] == s.desk.requests[id]) || FourEyes(t.desk.requests[id])
    requires forall tid :: tid in s.writes && s.writes[tid].Deciding? && s.writes[tid].to == Approved ==>
      tid in t.writes && t.writes[tid] == s.writes[tid]
    requires forall tid :: tid in t.writes && t.writes[tid].Saving? ==>
      (tid in s.writes && t.writes[tid] == s.writes[tid]) || t.writes[tid].copy == map[]
    ensures Eyes(t)
  {
    forall id | id in t.desk.requests ensures FourEyes(t.desk.requests[id]) || HalfGranted(t.writes, id) {
      if !FourEyes(t.desk.requests[id]) {
        assert HalfGranted(s.writes, id);
        var tid :| tid in s.writes && s.writes[tid].Deciding? && s.writes[tid].id == id && s.writes[tid].to == Approved;
        assert tid in t.writes && t.writes[tid] == s.writes[tid];
      }
    }
    forall tid | tid in t.writes && t.writes[tid].Saving? ensures AllFourEyes(t.writes[tid].copy) {
    }
  }

  /** What every step keeps, and exactly when it keeps the tables honest. */
  ghost predicate StepSees(s: Sys, e: Event, t: Sys) {
    Support(t) && (Eyes(t) <==> !Breaks(s, e))
  }

  lemma LoadSees(s: Sys)
    requires Support(s) && Eyes(s)
    ensures var t := s.(desk := EnsureLoaded(s.desk)); Support(t) && Eyes(t)
  {
    var t := s.(desk := EnsureLoaded(s.desk));
    if s.desk.requests != map[] {
      assert t.desk == s.desk;
    } else {
      assert forall tid :: tid in s.writes ==> !(s.writes[tid].Deciding? && s.writes[tid].to == Approved);
      if s.desk.file.Some? {
        assert AllFourEyes(t.desk.requests);
      }
    }
  }

  lemma BeginSees(s: Sys, tid: nat, id: string, kind: Kind, keyId: string, perKey: bool, verdict: Verdict)
    requires Support(s) && Eyes(s) && Idle(s, tid) && id in s.desk.requests
    requires kind == ToApprove && verdict == Proceed ==> keyId != "" && keyId != s.desk.requests[id].requesterKeyId
    ensures var t := DoBegin(s, tid, id, kind, keyId, perKey, verdict); Support(t) && Eyes(t)
  {
    FrameEyes(s, DoBegin(s, tid, id, kind, keyId, perKey, verdict));
    hide Eyes;
  }

  lemma DecideSees(s: Sys, tid: nat, w: Write, may: bool)
    requires Support(s) && Eyes(s) && Idle(s, tid) && !w.Deciding? && (w.Saving? ==> w.copy == map[])
    ensures var t := DoDecide(s, tid, w, may); Support(t) && Eyes(t)
  {
    FrameEyes(s, DoDecide(s, tid, w, may));
    hide Eyes;
  }

  lemma SweepSees(s: Sys, at: Instant)
    requires Support(s) && Eyes(s)
    ensures var t := s.(desk := s.desk.(requests := Swept(s.desk.requests, at))); Support(t) && Eyes(t)
  {
    var t := s.(desk := s.desk.(requests := Swept(s.desk.requests, at)));
    FrameEyes(s, t);
    hide Eyes;
    FrameSupport(s, t);
  }

  lemma RaiseSees(s: Sys, e: Event)
    requires Support(s) && Eyes(s) && e.Raise? && Idle(s, e.tid) && e.approvalId !in EnsureLoaded(s.desk).requests
    ensures Support(DoRaise(s, e)) && Eyes(DoRaise(s, e))
  {
    RequestTable(s.desk, e);
    LoadSees(s);
    var loaded, t := s.(desk := EnsureLoaded(s.desk)), DoRaise(s, e);
    hide Raised, EnsureLoaded;
    FrameEyes(loaded, t);
    hide Eyes;
    FrameSupport(loaded, t);
  }

  lemma BurnSees(s: Sys, tid: nat, io: N.Io)
    requires Support(s) && Eyes(s) && tid in s.flights
    ensures Support(DoBurn(s, tid, io)) && Eyes(DoBurn(s, tid, io))
  {
    hide N.Consume;
    var t := DoBurn(s, tid, io);
    FrameEyes(s, t);
    hide Eyes;
    FrameSupport(s, t);
  }

  lemma AbandonSees(s: Sys, tid: nat)
    requires Support(s) && Eyes(s) && (tid in s.writes ==> !s.writes[tid].Deciding?)
    ensures Support(DoAbandon(s, tid)) && Eyes(DoAbandon(s, tid))
  {
    FrameEyes(s, DoAbandon(s, tid));
    hide Eyes;
    FrameSupport(s, DoAbandon(s, tid));
  }

  lemma LateLoadSees(s: Sys, t: Table, whole: bool)
    requires Support(s) && Eyes(s) && (t == map[] || t in s.snapshots)
    ensures Support(DoLateLoad(s, t, whole)) && Eyes(DoLateLoad(s, t, whole))
  {
    var u := DoLateLoad(s, t, whole);
    assert AllFourEyes(t);
    forall id | id in u.desk.requests ensures FourEyes(u.desk.requests[id]) || HalfGranted(u.writes, id) {
      if !whole && id !in t && !FourEyes(u.desk.requests[id]) {
        var tid :| tid in s.writes && s.writes[tid].Deciding? && s.writes[tid].id == id && s.writes[tid].to == Approved;
        assert u.writes[tid] == s.writes[tid];
      }
    }
    forall tid | tid in u.writes && u.writes[tid].Saving? ensures AllFourEyes(u.writes[tid].copy) {
    }
  }

  lemma CrashSees(s: Sys, file: Option<Table>, readable: bool)
    requires Eyes(s) && Enabled(s, Crash(file, readable))
    ensures Support(Do(s, Crash(file, readable))) && Eyes(Do(s, Crash(file, readable)))
  {
  }

  /** The status of a grant: from here to its second assignment the entry may lie. */
  lemma CommitSees(s: Sys, tid: nat)
    requires Support(s) && Eyes(s) && tid in s.flights
    ensures Support(DoCommit(s, tid)) && Eyes(DoCommit(s, tid))
  {
    var f, t := s.flights[tid], DoCommit(s, tid);
    if f.kind == ToApprove && f.live {
      assert t.writes[tid] == Deciding(f.id, f.keyId, Approved);
      assert HalfGranted(t.writes, f.id);
      var fine := t.(desk := s.desk);
      FrameEyes(s, fine);
      assert forall id :: id in t.desk.requests && id != f.id ==> t.desk.requests[id] == s.desk.requests[id];
    } else {
      FrameEyes(s, t);
    }
    hide Eyes;
    FrameSupport(s, t);
  }

  /** The status of a rejection or an expiry. */
  lemma PutSees(s: Sys, tid: nat, id: string, status: Status, w: Write)
    requires Support(s) && Eyes(s) && tid in s.writes && !s.writes[tid].Deciding? && tid !in s.flights && status != Approved
    requires (w.Deciding? && w.to == Denied) || w == Saving(map[])
    ensures var t := s.(desk := s.desk.(requests := Put(s.desk.requests, id, status)), writes := s.writes[tid := w]);
      Support(t) && Eyes(t)
  {
    var t := s.(desk := s.desk.(requests := Put(s.desk.requests, id, status)), writes := s.writes[tid := w]);
    hide Eyes;
    PutFits(s, tid, id, status, w);
    hide Support;
    FrameEyes(s, t);
  }

  lemma PutFits(s: Sys, tid: nat, id: string, status: Status, w: Write)
    requires Support(s) && tid in s.writes && tid !in s.flights && (!w.Deciding? || w.to == Denied)
    ensures Support(s.(desk := s.desk.(requests := Put(s.desk.requests, id, status)), writes := s.writes[tid := w]))
  {
    FrameSupport(s, s.(desk := s.desk.(requests := Put(s.desk.requests, id, status)), writes := s.writes[tid := w]));
  }

  lemma StatusSees(s: Sys, tid: nat)
    requires Support(s) && Eyes(s) && Enabled(s, WriteStatus(tid))
    ensures Support(DoWriteStatus(s, tid)) && Eyes(DoWriteStatus(s, tid))
  {
    hide Eyes, Put;
    assert tid !in s.flights;
    hide Support;
    match s.writes[tid] {
      case Denying(id, keyId) => PutSees(s, tid, id, Denied, Deciding(id, keyId, Denied));
      case Lapsing(id) => PutSees(s, tid, id, Lapsed, Saving(map[]));
      case _ =>
    }
  }

  lemma SaveSees(s: Sys, tid: nat, t: Table, saved: bool)
    requires Support(s) && Eyes(s) && IsSaving(s, tid)
    ensures var u := DoSave(s, tid, t, saved); Support(u) && (Eyes(u) <==> !saved || AllFourEyes(t))
  {
    var u := DoSave(s, tid, t, saved);
    FrameEyes(s, u.(desk := s.desk));
    hide HalfGranted, FourEyes;
    FrameSupport(s, u);
  }

  lemma CopySees(s: Sys, tid: nat, id: string, e: Entry)
    requires Support(s) && Eyes(s) && IsSaving(s, tid)
    ensures var u := DoCopy(s, tid, id, e); Support(u) && (Eyes(u) <==> FourEyes(e))
  {
    var u := DoCopy(s, tid, id, e);
    var copy := s.writes[tid].copy;
    assert AllFourEyes(copy);
    AddedEyes(copy, id, e);
    assert u.writes[tid] == Saving(copy[id := e]);
    forall x | x in u.desk.requests ensures FourEyes(u.desk.requests[x]) || HalfGranted(u.writes, x) {
      SavingKeepsHalf(s.writes, tid, copy[id := e], x);
    }
    hide FourEyes, HalfGranted, AllFourEyes;
    assert CopiesEyes(u.writes) <==> AllFourEyes(copy[id := e]);
    FrameSupport(s, u);
  }

  lemma AddedEyes(t: Table, id: string, e: Entry)
    requires AllFourEyes(t)
    ensures AllFourEyes(t[id := e]) <==> FourEyes(e)
  {
    assert t[id := e][id] == e;
  }

  lemma SavingKeepsHalf(writes: map<nat, Write>, tid: nat, copy: Table, id: string)
    requires tid in writes && writes[tid].Saving?
    ensures HalfGranted(writes, id) ==> HalfGranted(writes[tid := Saving(copy)], id)
  {
    if v :| v in writes && writes[v].Deciding? && writes[v].id == id && writes[v].to == Approved {
      assert v in writes[tid := Saving(copy)] && writes[tid := Saving(copy)][v] == writes[v];
    }
  }

  ghost predicate Grants(w: Write, id: string) {
    w.Deciding? && w.id == id && w.to == Approved
  }

  /** A handler that is at no half grant of this request before or after its step. */
  lemma OtherKeepsHalf(writes: map<nat, Write>, tid: nat, w: Write, id: string)
    requires tid in writes && !Grants(writes[tid], id) && !Grants(w, id)
    ensures HalfGranted(writes[tid := w], id) <==> HalfGranted(writes, id)
  {
    if v :| v in writes && writes[v].Deciding? && writes[v].id == id && writes[v].to == Approved {
      assert v in writes[tid := w] && writes[tid := w][v] == writes[v];
    }
  }

  lemma DeciderSees(s: Sys, tid: nat)
    requires Support(s) && Eyes(s) && Enabled(s, WriteDecider(tid))
    ensures Support(DoWriteDecider(s, tid)) && (Eyes(DoWriteDecider(s, tid)) <==> !Breaks(s, WriteDecider(tid)))
  {
    var w, t := s.writes[tid], DoWriteDecider(s, tid);
    if w.to == Approved {
      assert KeyFits(s.desk.requests, w.id, w.keyId);
    }
    forall x | x != w.id || w.to != Approved ensures HalfGranted(t.writes, x) <==> HalfGranted(s.writes, x) {
      OtherKeepsHalf(s.writes, tid, Saving(map[]), x);
    }
    DeciderFits(s, tid);
    hide HalfGranted;
    assert CopiesEyes(t.writes);
    if w.id in s.desk.requests {
      OneEyes(s.desk.requests, s.writes, t.desk.requests, t.writes, w.id);
    }
  }

  lemma DeciderFits(s: Sys, tid: nat)
    requires Support(s) && Enabled(s, WriteDecider(tid))
    ensures Support(DoWriteDecider(s, tid))
  {
    FrameSupport(s, DoWriteDecider(s, tid));
  }

  /** Only one entry changed, and no other request gained or lost a half grant. */
  lemma OneEyes(t: Table, writes: map<nat, Write>, u: Table, after: map<nat, Write>, id: string)
    requires MemoryEyes(t, writes) && id in t && u.Keys == t.Keys
    requires forall x :: x in t && x != id ==> u[x] == t[x] && (HalfGranted(writes, x) ==> HalfGranted(after, x))
    ensures MemoryEyes(u, after) <==> FourEyes(u[id]) || HalfGranted(after, id)
  {
  }

  // ------------------------------------------------ whole runs

  ghost predicate Begins(e: Event) {
    e.Raise? || e.BeginApprove? || e.BeginMint? || e.BeginDecline? || e.BeginLapse? || e.SweepAll?
  }

  lemma BeginEventSees(s: Sys, e: Event)
    requires Support(s) && Eyes(s) && Enabled(s, e) && PerKeyOnly(s, e) && Begins(e)
    ensures Support(Do(s, e)) && Eyes(Do(s, e))
  {
    LoadSees(s);
    var loaded := s.(desk := EnsureLoaded(s.desk));
    hide Support, Eyes, DoRaise, DoBegin, DoBurn, DoCommit, DoAbandon, DoLateLoad, DoDecide, DoWriteStatus, DoWriteDecider,
      DoSave, DoCopy, EnsureLoaded, ApproveGate, MintGate, MayReject;
    match e {
      case Raise(_, _, _, _, _, _, _, _, _, _) => RaiseSees(s, e);
      case BeginApprove(tid, id, x, env) =>
        if id in loaded.desk.requests {
          if ApproveGate(loaded.desk.requests[id], x, env) == Proceed {
            GateByAnother(loaded.desk.requests[id], x, env);
          }
          BeginSees(loaded, tid, id, ToApprove, x.approverKeyId, x.identityMode == PER_KEY,
                    ApproveGate(loaded.desk.requests[id], x, env));
        }
      case BeginMint(tid, id, claim, env) =>
        if id in loaded.desk.requests {
          BeginSees(loaded, tid, id, ToMint, "", false, MintGate(loaded.desk.requests[id], claim, env));
        }
      case BeginDecline(tid, id, x) =>
        DecideSees(loaded, tid, Denying(id, x.approverKeyId),
                   id in loaded.desk.requests && MayReject(loaded.desk.requests[id], x));
      case BeginLapse(tid, id, at) =>
        DecideSees(loaded, tid, Lapsing(id), id in loaded.desk.requests && Overdue(loaded.desk.requests[id], at));
      case SweepAll(tid, at) =>
        SweepSees(loaded, at);
        DecideSees(loaded.(desk := loaded.desk.(requests := Swept(loaded.desk.requests, at))), tid, Saving(map[]), true);
      case _ =>
    }
  }

  lemma EventSees(s: Sys, e: Event)
    requires Support(s) && Eyes(s) && Enabled(s, e) && PerKeyOnly(s, e)
    ensures StepSees(s, e, Do(s, e))
  {
    if Begins(e) {
      BeginEventSees(s, e);
      hide Do, Eyes, Support;
    } else {
      OtherEventSees(s, e);
    }
  }

  lemma OtherEventSees(s: Sys, e: Event)
    requires Support(s) && Eyes(s) && Enabled(s, e) && !Begins(e)
    ensures StepSees(s, e, Do(s, e))
  {
    UnsignedExactly(s);
    hide Unsigned, AllFourEyes, Support, Eyes, DoRaise, DoBegin, DoBurn, DoCommit, DoAbandon, DoLateLoad, DoDecide,
      DoWriteStatus, DoWriteDecider, DoSave, DoCopy, EnsureLoaded, ApproveGate, MintGate, MayReject, FourEyes, HalfGranted;
    match e {
      case Tick(now) => TickSees(s, now);
      case BurnKey(tid, io) => BurnSees(s, tid, io);
      case Commit(tid) => CommitSees(s, tid);
      case WriteStatus(tid) => StatusSees(s, tid);
      case WriteDecider(tid) => DeciderSees(s, tid);
      case SaveTable(tid, saved) => SaveSees(s, tid, s.desk.requests, saved);
      case CopyEntry(tid, id) => CopySees(s, tid, id, s.desk.requests[id]);
      case CopyDecider(tid, id) => TornSees(s, tid, id);
      case EndSave(tid) => EndSees(s, tid);
      case Abandon(tid) => AbandonSees(s, tid);
      case LateLoad(table, whole) => LateLoadSees(s, table, whole);
      case Crash(file, readable) => CrashSees(s, file, readable);
      case _ =>
    }
  }

  lemma TickSees(s: Sys, now: Instant)
    requires Support(s) && Eyes(s)
    ensures Support(s.(now := now)) && Eyes(s.(now := now))
  {
  }

  lemma TornSees(s: Sys, tid: nat, id: string)
    requires Support(s) && Eyes(s) && Enabled(s, CopyDecider(tid, id))
    ensures StepSees(s, CopyDecider(tid, id), Do(s, CopyDecider(tid, id)))
  {
    hide Support, Eyes, DoCopy;
    CopySees(s, tid, id, s.writes[tid].copy[id].(decidedBy := s.desk.requests[id].decidedBy));
  }

  lemma EndSees(s: Sys, tid: nat)
    requires Support(s) && Eyes(s) && IsSaving(s, tid)
    ensures var t := DoSave(s, tid, s.writes[tid].copy, true); Support(t) && Eyes(t)
  {
    assert AllFourEyes(s.writes[tid].copy);
    hide Support, Eyes;
    SaveSees(s, tid, s.writes[tid].copy, true);
  }

  lemma ArchiveSees(s: Sys)
    requires Support(s)
    ensures Support(Archive(s)) && (Eyes(Archive(s)) <==> Eyes(s))
  {
  }

  ghost predicate AllPerKey(s: Sys, events: seq<Event>)
    requires Legal(s, events)
    decreases |events|
  {
    events != [] ==> PerKeyOnly(s, events[0]) && AllPerKey(Next(s, events[0]), events[1..])
  }

  ghost predicate EyesThroughout(s: Sys, events: seq<Event>)
    requires Legal(s, events)
    decreases |events|
  {
    Eyes(s) && (events != [] ==> EyesThroughout(Next(s, events[0]), events[1..]))
  }

  ghost predicate NeverBreaks(s: Sys, events: seq<Event>)
    requires Legal(s, events)
    decreases |events|
  {
    events != [] ==> !Breaks(s, events[0]) && NeverBreaks(Next(s, events[0]), events[1..])
  }

  lemma {:induction false} RunEyes(s: Sys, events: seq<Event>)
    requires Legal(s, events) && AllPerKey(s, events) && Support(s) && Eyes(s)
    ensures EyesThroughout(s, events) <==> NeverBreaks(s, events)
    decreases |events|
  {
    if events != [] {
      var t := Do(s, events[0]);
      EventSees(s, events[0]);
      ArchiveSees(t);
      hide Support, Breaks, Do, Enabled, PerKeyOnly;
      if Eyes(t) {
        hide Eyes;
        RunEyes(Next(s, events[0]), events[1..]);
      }
    }
  }

  lemma StartSees(now: Instant)
    ensures Support(Start(now)) && Eyes(Start(now))
  {
    hide N.Reopen;
  }

  /** Over every run whose approvals are per-key, the tables in memory, in the making and on disk
      all along show each approved request decided by another key than the raising one, if and
      only if no step breaks it. */
  lemma RunEyesExactly(now: Instant, events: seq<Event>)
    requires Legal(Start(now), events) && AllPerKey(Start(now), events)
    ensures EyesThroughout(Start(now), events) <==> NeverBreaks(Start(now), events)
  {
    StartSees(now);
    hide Support, Eyes, Legal, AllPerKey, EyesThroughout, NeverBreaks, Start;
    RunEyes(Start(now), events);
  }
}
