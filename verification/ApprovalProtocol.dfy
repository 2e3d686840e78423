/** At most one grant and one permit per approval nonce, over every interleaving of concurrent
    handlers and every crash. A handler decides, burns if it grants or mints, and then assigns
    status and decider of the entry and saves the table, each in a step of its own: only the
    burn is under a lock, and a save copies the table while others change it. A crash drops
    memory, reads the nonce log again and finds any table that ever reached the disk, because
    the table is saved on a best-effort basis. A loader that found the table empty may even
    put such a table in place of it later on. */
module ApprovalProtocol {
  import opened Wrappers
  import opened Seqs
  import opened Text
  import opened NonceStores
  import opened Approval
  import opened Approvals

  datatype Kind = ToApprove | ToMint

  /** One use of an approval: granting it, or minting its permit. */
  type Use = (Kind, string)

  /** A handler between its decision and its effect. `perKey`: it acts for a per-key identity.
      `live`: the entry it holds is the one in the table. */
  datatype Flight = Flight(kind: Kind, id: string, request: ApprovalRequest, keyId: string, perKey: bool, live: bool,
                           burned: bool)

  /** A handler that has still to assign a status, to assign the decider after the status `to`,
      or to save, with the part of the table it has copied so far. */
  datatype Write =
    | Denying(id: string, keyId: string)
    | Lapsing(id: string)
    | Deciding(id: string, keyId: string, to: Status)
    | Saving(copy: Table)

  datatype Issued = Issued(request: ApprovalRequest, raisedBy: string, at: nat)

  datatype Granted = Granted(nonce: string, keyId: string, perKey: bool)

  /** The system, with the history the theorem speaks of: `issued` maps each nonce to its
      request, the key that raised it and the number of burns before it, `history` lists the
      accepted burns, `done` the completed uses, `grants` who granted what, `snapshots` every
      table that ever reached the disk, and `lost` records that a burn or the log itself failed
      to be durable. */
  datatype Sys = Sys(desk: Desk, now: Instant, flights: map<nat, Flight>, writes: map<nat, Write>,
                     snapshots: set<Table>, issued: map<string, Issued>, history: seq<Use>, done: multiset<Use>,
                     grants: seq<Granted>, lost: bool)

  datatype Event =
    | Tick(now: Instant)
    | Raise(tid: nat, a: Action, accepted: bool, actor: string, ttl: real, requesterKeyId: string,
            identityMode: string, approvalId: string, nonce: string, env: Env)
    | BeginApprove(tid: nat, id: string, x: Decision, env: Env)
    | BeginMint(tid: nat, id: string, claim: Claim, env: Env)
    | BeginDecline(tid: nat, id: string, x: Decision)
    | BeginLapse(tid: nat, id: string, at: Instant)
    | BurnKey(tid: nat, io: Io)
    | Commit(tid: nat)
    | WriteStatus(tid: nat)
    | WriteDecider(tid: nat)
    | SaveTable(tid: nat, saved: bool)
    | CopyEntry(tid: nat, id: string)
    | CopyDecider(tid: nat, id: string)
    | EndSave(tid: nat)
    | Abandon(tid: nat)
    | SweepAll(tid: nat, at: Instant)
    | LateLoad(table: Table, whole: bool)
    | Crash(file: Option<Table>, readable: bool)

  predicate HexDigits(s: string) {
    s == "" || (('0' <= s[0] <= '9' || 'a' <= s[0] <= 'f') && HexDigits(s[1..]))
  }

  /** What secrets.token_hex(16) draws. */
  predicate IsHexNonce(n: string) {
    |n| == 32 && HexDigits(n)
  }

  lemma {:induction false} HexDigitAt(s: string, i: nat)
    requires HexDigits(s) && i < |s|
    ensures '0' <= s[i] <= '9' || 'a' <= s[i] <= 'f'
  {
    if i > 0 {
      HexDigitAt(s[1..], i - 1);
    }
  }

  function Key(u: Use): string {
    if u.0 == ToApprove then u.1 else PermitKey(u.1)
  }

  function Keys(h: seq<Use>): (k: seq<string>)
    ensures |k| == |h|
    ensures forall i :: 0 <= i < |h| ==> k[i] == Key(h[i])
  {
    seq(|h|, i requires 0 <= i < |h| => Key(h[i]))
  }

  function UseOf(f: Flight): Use {
    (f.kind, f.request.nonce)
  }

  predicate Idle(s: Sys, tid: nat) {
    tid !in s.flights && tid !in s.writes
  }

  predicate IsSaving(s: Sys, tid: nat) {
    tid in s.writes && s.writes[tid].Saving?
  }

  ghost predicate Enabled(s: Sys, e: Event) {
    match e
    case Tick(now) => s.now <= now
    case Raise(tid, _, _, _, _, _, _, _, nonce, env) =>
      Idle(s, tid) && env.now == s.now && nonce !in s.issued && IsHexNonce(nonce)
    case BeginApprove(tid, _, _, env) => Idle(s, tid) && env.now == s.now
    case BeginMint(tid, _, _, env) => Idle(s, tid) && env.now == s.now
    case BeginDecline(tid, _, _) => Idle(s, tid)
    case BeginLapse(tid, _, _) => Idle(s, tid)
    case BurnKey(tid, _) => tid in s.flights && !s.flights[tid].burned
    case Commit(tid) => tid in s.flights && s.flights[tid].burned
    case WriteStatus(tid) => tid in s.writes && (s.writes[tid].Denying? || s.writes[tid].Lapsing?)
    case WriteDecider(tid) => tid in s.writes && s.writes[tid].Deciding?
    case SaveTable(tid, _) => IsSaving(s, tid)
    case CopyEntry(tid, id) => IsSaving(s, tid) && id in s.desk.requests
    case CopyDecider(tid, id) => IsSaving(s, tid) && id in s.desk.requests && id in s.writes[tid].copy
    case EndSave(tid) => IsSaving(s, tid)
    case Abandon(tid) => !Idle(s, tid) && (tid in s.writes ==> !s.writes[tid].Deciding?)
    case SweepAll(tid, _) => Idle(s, tid)
    case LateLoad(table, _) => table == map[] || table in s.snapshots
    case Crash(file, _) => file.Some? ==> file.value in s.snapshots
  }

  function Raised(d: Desk, e: Event): (Result<(string, string), Failure>, Desk)
    requires e.Raise?
  {
    RequestApproval(d, e.a, e.accepted, e.actor, e.ttl, e.requesterKeyId, e.identityMode, e.approvalId, e.nonce,
                    e.env.(saved := false))
  }

  function DoRaise(s: Sys, e: Event): Sys
    requires e.Raise?
  {
    var (r, d) := Raised(s.desk, e);
    if r.Ok? && e.approvalId in d.requests then
      s.(desk := d, writes := s.writes[e.tid := Saving(map[])],
         issued := s.issued[e.nonce := Issued(d.requests[e.approvalId].request, e.requesterKeyId, |s.history|)])
    else s.(desk := d)
  }

  function DoBegin(s: Sys, tid: nat, id: string, kind: Kind, keyId: string, perKey: bool, verdict: Verdict): Sys
    requires id in s.desk.requests
  {
    match verdict
    case Refuse(_) => s
    case Expire => s.(writes := s.writes[tid := Lapsing(id)])
    case Proceed =>
      s.(flights := s.flights[tid := Flight(kind, id, s.desk.requests[id].request, keyId, perKey, true, false)])
  }

  function DoBurn(s: Sys, tid: nat, io: Io): Sys
    requires tid in s.flights
  {
    var f := s.flights[tid];
    var (ok, nonces) := Consume(s.desk.nonces, Key(UseOf(f)), io);
    if ok then
      s.(desk := s.desk.(nonces := nonces), flights := s.flights[tid := f.(burned := true)],
         history := s.history + [UseOf(f)], lost := s.lost || io.AppendFails?)
    else s.(flights := s.flights - {tid})
  }

  /** The table with the entry changed, if it is there. */
  function Put(t: Table, id: string, status: Status): Table {
    if id in t then t[id := t[id].(status := status)] else t
  }

  /** A rejection without a key leaves the decider alone. */
  function PutDecider(t: Table, w: Write): Table
    requires w.Deciding?
  {
    if w.id in t && (w.to == Approved || w.keyId != "") then t[w.id := t[w.id].(decidedBy := w.keyId)] else t
  }

  /** After its burn a mint is done, and a grant assigns the status. */
  function DoCommit(s: Sys, tid: nat): Sys
    requires tid in s.flights
  {
    var f := s.flights[tid];
    var t := s.(flights := s.flights - {tid}, done := s.done + multiset{UseOf(f)});
    if f.kind == ToMint then t
    else
      t.(desk := if f.live then s.desk.(requests := Put(s.desk.requests, f.id, Approved)) else s.desk,
         writes := s.writes[tid := if f.live then Deciding(f.id, f.keyId, Approved) else Saving(map[])],
         grants := s.grants + [Granted(f.request.nonce, f.keyId, f.perKey)])
  }

  function DoDecide(s: Sys, tid: nat, w: Write, may: bool): Sys {
    if may then s.(writes := s.writes[tid := w]) else s
  }

  function DoAbandon(s: Sys, tid: nat): Sys {
    s.(flights := s.flights - {tid}, writes := s.writes - {tid})
  }

  function DoWriteStatus(s: Sys, tid: nat): Sys
    requires tid in s.writes && (s.writes[tid].Denying? || s.writes[tid].Lapsing?)
  {
    match s.writes[tid]
    case Denying(id, keyId) =>
      s.(desk := s.desk.(requests := Put(s.desk.requests, id, Denied)), writes := s.writes[tid := Deciding(id, keyId, Denied)])
    case Lapsing(id) =>
      s.(desk := s.desk.(requests := Put(s.desk.requests, id, Lapsed)), writes := s.writes[tid := Saving(map[])])
  }

  function DoWriteDecider(s: Sys, tid: nat): Sys
    requires tid in s.writes && s.writes[tid].Deciding?
  {
    s.(desk := s.desk.(requests := PutDecider(s.desk.requests, s.writes[tid])), writes := s.writes[tid := Saving(map[])])
  }

  function DoSave(s: Sys, tid: nat, t: Table, saved: bool): Sys {
    s.(desk := if saved then s.desk.(file := Some(t)) else s.desk, writes := s.writes - {tid})
  }

  function DoCopy(s: Sys, tid: nat, id: string, e: Entry): Sys
    requires IsSaving(s, tid)
  {
    s.(writes := s.writes[tid := Saving(s.writes[tid].copy[id := e])])
  }

  /** A loader that found the table empty puts a table of the disk in place of what is there by
      then. Its clearing and its update are two steps: the whole table goes, or the entries that
      the update brings. Handlers keep hold of entries that are no longer in the table: what
      they assign is lost. */
  function DoLateLoad(s: Sys, t: Table, whole: bool): Sys {
    s.(desk := s.desk.(requests := if whole then t else s.desk.requests + t),
       flights := map tid | tid in s.flights ::
         var f := s.flights[tid]; f.(live := f.live && !whole && f.id !in t),
       writes := map tid | tid in s.writes ::
         if s.writes[tid].Saving? || (!whole && s.writes[tid].id !in t) then s.writes[tid] else Saving(map[]))
  }

  function Do(s: Sys, e: Event): Sys
    requires Enabled(s, e)
  {
    var loaded := s.(desk := EnsureLoaded(s.desk));
    match e
    case Tick(now) => s.(now := now)
    case Raise(_, _, _, _, _, _, _, _, _, _) => DoRaise(s, e)
    case BeginApprove(tid, id, x, env) =>
      if id !in loaded.desk.requests then loaded
      else DoBegin(loaded, tid, id, ToApprove, x.approverKeyId, x.identityMode == PER_KEY,
                   ApproveGate(loaded.desk.requests[id], x, env))
    case BeginMint(tid, id, claim, env) =>
      if id !in loaded.desk.requests then loaded
      else DoBegin(loaded, tid, id, ToMint, "", false, MintGate(loaded.desk.requests[id], claim, env))
    case BeginDecline(tid, id, x) =>
      DoDecide(loaded, tid, Denying(id, x.approverKeyId),
               id in loaded.desk.requests && MayReject(loaded.desk.requests[id], x))
    case BeginLapse(tid, id, at) =>
      DoDecide(loaded, tid, Lapsing(id), id in loaded.desk.requests && Overdue(loaded.desk.requests[id], at))
    case BurnKey(tid, io) => DoBurn(s, tid, io)
    case Commit(tid) => DoCommit(s, tid)
    case WriteStatus(tid) => DoWriteStatus(s, tid)
    case WriteDecider(tid) => DoWriteDecider(s, tid)
    case SaveTable(tid, saved) => DoSave(s, tid, s.desk.requests, saved)
    case CopyEntry(tid, id) => DoCopy(s, tid, id, s.desk.requests[id])
    case CopyDecider(tid, id) =>
      DoCopy(s, tid, id, s.writes[tid].copy[id].(decidedBy := s.desk.requests[id].decidedBy))
    case EndSave(tid) => DoSave(s, tid, s.writes[tid].copy, true)
    case Abandon(tid) => DoAbandon(s, tid)
    case SweepAll(tid, at) =>
      DoDecide(loaded.(desk := loaded.desk.(requests := Swept(loaded.desk.requests, at))), tid, Saving(map[]), true)
    case LateLoad(table, whole) => DoLateLoad(s, table, whole)
    case Crash(file, readable) =>
      s.(desk := Desk(map[], map[], Reopen(s.desk.nonces.log, readable), file), flights := map[], writes := map[],
         lost := s.lost || !readable)
  }

  /** What is on the disk now can be found after any later crash. */
  function Archive(s: Sys): Sys {
    if s.desk.file.Some? then s.(snapshots := s.snapshots + {s.desk.file.value}) else s
  }

  function Next(s: Sys, e: Event): Sys
    requires Enabled(s, e)
  {
    Archive(Do(s, e))
  }

  function Start(now: Instant): Sys {
    Sys(Desk(map[], map[], Reopen([], true), None), now, map[], map[], {}, map[], [], multiset{}, [], false)
  }

  ghost predicate Legal(s: Sys, events: seq<Event>)
    decreases |events|
  {
    events != [] ==> Enabled(s, events[0]) && Legal(Next(s, events[0]), events[1..])
  }

  function Run(s: Sys, events: seq<Event>): Sys
    requires Legal(s, events)
    decreases |events|
  {
    if events == [] then s else Run(Next(s, events[0]), events[1..])
  }

  /** At most MAX_NONCES burns lie between the issue of a nonce and any attempt to burn it. */
  ghost predicate BurnInTime(s: Sys, e: Event) {
    e.BurnKey? && e.tid in s.flights && s.flights[e.tid].request.nonce in s.issued ==>
      |s.history| - s.issued[s.flights[e.tid].request.nonce].at <= MAX_NONCES
  }

  ghost predicate WithinCapacity(s: Sys, events: seq<Event>)
    requires Legal(s, events)
    decreases |events|
  {
    events != [] ==> BurnInTime(s, events[0]) && WithinCapacity(Next(s, events[0]), events[1..])
  }

  // ------------------------------------------------ the invariant

  ghost predicate KnownRequest(r: ApprovalRequest, issued: map<string, Issued>) {
    r.nonce in issued && issued[r.nonce].request == r
  }

  ghost predicate KnownEntry(e: Entry, issued: map<string, Issued>) {
    KnownRequest(e.request, issued) && e.requesterKeyId == issued[e.request.nonce].raisedBy
  }

  ghost predicate KnownTable(t: Table, issued: map<string, Issued>) {
    forall id :: id in t ==> KnownEntry(t[id], issued)
  }

  /** Every request anywhere in the system was issued under its own nonce. */
  ghost predicate KnownDesk(requests: Table, file: Option<Table>, issued: map<string, Issued>) {
    KnownTable(requests, issued) && (file.Some? ==> KnownTable(file.value, issued))
  }

  ghost predicate KnownTables(snapshots: set<Table>, issued: map<string, Issued>) {
    forall t :: t in snapshots ==> KnownTable(t, issued)
  }

  ghost predicate KnownFlights(flights: map<nat, Flight>, issued: map<string, Issued>) {
    forall tid :: tid in flights ==> KnownRequest(flights[tid].request, issued)
  }

  ghost predicate KnownCopies(writes: map<nat, Write>, issued: map<string, Issued>) {
    forall tid :: tid in writes && writes[tid].Saving? ==> KnownTable(writes[tid].copy, issued)
  }

  ghost predicate HexNonces(issued: map<string, Issued>) {
    forall n :: n in issued ==> IsHexNonce(n)
  }

  ghost predicate HexHistory(h: seq<Use>) {
    forall i :: 0 <= i < |h| ==> IsHexNonce(h[i].1)
  }

  /** No nonce was burned before it was issued. */
  ghost predicate Causal(h: seq<Use>, issued: map<string, Issued>) {
    forall i :: 0 <= i < |h| ==> h[i].1 in issued && issued[h[i].1].at <= i
  }

  /** Memory and file both hold at least the last MAX_NONCES burns, in order, without repeats. */
  ghost predicate Durable(n: Store, h: seq<Use>) {
    var recent := if |h| < MAX_NONCES then |h| else MAX_NONCES;
    && n.persistent && Distinct(h)
    && IsSuffix(n.order, Keys(h)) && |n.order| >= recent && n.used == Elements(n.order)
    && IsSuffix(n.log, Keys(h)) && |n.log| >= recent
  }

  /** A burn is spent by at most one commit. */
  ghost predicate Spent(flights: map<nat, Flight>, h: seq<Use>, done: multiset<Use>) {
    && (forall u :: done[u] <= 1)
    && (forall u :: u in done ==> u in h)
    && (forall t :: t in flights && flights[t].burned ==> UseOf(flights[t]) in h && UseOf(flights[t]) !in done)
    && (forall t, v :: t in flights && v in flights && t != v && flights[t].burned && flights[v].burned ==>
          UseOf(flights[t]) != UseOf(flights[v]))
  }

  ghost predicate Tables(s: Sys) {
    && KnownDesk(s.desk.requests, s.desk.file, s.issued) && KnownTables(s.snapshots, s.issued)
    && KnownFlights(s.flights, s.issued) && KnownCopies(s.writes, s.issued) && HexNonces(s.issued)
  }

  ghost predicate Burns(s: Sys) {
    && HexHistory(s.history) && Causal(s.history, s.issued)
    && (forall n :: n in s.issued ==> s.issued[n].at <= |s.history|)
    && (!s.lost ==> Durable(s.desk.nonces, s.history) && Spent(s.flights, s.history, s.done))
  }

  // ------------------------------------------------ the nonce store keeps its part

  lemma KeyInjective(u: Use, v: Use)
    requires IsHexNonce(u.1) && IsHexNonce(v.1) && Key(u) == Key(v)
    ensures u == v
  {
    assert |Key(u)| == if u.0 == ToApprove then 32 else 39;
    assert |Key(v)| == if v.0 == ToApprove then 32 else 39;
    assert u.1 == Key(u)[..32] && v.1 == Key(v)[..32];
  }

  lemma KeyUnpadded(u: Use)
    requires IsHexNonce(u.1)
    ensures IsUnpadded(Key(u))
  {
    var k := Key(u);
    HexDigitAt(u.1, 0);
    HexDigitAt(u.1, 31);
    assert k[0] == u.1[0];
    assert u.0 == ToMint ==> k[|k| - 1] == 't';
  }

  lemma KeysDistinct(h: seq<Use>)
    requires Distinct(h) && HexHistory(h)
    ensures Distinct(Keys(h))
  {
    forall i, j | 0 <= i < j < |h| ensures Keys(h)[i] != Keys(h)[j] {
      if Keys(h)[i] == Keys(h)[j] {
        KeyInjective(h[i], h[j]);
      }
    }
  }

  lemma NewKey(n: Store, h: seq<Use>, u: Use)
    requires IsSuffix(n.order, Keys(h)) && HexHistory(h) && IsHexNonce(u.1) && u !in h
    ensures Key(u) !in n.order
  {
    hide HexDigits;
    if Key(u) in n.order {
      var i :| 0 <= i < |n.order| && n.order[i] == Key(u);
      var j := |h| - |n.order| + i;
      assert n.order[i] == Keys(h)[j];
      KeyInjective(h[j], u);
    }
  }

  lemma KeysGrow(h: seq<Use>, u: Use)
    ensures Keys(h + [u]) == Keys(h) + [Key(u)]
  {
  }

  /** A first burn is accepted, and the store remembers it whatever compaction does. */
  lemma FirstBurn(n: Store, h: seq<Use>, u: Use, io: Io)
    requires Durable(n, h) && HexHistory(h) && IsHexNonce(u.1) && u !in h && !io.AppendFails?
    ensures Consume(n, Key(u), io).0 && Durable(Consume(n, Key(u), io).1, h + [u])
  {
    hide Consume, Key, HexDigits, HexHistory, Distinct, Elements, IsSuffix, KeepLast;
    NewKey(n, h, u);
    KeysGrow(h, u);
    KeysDistinct(h);
    DistinctAppend(h, u);
    SuffixDistinct(n.order, Keys(h));
    BurnGrows(n, Keys(h), Key(u), io);
    ConsumeKeepsValid(n, Key(u), io);
    MemberOfElements(n.order, Key(u));
  }

  lemma MemberOfElements<T>(s: seq<T>, x: T)
    ensures x in Elements(s) <==> x in s
  {
  }

  /** The same on key sequences: both copies stay suffixes of the growing key history. */
  lemma BurnGrows(n: Store, ks: seq<string>, k: string, io: Io)
    requires n.persistent && !io.AppendFails? && k !in n.order && Valid(n)
    requires IsSuffix(n.order, ks) && IsSuffix(n.log, ks)
    ensures var m := Consume(n, k, io).1;
      && m.persistent && m.used == Elements(m.order)
      && IsSuffix(m.order, ks + [k]) && IsSuffix(m.log, ks + [k])
      && (|m.order| == |n.order| + 1 || |m.order| == MAX_NONCES)
      && (|m.log| == |n.log| + 1 || |m.log| == |m.order|)
  {
    hide Consume, Distinct;
    ConsumeShape(n, k, io);
    SuffixAppend(n.order, ks, k);
    SuffixAppend(n.log, ks, k);
    SuffixOfSuffix(KeepLast(n.order + [k]), n.order + [k], ks + [k]);
  }

  /** A burn repeated within MAX_NONCES burns is refused. */
  lemma SecondBurnRefused(n: Store, h: seq<Use>, u: Use, i: nat, io: Io)
    requires Durable(n, h) && i < |h| && h[i] == u && |h| - i <= MAX_NONCES
    ensures Consume(n, Key(u), io) == (false, n)
  {
    assert Keys(h)[i] == n.order[i - (|h| - |n.order|)];
  }

  lemma ReopenDurable(n: Store, h: seq<Use>)
    requires Durable(n, h) && HexHistory(h)
    ensures Durable(Reopen(n.log, true), h)
  {
    hide Distinct, IsUnpadded, Reading, Elements, HexHistory, Key;
    KeysDistinct(h);
    SuffixDistinct(n.log, Keys(h));
    SuffixUnpadded(n.log, h);
    ReadingExact(n.log);
  }

  lemma SuffixUnpadded(lines: seq<string>, h: seq<Use>)
    requires IsSuffix(lines, Keys(h)) && HexHistory(h)
    ensures forall k :: k in lines ==> IsUnpadded(k)
  {
    hide IsUnpadded, Key;
    forall k | k in lines ensures IsUnpadded(k) {
      var i :| 0 <= i < |lines| && lines[i] == k;
      KeyUnpadded(h[|h| - |lines| + i]);
    }
  }

  // ------------------------------------------------ every event keeps the tables known

  lemma GrownTable(t: Table, issued: map<string, Issued>, nonce: string, i: Issued)
    requires KnownTable(t, issued) && nonce !in issued
    ensures KnownTable(t, issued[nonce := i])
  {
  }

  lemma IssueTables(s: Sys, nonce: string, i: Issued)
    requires Tables(s) && nonce !in s.issued && IsHexNonce(nonce)
    ensures Tables(s.(issued := s.issued[nonce := i]))
  {
    var more := s.issued[nonce := i];
    GrownTable(s.desk.requests, s.issued, nonce, i);
    if s.desk.file.Some? {
      GrownTable(s.desk.file.value, s.issued, nonce, i);
    }
    forall t | t in s.snapshots ensures KnownTable(t, more) {
      GrownTable(t, s.issued, nonce, i);
    }
    forall tid | tid in s.writes && s.writes[tid].Saving? ensures KnownTable(s.writes[tid].copy, more) {
      GrownTable(s.writes[tid].copy, s.issued, nonce, i);
    }
  }

  /** A step that only rewrites the table and perhaps saves it. */
  lemma DeskTables(s: Sys, d: Desk)
    requires Tables(s) && KnownTable(d.requests, s.issued)
    requires d.file == s.desk.file || d.file == Some(d.requests)
    ensures Tables(s.(desk := d))
  {
  }

  lemma LoadTables(s: Sys)
    requires Tables(s)
    ensures KnownTable(EnsureLoaded(s.desk).requests, s.issued) && Tables(s.(desk := EnsureLoaded(s.desk)))
  {
  }

  /** A raised request enters the loaded table under its own nonce, or nothing happens to it. */
  lemma RequestTable(d: Desk, e: Event)
    requires e.Raise?
    ensures var d1 := EnsureLoaded(d);
      var (r, d2) := Raised(d, e);
      && (r.Err? ==> d2 == d1)
      && (r.Ok? ==>
            && e.approvalId in d2.requests && d2.requests[e.approvalId].status == Pending
            && d2.requests[e.approvalId].request.nonce == e.nonce
            && d2.requests[e.approvalId].requesterKeyId == e.requesterKeyId
            && d2 == d1.(requests := d1.requests[e.approvalId := d2.requests[e.approvalId]]))
  {
    hide Mac, ScopeOf, IsBlank;
  }

  lemma RaiseTables(s: Sys, e: Event)
    requires Tables(s) && e.Raise? && e.nonce !in s.issued && IsHexNonce(e.nonce)
    ensures Tables(DoRaise(s, e))
  {
    RequestTable(s.desk, e);
    hide HexDigits, Raised;
    var t := DoRaise(s, e);
    if t.issued != s.issued {
      IssueTables(s, e.nonce, t.issued[e.nonce]);
      LoadTables(s.(issued := t.issued));
      DeskTables(s.(issued := t.issued), t.desk);
      CopyTables(s.(issued := t.issued, desk := t.desk), e.tid, map[]);
    } else {
      LoadTables(s);
      DeskTables(s, t.desk);
    }
  }

  lemma CopyTables(s: Sys, tid: nat, copy: Table)
    requires Tables(s) && KnownTable(copy, s.issued)
    ensures Tables(s.(writes := s.writes[tid := Saving(copy)]))
  {
  }

  /** A write that is no save says nothing about tables. */
  lemma PendingTables(s: Sys, tid: nat, w: Write)
    requires Tables(s) && !w.Saving?
    ensures Tables(s.(writes := s.writes[tid := w]))
  {
  }

  lemma BeginTables(s: Sys, tid: nat, id: string, kind: Kind, keyId: string, perKey: bool, verdict: Verdict)
    requires Tables(s) && id in s.desk.requests
    ensures Tables(DoBegin(s, tid, id, kind, keyId, perKey, verdict))
  {
  }

  lemma PutKnown(t: Table, id: string, status: Status, issued: map<string, Issued>)
    requires KnownTable(t, issued)
    ensures KnownTable(Put(t, id, status), issued)
  {
  }

  lemma CommitTables(s: Sys, tid: nat)
    requires Tables(s) && tid in s.flights
    ensures Tables(DoCommit(s, tid))
  {
    var f := s.flights[tid];
    PutKnown(s.desk.requests, f.id, Approved, s.issued);
    DeskTables(s, s.desk.(requests := Put(s.desk.requests, f.id, Approved)));
  }

  lemma StatusTables(s: Sys, tid: nat)
    requires Tables(s) && Enabled(s, WriteStatus(tid))
    ensures Tables(DoWriteStatus(s, tid))
  {
    var t := DoWriteStatus(s, tid);
    PutKnown(s.desk.requests, s.writes[tid].id, if s.writes[tid].Denying? then Denied else Lapsed, s.issued);
    DeskTables(s, t.desk);
    hide Put;
    if t.writes[tid].Saving? {
      CopyTables(s.(desk := t.desk), tid, map[]);
    } else {
      PendingTables(s.(desk := t.desk), tid, t.writes[tid]);
    }
  }

  lemma DeciderTables(s: Sys, tid: nat)
    requires Tables(s) && Enabled(s, WriteDecider(tid))
    ensures Tables(DoWriteDecider(s, tid))
  {
    var t := DoWriteDecider(s, tid);
    assert KnownTable(t.desk.requests, s.issued);
    DeskTables(s, t.desk);
    hide PutDecider;
    CopyTables(s.(desk := t.desk), tid, map[]);
  }

  lemma SaveTables(s: Sys, tid: nat, t: Table, saved: bool)
    requires Tables(s) && KnownTable(t, s.issued)
    ensures Tables(DoSave(s, tid, t, saved))
  {
  }

  lemma DoCopyTables(s: Sys, tid: nat, id: string, e: Entry)
    requires Tables(s) && IsSaving(s, tid) && KnownEntry(e, s.issued)
    ensures Tables(DoCopy(s, tid, id, e))
  {
    assert KnownTable(s.writes[tid].copy, s.issued);
    CopyTables(s, tid, s.writes[tid].copy[id := e]);
  }

  lemma DecideTables(s: Sys, tid: nat, w: Write, may: bool)
    requires Tables(s) && (w.Saving? ==> w.copy == map[])
    ensures Tables(DoDecide(s, tid, w, may))
  {
  }

  lemma SweepTables(s: Sys, at: Instant)
    requires Tables(s)
    ensures Tables(s.(desk := s.desk.(requests := Swept(s.desk.requests, at))))
  {
    DeskTables(s, s.desk.(requests := Swept(s.desk.requests, at)));
  }

  lemma LateLoadTables(s: Sys, t: Table, whole: bool)
    requires Tables(s) && (t == map[] || t in s.snapshots)
    ensures Tables(DoLateLoad(s, t, whole))
  {
  }

  lemma AbandonTables(s: Sys, tid: nat)
    requires Tables(s)
    ensures Tables(DoAbandon(s, tid))
  {
  }

  lemma CrashTables(s: Sys, file: Option<Table>, readable: bool)
    requires Tables(s) && Enabled(s, Crash(file, readable))
    ensures Tables(Do(s, Crash(file, readable)))
  {
  }

  lemma EventTables(s: Sys, e: Event)
    requires Tables(s) && Enabled(s, e)
    ensures Tables(Do(s, e))
  {
    LoadTables(s);
    var loaded := s.(desk := EnsureLoaded(s.desk));
    hide EnsureLoaded, DoRaise, DoBegin, DoBurn, DoCommit, DoWriteStatus, DoWriteDecider, DoSave, DoCopy, DoDecide,
         DoAbandon, DoLateLoad, ApproveGate, MintGate, MayReject, Overdue, Swept;
    match e {
      case Tick(_) =>
      case Raise(_, _, _, _, _, _, _, _, _, _) => RaiseTables(s, e);
      case BeginApprove(tid, id, x, env) =>
        if id in loaded.desk.requests {
          BeginTables(loaded, tid, id, ToApprove, x.approverKeyId, x.identityMode == PER_KEY,
                      ApproveGate(loaded.desk.requests[id], x, env));
        }
      case BeginMint(tid, id, claim, env) =>
        if id in loaded.desk.requests {
          BeginTables(loaded, tid, id, ToMint, "", false, MintGate(loaded.desk.requests[id], claim, env));
        }
      case BeginDecline(tid, id, x) =>
        DecideTables(loaded, tid, Denying(id, x.approverKeyId),
                     id in loaded.desk.requests && MayReject(loaded.desk.requests[id], x));
      case BeginLapse(tid, id, at) =>
        DecideTables(loaded, tid, Lapsing(id), id in loaded.desk.requests && Overdue(loaded.desk.requests[id], at));
      case BurnKey(tid, io) => BurnTables(s, tid, io);
      case Commit(tid) => CommitTables(s, tid);
      case WriteStatus(tid) => StatusTables(s, tid);
      case WriteDecider(tid) => DeciderTables(s, tid);
      case SaveTable(tid, saved) => SaveTables(s, tid, s.desk.requests, saved);
      case CopyEntry(tid, id) => DoCopyTables(s, tid, id, s.desk.requests[id]);
      case CopyDecider(tid, id) =>
        assert KnownTable(s.writes[tid].copy, s.issued);
        DoCopyTables(s, tid, id, s.writes[tid].copy[id].(decidedBy := s.desk.requests[id].decidedBy));
      case EndSave(tid) => SaveTables(s, tid, s.writes[tid].copy, true);
      case Abandon(tid) => AbandonTables(s, tid);
      case SweepAll(tid, at) =>
        SweepTables(loaded, at);
        DecideTables(loaded.(desk := loaded.desk.(requests := Swept(loaded.desk.requests, at))), tid, Saving(map[]), true);
      case LateLoad(table, whole) => LateLoadTables(s, table, whole);
      case Crash(file, readable) => CrashTables(s, file, readable);
    }
  }

  lemma BurnTables(s: Sys, tid: nat, io: Io)
    requires Tables(s) && tid in s.flights
    ensures Tables(DoBurn(s, tid, io))
  {
  }

  lemma ArchiveTables(s: Sys)
    requires Tables(s)
    ensures Tables(Archive(s))
  {
  }

  // ------------------------------------------------ every event keeps the burns in order

  /** Steps that touch neither the nonce store nor a handler that has burned. */
  lemma BurnsFrame(s: Sys, t: Sys)
    requires Burns(s)
    requires t.desk.nonces == s.desk.nonces && t.history == s.history && t.done == s.done && t.lost == s.lost
    requires forall n :: n in s.issued ==> n in t.issued && t.issued[n] == s.issued[n]
    requires forall n :: n in t.issued && n !in s.issued ==> t.issued[n].at == |s.history|
    requires forall tid :: tid in t.flights && t.flights[tid].burned ==> tid in s.flights && s.flights[tid] == t.flights[tid]
    ensures Burns(t)
  {
  }

  lemma BurnSpent(flights: map<nat, Flight>, h: seq<Use>, done: multiset<Use>, tid: nat)
    requires tid in flights && !flights[tid].burned && Spent(flights, h, done) && UseOf(flights[tid]) !in h
    ensures Spent(flights[tid := flights[tid].(burned := true)], h + [UseOf(flights[tid])], done)
  {
  }

  lemma HistoryGrows(h: seq<Use>, issued: map<string, Issued>, u: Use)
    requires HexHistory(h) && Causal(h, issued) && IsHexNonce(u.1) && u.1 in issued && issued[u.1].at <= |h|
    ensures HexHistory(h + [u]) && Causal(h + [u], issued)
  {
  }

  /** The burn as seen by everything but the nonce store. */
  lemma AcceptedBurn(s: Sys, tid: nat, io: Io, nonces: Store)
    requires tid in s.flights && Consume(s.desk.nonces, Key(UseOf(s.flights[tid])), io) == (true, nonces)
    ensures DoBurn(s, tid, io) ==
      s.(desk := s.desk.(nonces := nonces), flights := s.flights[tid := s.flights[tid].(burned := true)],
         history := s.history + [UseOf(s.flights[tid])], lost := s.lost || io.AppendFails?)
  {
  }

  lemma FirstBurnBurns(s: Sys, tid: nat, io: Io)
    requires Burns(s) && !s.lost && tid in s.flights && !s.flights[tid].burned && !io.AppendFails?
    requires KnownRequest(s.flights[tid].request, s.issued) && s.issued[s.flights[tid].request.nonce].at <= |s.history|
    requires IsHexNonce(s.flights[tid].request.nonce) && UseOf(s.flights[tid]) !in s.history
    ensures Burns(DoBurn(s, tid, io))
  {
    hide Durable, Spent, HexHistory, Causal, Consume, Key, HexDigits, DoBurn;
    var u := UseOf(s.flights[tid]);
    BurnSpent(s.flights, s.history, s.done, tid);
    FirstBurn(s.desk.nonces, s.history, u, io);
    HistoryGrows(s.history, s.issued, u);
    AcceptedBurn(s, tid, io, Consume(s.desk.nonces, Key(u), io).1);
    BurnsFrom(DoBurn(s, tid, io));
  }

  lemma BurnsFrom(s: Sys)
    requires HexHistory(s.history) && Causal(s.history, s.issued)
    requires forall n :: n in s.issued ==> s.issued[n].at <= |s.history|
    requires Durable(s.desk.nonces, s.history) && Spent(s.flights, s.history, s.done)
    ensures Burns(s)
  {
  }

  lemma SecondBurnBurns(s: Sys, tid: nat, io: Io)
    requires Burns(s) && !s.lost && tid in s.flights && !s.flights[tid].burned && BurnInTime(s, BurnKey(tid, io))
    requires UseOf(s.flights[tid]) in s.history
    ensures Burns(DoBurn(s, tid, io))
  {
    var u := UseOf(s.flights[tid]);
    var i :| 0 <= i < |s.history| && s.history[i] == u;
    SecondBurnRefused(s.desk.nonces, s.history, u, i, io);
    BurnsFrame(s, s.(flights := s.flights - {tid}));
  }

  lemma LostBurnBurns(s: Sys, tid: nat, io: Io)
    requires Burns(s) && tid in s.flights && (s.lost || io.AppendFails?)
    requires IsHexNonce(s.flights[tid].request.nonce) && s.flights[tid].request.nonce in s.issued
    requires s.issued[s.flights[tid].request.nonce].at <= |s.history|
    ensures Burns(DoBurn(s, tid, io))
  {
    hide Durable, Spent, HexHistory, Causal, Consume, Key, HexDigits;
    if Consume(s.desk.nonces, Key(UseOf(s.flights[tid])), io).0 {
      HistoryGrows(s.history, s.issued, UseOf(s.flights[tid]));
    } else {
      BurnsFrame(s, s.(flights := s.flights - {tid}));
    }
  }

  lemma BurnBurns(s: Sys, tid: nat, io: Io)
    requires Burns(s) && tid in s.flights && !s.flights[tid].burned && BurnInTime(s, BurnKey(tid, io))
    requires KnownRequest(s.flights[tid].request, s.issued) && s.issued[s.flights[tid].request.nonce].at <= |s.history|
    requires IsHexNonce(s.flights[tid].request.nonce)
    ensures Burns(DoBurn(s, tid, io))
  {
    hide Burns, HexDigits, DoBurn;
    if s.lost || io.AppendFails? {
      LostBurnBurns(s, tid, io);
    } else if UseOf(s.flights[tid]) in s.history {
      SecondBurnBurns(s, tid, io);
    } else {
      FirstBurnBurns(s, tid, io);
    }
  }

  lemma CommitBurns(s: Sys, tid: nat)
    requires Burns(s) && tid in s.flights && s.flights[tid].burned
    ensures Burns(DoCommit(s, tid))
  {
    hide Put, HexHistory, Causal, Durable;
    if !s.lost {
      CommitSpent(s.flights, s.history, s.done, tid);
      hide Spent;
    }
  }

  lemma CommitSpent(flights: map<nat, Flight>, h: seq<Use>, done: multiset<Use>, tid: nat)
    requires Spent(flights, h, done) && tid in flights && flights[tid].burned
    ensures Spent(flights - {tid}, h, done + multiset{UseOf(flights[tid])})
  {
  }

  lemma CrashBurns(s: Sys, file: Option<Table>, readable: bool)
    requires Burns(s) && Enabled(s, Crash(file, readable))
    ensures Burns(Do(s, Crash(file, readable)))
  {
    if !s.lost && readable {
      ReopenDurable(s.desk.nonces, s.history);
    }
  }

  lemma BeginBurns(s: Sys, tid: nat, id: string, kind: Kind, keyId: string, perKey: bool, verdict: Verdict)
    requires Burns(s) && id in s.desk.requests && tid !in s.flights
    ensures Burns(DoBegin(s, tid, id, kind, keyId, perKey, verdict))
  {
    BurnsFrame(s, DoBegin(s, tid, id, kind, keyId, perKey, verdict));
  }

  lemma RaiseBurns(s: Sys, e: Event)
    requires Burns(s) && e.Raise? && e.nonce !in s.issued
    ensures Burns(DoRaise(s, e))
  {
    RequestTable(s.desk, e);
    hide Burns, Raised;
    BurnsFrame(s, DoRaise(s, e));
  }

  /** Steps on the desk and the pending writes. */
  lemma QuietBurns(s: Sys, t: Sys)
    requires Burns(s) && t.desk.nonces == s.desk.nonces
    requires t.history == s.history && t.done == s.done && t.lost == s.lost && t.issued == s.issued
    requires t.flights == s.flights
    ensures Burns(t)
  {
    BurnsFrame(s, t);
  }

  lemma AbandonBurns(s: Sys, tid: nat)
    requires Burns(s)
    ensures Burns(DoAbandon(s, tid))
  {
    hide Burns;
    BurnsFrame(s, DoAbandon(s, tid));
  }

  lemma LateLoadBurns(s: Sys, t: Table, whole: bool)
    requires Burns(s)
    ensures Burns(DoLateLoad(s, t, whole))
  {
    var u := DoLateLoad(s, t, whole);
    hide HexHistory, Causal, Durable;
    if !s.lost {
      assert forall tid :: tid in u.flights ==> UseOf(u.flights[tid]) == UseOf(s.flights[tid])
                                                && u.flights[tid].burned == s.flights[tid].burned;
    }
  }

  lemma EventBurns(s: Sys, e: Event)
    requires Tables(s) && Burns(s) && Enabled(s, e) && BurnInTime(s, e)
    ensures Burns(Do(s, e))
  {
    var loaded := s.(desk := EnsureLoaded(s.desk));
    QuietBurns(s, loaded);
    hide Burns, DoRaise, DoBegin, DoBurn, DoCommit, DoAbandon, DoLateLoad, EnsureLoaded, ApproveGate, MintGate,
         MayReject, Overdue, Swept, Put, PutDecider;
    match e {
      case Tick(now) => BurnsFrame(s, s.(now := now));
      case Raise(_, _, _, _, _, _, _, _, _, _) => RaiseBurns(s, e);
      case BeginApprove(tid, id, x, env) =>
        if id in loaded.desk.requests {
          BeginBurns(loaded, tid, id, ToApprove, x.approverKeyId, x.identityMode == PER_KEY,
                     ApproveGate(loaded.desk.requests[id], x, env));
        }
      case BeginMint(tid, id, claim, env) =>
        if id in loaded.desk.requests {
          BeginBurns(loaded, tid, id, ToMint, "", false, MintGate(loaded.desk.requests[id], claim, env));
        }
      case BurnKey(tid, io) => BurnBurns(s, tid, io);
      case Commit(tid) => CommitBurns(s, tid);
      case Abandon(tid) => AbandonBurns(s, tid);
      case LateLoad(table, whole) => LateLoadBurns(s, table, whole);
      case Crash(file, readable) => CrashBurns(s, file, readable);
      case _ =>
        QuietEvent(s, e);
        QuietBurns(s, Do(s, e));
    }
  }

  /** Events that only decide, assign, copy or save. */
  lemma QuietEvent(s: Sys, e: Event)
    requires Enabled(s, e)
    requires e.BeginDecline? || e.BeginLapse? || e.SweepAll? || e.WriteStatus? || e.WriteDecider? || e.SaveTable?
             || e.CopyEntry? || e.CopyDecider? || e.EndSave?
    ensures var t := Do(s, e);
      && t.desk.nonces == s.desk.nonces && t.history == s.history && t.done == s.done && t.lost == s.lost
      && t.issued == s.issued && t.flights == s.flights && t.grants == s.grants
  {
    hide MayReject, Overdue, Swept, Put, PutDecider;
  }

  ghost predicate Inv(s: Sys) {
    Tables(s) && Burns(s)
  }

  lemma EventKeeps(s: Sys, e: Event)
    requires Inv(s) && Enabled(s, e) && BurnInTime(s, e)
    ensures Inv(Next(s, e))
  {
    EventTables(s, e);
    EventBurns(s, e);
    ArchiveTables(Do(s, e));
    BurnsFrame(Do(s, e), Next(s, e));
  }

  lemma {:induction false} RunKeeps(s: Sys, events: seq<Event>)
    requires Inv(s) && Legal(s, events) && WithinCapacity(s, events)
    ensures Inv(Run(s, events))
    decreases |events|
  {
    if events != [] {
      EventKeeps(s, events[0]);
      RunKeeps(Next(s, events[0]), events[1..]);
    }
  }

  /** In every run with crashes and concurrent handlers whose burns stay durable, each issued
      nonce backs at most one grant and at most one permit. */
  lemma AtMostOnce(now: Instant, events: seq<Event>)
    requires Legal(Start(now), events) && WithinCapacity(Start(now), events)
    ensures var s := Run(Start(now), events);
      !s.lost ==> forall n :: s.done[(ToApprove, n)] <= 1 && s.done[(ToMint, n)] <= 1
  {
    assert Inv(Start(now)) by {
      assert Reading([]) == [];
    }
    RunKeeps(Start(now), events);
  }

  // ------------------------------------------------ the same, from the lifetime of a request

  /** A handler burns while its request is still in time, and fewer than MAX_NONCES burns
      happen between the issue of a request and its expiry. */
  ghost predicate PromptAndRoomy(s: Sys, e: Event) {
    && (e.BurnKey? && e.tid in s.flights ==> s.now < s.flights[e.tid].request.expiresAt)
    && (forall n :: n in s.issued && s.now < s.issued[n].request.expiresAt ==>
          |s.history| - s.issued[n].at < MAX_NONCES)
  }

  ghost predicate AlwaysPromptAndRoomy(s: Sys, events: seq<Event>)
    requires Legal(s, events)
    decreases |events|
  {
    events != [] ==> PromptAndRoomy(s, events[0]) && AlwaysPromptAndRoomy(Next(s, events[0]), events[1..])
  }

  lemma {:induction false} LifetimeGivesCapacity(s: Sys, events: seq<Event>)
    requires Inv(s) && Legal(s, events) && AlwaysPromptAndRoomy(s, events)
    ensures WithinCapacity(s, events)
    decreases |events|
  {
    if events != [] {
      var e := events[0];
      assert BurnInTime(s, e) by {
        if e.BurnKey? {
          assert KnownRequest(s.flights[e.tid].request, s.issued);
        }
      }
      EventKeeps(s, e);
      LifetimeGivesCapacity(Next(s, e), events[1..]);
    }
  }

  lemma AtMostOnceWithinLifetime(now: Instant, events: seq<Event>)
    requires Legal(Start(now), events) && AlwaysPromptAndRoomy(Start(now), events)
    ensures var s := Run(Start(now), events);
      !s.lost ==> forall n :: s.done[(ToApprove, n)] <= 1 && s.done[(ToMint, n)] <= 1
  {
    assert Reading([]) == [];
    LifetimeGivesCapacity(Start(now), events);
    AtMostOnce(now, events);
  }

  // ------------------------------------------------ putting runs together

  lemma RunCons(s: Sys, e: Event, rest: seq<Event>)
    requires Enabled(s, e) && Legal(Next(s, e), rest)
    ensures Legal(s, [e] + rest) && Run(s, [e] + rest) == Run(Next(s, e), rest)
  {
    hide Next, Enabled;
    assert ([e] + rest)[0] == e && ([e] + rest)[1..] == rest;
  }

  lemma RunOne(s: Sys, e: Event)
    requires Enabled(s, e)
    ensures Legal(s, [e]) && Run(s, [e]) == Next(s, e)
  {
    hide Next, Enabled;
    assert Legal(Next(s, e), []) && Run(Next(s, e), []) == Next(s, e);
    assert [e] + [] == [e];
    RunCons(s, e, []);
  }

  lemma RunTwo(s: Sys, e1: Event, e2: Event)
    requires Enabled(s, e1) && Enabled(Next(s, e1), e2)
    ensures Legal(s, [e1, e2]) && Run(s, [e1, e2]) == Next(Next(s, e1), e2)
  {
    hide Next, Enabled, Legal, Run;
    RunOne(Next(s, e1), e2);
    RunCons(s, e1, [e2]);
    assert [e1] + [e2] == [e1, e2];
  }

  lemma RunThree(s: Sys, e1: Event, e2: Event, e3: Event)
    requires Enabled(s, e1) && Enabled(Next(s, e1), e2) && Enabled(Next(Next(s, e1), e2), e3)
    ensures Legal(s, [e1, e2, e3]) && Run(s, [e1, e2, e3]) == Next(Next(Next(s, e1), e2), e3)
  {
    hide Next, Enabled, Legal, Run;
    RunTwo(Next(s, e1), e2, e3);
    RunCons(s, e1, [e2, e3]);
    assert [e1] + [e2, e3] == [e1, e2, e3];
  }

  lemma {:induction false} RunTwice(s: Sys, first: seq<Event>, second: seq<Event>)
    requires Legal(s, first) && Legal(Run(s, first), second)
    ensures Legal(s, first + second) && Run(s, first + second) == Run(Run(s, first), second)
    decreases |first|
  {
    hide Next, Enabled;
    if first == [] {
      assert first + second == second;
    } else {
      assert (first + second)[0] == first[0] && (first + second)[1..] == first[1..] + second;
      RunTwice(Next(s, first[0]), first[1..], second);
    }
  }
}
