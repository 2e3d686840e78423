/** The approval desk (backend/app/routers/approvals.py): the request table, the idempotency
    cache, and the steps request, approve, reject, sweep and mint. */
module Approvals {
  import opened Wrappers
  import opened Text
  import opened NonceStores
  import opened Approval

  const PER_KEY: string := "per_key"
  const BOOTSTRAP: string := "bootstrap"
  const APPROVER_ROLES: set<string> := {"approver", "admin"}
  const PERMIT_FRESHNESS_S: real := 300.0

  datatype Status = Pending | Approved | Denied | Lapsed

  datatype Entry = Entry(request: ApprovalRequest, action: Action, status: Status, requesterKeyId: string,
                         identityMode: string, decidedBy: string)

  type Table = map<string, Entry>

  datatype Sod = Enforced | NotEnforcedBootstrap | NotRecorded

  datatype View = View(approvalId: string, incidentId: string, actionId: string, actor: string, scope: string,
                       paramsHash: string, status: Status, secondsRemaining: real, identityMode: string,
                       requesterKeyId: string, decidedBy: string, sod: Sod, duplicate: bool)

  datatype Failure = NotFound | Refused | Replay | Gone | BadInput

  /** `token_ref` is the approval the permit was minted from. */
  datatype Permit = Permit(actionId: string, paramsHash: string, expiresAt: Instant, tokenRef: string)

  /** Module state: REQUESTS, IDEM_RESPONSES, NONCES and the persisted queue file. */
  datatype Desk = Desk(requests: Table, idem: map<(string, string), View>, nonces: Store, file: Option<Table>)

  /** What a call takes from its surroundings: crypto and secret, the clock, the fate of the
      nonce write and of the best-effort save. */
  datatype Env = Env(crypto: Crypto, secret: string, now: Instant, io: Io, saved: bool)

  datatype Decision = Decision(actor: string, token: string, role: string, idempotencyKey: Option<string>,
                               enforceSod: bool, requester: Option<string>, allowSelfApproval: bool,
                               approverKeyId: string, identityMode: string)

  // ------------------------------------------------ what each step does to the state

  function EnsureLoaded(d: Desk): Desk {
    if d.requests == map[] && d.file.Some? then d.(requests := d.file.value) else d
  }

  function Save(d: Desk, saved: bool): Desk {
    if saved then d.(file := Some(d.requests)) else d
  }

  function SodLabel(e: Entry): Sod {
    if e.identityMode == PER_KEY && e.decidedBy != "" && e.requesterKeyId != "" && e.decidedBy != e.requesterKeyId
    then Enforced
    else if e.identityMode == BOOTSTRAP then NotEnforcedBootstrap else NotRecorded
  }

  function ViewOf(e: Entry, now: Instant): View {
    var r := e.request;
    var remaining := r.expiresAt - now;
    View(r.approvalId, r.incidentId, r.actionId, r.actor, r.scope, r.paramsHash, e.status,
         if remaining > 0.0 then remaining else 0.0, e.identityMode, e.requesterKeyId, e.decidedBy,
         SodLabel(e), false)
  }

  /** `accepted`: the action passed the contract and the validator. */
  function RequestApproval(d: Desk, a: Action, accepted: bool, actor: string, ttl: real, requesterKeyId: string,
                           identityMode: string, approvalId: string, nonce: string, env: Env)
    : (Result<(string, string), Failure>, Desk)
  {
    var d1 := EnsureLoaded(d);
    if IsBlank(actor) || !accepted then (Err(BadInput), d1)
    else match Issue(env.crypto, a, actor, env.secret, env.now, ttl, approvalId, nonce)
      case Err(_) => (Err(BadInput), d1)
      case Ok((r, token)) =>
        var e := Entry(r, a, Pending, requesterKeyId, identityMode, "");
        (Ok((approvalId, token)), Save(d1.(requests := d1.requests[approvalId := e]), env.saved))
  }

  datatype Verdict = Refuse(failure: Failure) | Expire | Proceed

  /** Separation of duties, on the key ids in per-key mode and on the actors under the legacy override. */
  predicate DutiesClash(e: Entry, x: Decision) {
    if x.identityMode == PER_KEY then
      x.approverKeyId == "" || e.requesterKeyId == "" || x.approverKeyId == e.requesterKeyId
    else
      x.enforceSod && !x.allowSelfApproval &&
      x.actor == if x.requester.Some? && !IsBlank(x.requester.value) then Strip(x.requester.value) else e.request.actor
  }

  /** Everything approve decides before the nonce is burned. */
  function ApproveGate(e: Entry, x: Decision, env: Env): Verdict {
    if e.status == Lapsed then Refuse(Gone)
    else if e.status != Pending then Refuse(Refused)
    else if x.role != "" && x.role !in APPROVER_ROLES then Refuse(Refused)
    else if DutiesClash(e, x) then Refuse(Refused)
    else
      var actor := if x.identityMode == PER_KEY then e.request.actor else x.actor;
      match Check(env.crypto, x.token, e.request, e.action, actor, env.secret, env.now)
      case None => Proceed
      case Some(Expired) => Expire
      case Some(_) => Refuse(Refused)
  }

  function SetStatus(d: Desk, id: string, status: Status): Desk
    requires id in d.requests
  {
    d.(requests := d.requests[id := d.requests[id].(status := status)])
  }

  function Grant(d: Desk, id: string, approverKeyId: string, saved: bool): Desk
    requires id in d.requests
  {
    var e := d.requests[id].(status := Approved, decidedBy := approverKeyId);
    Save(d.(requests := d.requests[id := e]), saved)
  }

  function ProduceApproval(d: Desk, id: string, x: Decision, env: Env): (Result<View, Failure>, Desk) {
    var d1 := EnsureLoaded(d);
    if id !in d1.requests then (Err(NotFound), d1)
    else match ApproveGate(d1.requests[id], x, env)
      case Refuse(f) => (Err(f), d1)
      case Expire => (Err(Gone), Save(SetStatus(d1, id, Lapsed), env.saved))
      case Proceed =>
        var (ok, nonces) := Consume(d1.nonces, d1.requests[id].request.nonce, env.io);
        if !ok then (Err(Replay), d1)
        else
          var d2 := Grant(d1.(nonces := nonces), id, x.approverKeyId, env.saved);
          (Ok(ViewOf(d2.requests[id], env.now)), d2)
  }

  /** Everything reject decides before it writes. */
  predicate MayReject(e: Entry, x: Decision) {
    e.status == Pending && (x.role == "" || x.role in APPROVER_ROLES)
  }

  function DeniedBy(e: Entry, keyId: string): Entry {
    e.(status := Denied, decidedBy := if keyId != "" then keyId else e.decidedBy)
  }

  function ProduceRejection(d: Desk, id: string, x: Decision, env: Env): (Result<View, Failure>, Desk) {
    var d1 := EnsureLoaded(d);
    if id !in d1.requests then (Err(NotFound), d1)
    else
      var e := d1.requests[id];
      if !MayReject(e, x) then (Err(Refused), d1)
      else
        var e1 := DeniedBy(e, x.approverKeyId);
        (Ok(ViewOf(e1, env.now)), Save(d1.(requests := d1.requests[id := e1]), env.saved))
  }

  /** The cached answer of an idempotency key, if it decides the call: a blank key is refused. */
  function Cached(d: Desk, id: string, key: Option<string>): Option<Result<View, Failure>> {
    if key.None? then None
    else if IsBlank(key.value) then Some(Err(BadInput))
    else if (id, key.value) in d.idem then Some(Ok(d.idem[(id, key.value)].(duplicate := true)))
    else None
  }

  function Remember(d: Desk, id: string, key: Option<string>, r: Result<View, Failure>): Desk {
    if r.Ok? && key.Some? then d.(idem := d.idem[(id, key.value) := r.value]) else d
  }

  function ApproveApproval(d: Desk, id: string, x: Decision, env: Env): (Result<View, Failure>, Desk) {
    match Cached(d, id, x.idempotencyKey)
    case Some(r) => (r, d)
    case None =>
      var (r, d1) := ProduceApproval(d, id, x, env);
      (r, Remember(d1, id, x.idempotencyKey, r))
  }

  function RejectApproval(d: Desk, id: string, x: Decision, env: Env): (Result<View, Failure>, Desk) {
    match Cached(d, id, x.idempotencyKey)
    case Some(r) => (r, d)
    case None =>
      var (r, d1) := ProduceRejection(d, id, x, env);
      (r, Remember(d1, id, x.idempotencyKey, r))
  }

  predicate Overdue(e: Entry, now: Instant) {
    e.status == Pending && e.request.expiresAt <= now
  }

  function Swept(t: Table, now: Instant): Table {
    map id | id in t :: if Overdue(t[id], now) then t[id].(status := Lapsed) else t[id]
  }

  function SweepApprovals(d: Desk, now: Instant, saved: bool): (set<string>, Desk) {
    var d1 := EnsureLoaded(d);
    ((set id | id in d1.requests && Overdue(d1.requests[id], now)),
     Save(d1.(requests := Swept(d1.requests, now)), saved))
  }

  datatype Claim = Claim(token: string, actor: string, at: Option<Instant>, expectedIncident: Option<string>)

  function PermitKey(nonce: string): string {
    nonce + ":permit"
  }

  /** Everything verified_permit decides before it burns the permit key. */
  function MintGate(e: Entry, x: Claim, env: Env): Verdict {
    if e.status != Approved then Refuse(Refused)
    else if e.identityMode == PER_KEY && e.decidedBy == "" then Refuse(Refused)
    else if x.expectedIncident.Some? && !IsBlank(x.expectedIncident.value)
            && e.request.incidentId != x.expectedIncident.value then Refuse(Refused)
    else match Check(env.crypto, x.token, e.request, e.action, x.actor, env.secret, env.now)
      case None => Proceed
      case Some(Expired) => Expire
      case Some(_) => Refuse(Refused)
  }

  function PermitOf(r: ApprovalRequest, id: string, ts: Instant): Permit {
    var limit := ts + PERMIT_FRESHNESS_S;
    Permit(r.actionId, r.paramsHash, if r.expiresAt <= limit then r.expiresAt else limit, id)
  }

  function VerifiedPermit(d: Desk, id: string, x: Claim, env: Env): (Result<Permit, Failure>, Desk) {
    var d1 := EnsureLoaded(d);
    if id !in d1.requests then (Err(NotFound), d1)
    else
      var e := d1.requests[id];
      match MintGate(e, x, env)
      case Refuse(f) => (Err(f), d1)
      case Expire => (Err(Gone), SetStatus(d1, id, Lapsed))
      case Proceed =>
        var (ok, nonces) := Consume(d1.nonces, PermitKey(e.request.nonce), env.io);
        if !ok then (Err(Replay), d1)
        else
          (Ok(PermitOf(e.request, id, if x.at.Some? then x.at.value else env.now)), d1.(nonces := nonces))
  }

  // ------------------------------------------------ the desk, updated in place

  class ApprovalDesk {
    var requests: Table
    var idem: map<(string, string), View>
    var file: Option<Table>
    const nonces: NonceStore

    ghost function State(): Desk
      reads this, nonces, nonces.file
    {
      Desk(requests, idem, nonces.State(), file)
    }

    /** A process start: memory is empty, the files are what they are. */
    constructor (nonces: NonceStore, file: Option<Table>)
      ensures this.nonces == nonces && State() == Desk(map[], map[], nonces.State(), file)
    {
      this.nonces := nonces;
      requests, idem, this.file := map[], map[], file;
    }

    method Load()
      modifies this
      ensures State() == EnsureLoaded(old(State()))
    {
      if requests == map[] && file.Some? {
        requests := file.value;
      }
    }

    method SaveBestEffort(saved: bool)
      modifies this
      ensures State() == Save(old(State()), saved)
    {
      if saved {
        file := Some(requests);
      }
    }

    method Request(a: Action, accepted: bool, actor: string, ttl: real, requesterKeyId: string,
                   identityMode: string, approvalId: string, nonce: string, env: Env)
      returns (r: Result<(string, string), Failure>)
      modifies this
      ensures (r, State()) == RequestApproval(old(State()), a, accepted, actor, ttl, requesterKeyId,
                                              identityMode, approvalId, nonce, env)
    {
      Load();
      if IsBlank(actor) || !accepted {
        return Err(BadInput);
      }
      var issued := Issue(env.crypto, a, actor, env.secret, env.now, ttl, approvalId, nonce);
      if issued.Err? {
        return Err(BadInput);
      }
      requests := requests[approvalId := Entry(issued.value.0, a, Pending, requesterKeyId, identityMode, "")];
      SaveBestEffort(env.saved);
      return Ok((approvalId, issued.value.1));
    }

    method Approve(id: string, x: Decision, env: Env) returns (r: Result<View, Failure>)
      modifies this, nonces, nonces.file
      ensures (r, State()) == ApproveApproval(old(State()), id, x, env)
    {
      var cached := Cached(Desk(requests, idem, IN_MEMORY, None), id, x.idempotencyKey);
      if cached.Some? {
        return cached.value;
      }
      Load();
      if id !in requests {
        return Err(NotFound);
      }
      match ApproveGate(requests[id], x, env) {
        case Refuse(f) =>
          return Err(f);
        case Expire =>
          requests := requests[id := requests[id].(status := Lapsed)];
          SaveBestEffort(env.saved);
          return Err(Gone);
        case Proceed =>
      }
      var accepted := nonces.Burn(requests[id].request.nonce, env.io);
      if !accepted {
        return Err(Replay);
      }
      ghost var granted := requests[id].(status := Approved, decidedBy := x.approverKeyId);
      ghost var after := requests[id := granted];
      requests := requests[id := requests[id].(status := Approved)];
      requests := requests[id := requests[id].(decidedBy := x.approverKeyId)];
      assert requests == after;
      SaveBestEffort(env.saved);
      r := Ok(ViewOf(requests[id], env.now));
      if x.idempotencyKey.Some? {
        idem := idem[(id, x.idempotencyKey.value) := r.value];
      }
    }

    method Reject(id: string, x: Decision, env: Env) returns (r: Result<View, Failure>)
      modifies this
      ensures (r, State()) == RejectApproval(old(State()), id, x, env)
    {
      var cached := Cached(Desk(requests, idem, IN_MEMORY, None), id, x.idempotencyKey);
      if cached.Some? {
        return cached.value;
      }
      Load();
      if id !in requests {
        return Err(NotFound);
      }
      if requests[id].status != Pending || (x.role != "" && x.role !in APPROVER_ROLES) {
        return Err(Refused);
      }
      ghost var e := requests[id];
      ghost var decider := if x.approverKeyId != "" then x.approverKeyId else e.decidedBy;
      ghost var after := requests[id := e.(status := Denied, decidedBy := decider)];
      requests := requests[id := requests[id].(status := Denied)];
      if x.approverKeyId != "" {
        requests := requests[id := requests[id].(decidedBy := x.approverKeyId)];
      }
      assert requests == after;
      SaveBestEffort(env.saved);
      r := Ok(ViewOf(requests[id], env.now));
      if x.idempotencyKey.Some? {
        idem := idem[(id, x.idempotencyKey.value) := r.value];
      }
    }

    method Sweep(now: Instant, saved: bool) returns (expired: set<string>)
      modifies this
      ensures (expired, State()) == SweepApprovals(old(State()), now, saved)
    {
      Load();
      expired := ExpireOverdue(now);
      SaveBestEffort(saved);
    }

    method ExpireOverdue(now: Instant) returns (expired: set<string>)
      modifies this`requests
      ensures requests == Swept(old(requests), now)
      ensures expired == set id | id in old(requests) && Overdue(old(requests)[id], now)
    {
      expired := {};
      var todo := requests.Keys;
      while todo != {}
        invariant todo <= requests.Keys == old(requests).Keys
        invariant forall id :: id in requests ==>
          requests[id] == if id in todo then old(requests)[id] else Swept(old(requests), now)[id]
        invariant expired == set id | id in old(requests) && id !in todo && Overdue(old(requests)[id], now)
      {
        var id :| id in todo;
        if requests[id].status == Pending && requests[id].request.expiresAt <= now {
          requests := requests[id := requests[id].(status := Lapsed)];
          expired := expired + {id};
        }
        todo := todo - {id};
      }
    }

    method Mint(id: string, x: Claim, env: Env) returns (r: Result<Permit, Failure>)
      modifies this, nonces, nonces.file
      ensures (r, State()) == VerifiedPermit(old(State()), id, x, env)
    {
      Load();
      if id !in requests {
        return Err(NotFound);
      }
      var req := requests[id].request;
      match MintGate(requests[id], x, env) {
        case Refuse(f) =>
          return Err(f);
        case Expire =>
          requests := requests[id := requests[id].(status := Lapsed)];
          return Err(Gone);
        case Proceed =>
      }
      var accepted := nonces.Burn(PermitKey(req.nonce), env.io);
      if !accepted {
        return Err(Replay);
      }
      var ts := if x.at.Some? then x.at.value else env.now;
      return Ok(PermitOf(req, id, ts));
    }
  }
}
