/** Properties of whole runs of the approval desk, one call at a time and without a crash: how a request may evolve,
    who may decide it, what a permit proves, and what an idempotency key guarantees. */
module ApprovalLifecycle {
  import opened Wrappers
  import opened Text
  import opened NonceStores
  import opened Approval
  import opened Approvals

  datatype Step =
    | DoRequest(a: Action, accepted: bool, actor: string, ttl: real, requesterKeyId: string,
                identityMode: string, approvalId: string, nonce: string, env: Env)
    | DoApprove(id: string, x: Decision, env: Env)
    | DoReject(id: string, x: Decision, env: Env)
    | DoSweep(now: Instant, saved: bool)
    | DoMint(id: string, claim: Claim, env: Env)

  function Apply(d: Desk, s: Step): Desk {
    match s
    case DoRequest(a, ok, actor, ttl, key, mode, id, nonce, env) =>
      RequestApproval(d, a, ok, actor, ttl, key, mode, id, nonce, env).1
    case DoApprove(id, x, env) => ApproveApproval(d, id, x, env).1
    case DoReject(id, x, env) => RejectApproval(d, id, x, env).1
    case DoSweep(now, saved) => SweepApprovals(d, now, saved).1
    case DoMint(id, claim, env) => VerifiedPermit(d, id, claim, env).1
  }

  function Run(d: Desk, steps: seq<Step>): Desk
    decreases |steps|
  {
    if steps == [] then d else Run(Apply(d, steps[0]), steps[1..])
  }

  /** Approval ids are drawn fresh. */
  ghost predicate FreshId(d: Desk, s: Step) {
    s.DoRequest? ==> s.approvalId !in EnsureLoaded(d).requests
  }

  ghost predicate FreshIds(d: Desk, steps: seq<Step>)
    decreases |steps|
  {
    steps != [] ==> FreshId(d, steps[0]) && FreshIds(Apply(d, steps[0]), steps[1..])
  }

  predicate Moves(before: Status, after: Status) {
    before == after || before == Pending || (before == Approved && after == Lapsed)
  }

  /** The content of an entry is frozen, its status only moves forward, and its decider is
      frozen once it has left `Pending`. */
  predicate Evolves(e: Entry, f: Entry) {
    && f.request == e.request && f.action == e.action
    && f.requesterKeyId == e.requesterKeyId && f.identityMode == e.identityMode
    && Moves(e.status, f.status)
    && (e.status != Pending ==> f.decidedBy == e.decidedBy)
  }

  ghost predicate TableEvolves(t: Table, u: Table) {
    forall id :: id in t ==> id in u && Evolves(t[id], u[id])
  }

  lemma ApproveEvolves(d: Desk, id: string, x: Decision, env: Env)
    ensures TableEvolves(d.requests, ApproveApproval(d, id, x, env).1.requests)
  {
    hide Check, Consume;
    var t, u := EnsureLoaded(d).requests, ProduceApproval(d, id, x, env).1.requests;
    assert u == t || (id in t && t[id].status == Pending &&
      (u == t[id := t[id].(status := Lapsed)] || u == t[id := t[id].(status := Approved, decidedBy := x.approverKeyId)]));
  }

  lemma RejectEvolves(d: Desk, id: string, x: Decision, env: Env)
    ensures TableEvolves(d.requests, RejectApproval(d, id, x, env).1.requests)
  {
  }

  lemma MintEvolves(d: Desk, id: string, x: Claim, env: Env)
    ensures TableEvolves(d.requests, VerifiedPermit(d, id, x, env).1.requests)
  {
  }

  lemma StepEvolves(d: Desk, s: Step)
    requires FreshId(d, s)
    ensures TableEvolves(d.requests, Apply(d, s).requests)
  {
    match s
    case DoRequest(_, _, _, _, _, _, _, _, _) =>
    case DoApprove(id, x, env) => ApproveEvolves(d, id, x, env);
    case DoReject(id, x, env) => RejectEvolves(d, id, x, env);
    case DoSweep(_, _) =>
    case DoMint(id, x, env) => MintEvolves(d, id, x, env);
  }

  /** Over every run, each request moves only pending -> approved/denied/expired and
      approved -> expired, and everything a decision was based on stays as it was raised. */
  lemma {:induction false} LifecycleOverRuns(d: Desk, steps: seq<Step>)
    requires FreshIds(d, steps)
    ensures TableEvolves(d.requests, Run(d, steps).requests)
    decreases |steps|
  {
    if steps != [] {
      var d1 := Apply(d, steps[0]);
      StepEvolves(d, steps[0]);
      LifecycleOverRuns(d1, steps[1..]);
      forall id | id in d.requests
        ensures id in Run(d, steps).requests && Evolves(d.requests[id], Run(d, steps).requests[id])
      {
        assert Evolves(d.requests[id], d1.requests[id]);
        assert Evolves(d1.requests[id], Run(d1, steps[1..]).requests[id]);
      }
    }
  }

  // ------------------------------------------------ approve

  /** The call was decided now, not answered from the idempotency cache. */
  predicate Decided(r: Result<View, Failure>) {
    r.Ok? && !r.value.duplicate
  }

  /** A granted approval found the request pending and in time, with a token whose MAC
      matches, and burned its nonce for the first time. */
  lemma ApproveSucceeds(d: Desk, id: string, x: Decision, env: Env)
    requires Valid(d.nonces) && Decided(ApproveApproval(d, id, x, env).0)
    ensures var d1 := ApproveApproval(d, id, x, env).1;
      var t := EnsureLoaded(d).requests;
      && id in t && t[id].status == Pending && env.now < t[id].request.expiresAt
      && x.token == Mac(env.crypto, env.secret, BoundFields(env.crypto, t[id].request) + [t[id].request.nonce])
      && t[id].request.nonce !in d.nonces.used && t[id].request.nonce in d1.nonces.used
      && d1.requests == t[id := t[id].(status := Approved, decidedBy := x.approverKeyId)]
  {
    hide Consume, Mac;
    ConsumeKeepsValid(d.nonces, EnsureLoaded(d).requests[id].request.nonce, env.io);
  }

  /** A call that grants nothing burns nothing and caches nothing, and changes at most that
      request, from pending to expired once its time is up. */
  lemma RefusalBurnsNothing(d: Desk, id: string, x: Decision, env: Env)
    requires !Decided(ApproveApproval(d, id, x, env).0)
    ensures var (r, d1) := ApproveApproval(d, id, x, env);
      var t := EnsureLoaded(d).requests;
      && d1.nonces == d.nonces && d1.idem == d.idem
      && (|| d1 == d
          || d1 == EnsureLoaded(d)
          || (&& r == Err(Gone) && id in t && Overdue(t[id], env.now)
              && d1.requests == t[id := t[id].(status := Lapsed)]))
  {
  }

  /** Four eyes: whatever follows, an approval granted through a per-key identity keeps a
      decider that is not the key which raised the request. */
  lemma FourEyesForever(d: Desk, id: string, x: Decision, env: Env, steps: seq<Step>)
    requires x.identityMode == PER_KEY && Decided(ApproveApproval(d, id, x, env).0)
    requires FreshIds(ApproveApproval(d, id, x, env).1, steps)
    ensures var e := EnsureLoaded(d).requests;
      var after := Run(ApproveApproval(d, id, x, env).1, steps).requests;
      && id in e && id in after
      && (after[id].status == Approved || after[id].status == Lapsed)
      && after[id].decidedBy == x.approverKeyId != e[id].requesterKeyId == after[id].requesterKeyId
      && after[id].decidedBy != "" && after[id].requesterKeyId != ""
  {
    var d1 := ApproveApproval(d, id, x, env).1;
    LifecycleOverRuns(d1, steps);
    assert Evolves(d1.requests[id], Run(d1, steps).requests[id]);
  }

  /** The `sod` label right after an approval is a comparison of recorded key ids, nothing
      more: it does not say in which mode the decision was authorised. */
  lemma SodLabelExact(d: Desk, id: string, x: Decision, env: Env)
    requires Decided(ApproveApproval(d, id, x, env).0)
    ensures var e := EnsureLoaded(d).requests;
      && id in e
      && (ApproveApproval(d, id, x, env).0.value.sod == Enforced <==>
            e[id].identityMode == PER_KEY && x.approverKeyId != "" && e[id].requesterKeyId !in {"", x.approverKeyId})
  {
  }

  /** The documentation promises the label "enforced" only for decisions authorised by a
      per-key store. Here the shared bootstrap credential approves a per-key request and the
      view still says "enforced". */
  lemma SodLabelOverclaims() returns (d: Desk, id: string, x: Decision, env: Env)
    ensures x.identityMode == BOOTSTRAP
    ensures Decided(ApproveApproval(d, id, x, env).0)
    ensures ApproveApproval(d, id, x, env).0.value.sod == Enforced
  {
    var crypto := Crypto((secret, text) => "mac", text => "digest", at => "time");
    env := Env(crypto, "secret", 0.0, IoOk, true);
    var a := Action("act", "inc", "restart", "pod", "web", "prod", "default", "{}");
    var r := ApprovalRequest("id", "inc", "act", "alice", "digest", ScopeOf(a), 600.0, "0123456789abcdef");
    id := "id";
    d := Desk(map[id := Entry(r, a, Pending, "key-alice", PER_KEY, "")], map[], Store({}, [], true, false, []), None);
    x := Decision("alice", "mac", "approver", None, false, None, false, "bootstrap", BOOTSTRAP);
    assert PER_KEY != BOOTSTRAP by { assert PER_KEY[0] != BOOTSTRAP[0]; }
    assert ApproveGate(d.requests[id], x, env) == Proceed;
  }

  // ------------------------------------------------ permits

  /** A minted permit carries the stored request's action and parameters, outlives neither the
      request nor its freshness limit, belongs to the expected incident, and took the permit
      key out of circulation. */
  lemma PermitFaithful(d: Desk, id: string, x: Claim, env: Env)
    requires Valid(d.nonces) && VerifiedPermit(d, id, x, env).0.Ok?
    ensures var (r, d1) := VerifiedPermit(d, id, x, env);
      var t := EnsureLoaded(d).requests;
      var ts := if x.at.Some? then x.at.value else env.now;
      && id in t && t[id].status == Approved && env.now < t[id].request.expiresAt
      && r.value.actionId == t[id].request.actionId == t[id].action.actionId
      && r.value.paramsHash == t[id].request.paramsHash == env.crypto.digest(t[id].action.parameters)
      && r.value.expiresAt <= t[id].request.expiresAt && r.value.expiresAt <= ts + PERMIT_FRESHNESS_S
      && (r.value.expiresAt == t[id].request.expiresAt || r.value.expiresAt == ts + PERMIT_FRESHNESS_S)
      && (x.expectedIncident.Some? && !IsBlank(x.expectedIncident.value) ==>
            t[id].request.incidentId == x.expectedIncident.value)
      && (t[id].identityMode == PER_KEY ==> t[id].decidedBy != "")
      && PermitKey(t[id].request.nonce) !in d.nonces.used
      && PermitKey(t[id].request.nonce) in d1.nonces.used
      && VerifiedPermit(d1, id, x, env) == (Err(Replay), d1)
      && d1.requests == t
  {
    var t := EnsureLoaded(d).requests;
    ConsumeKeepsValid(d.nonces, PermitKey(t[id].request.nonce), env.io);
  }

  /** What the approval route passes on to resume the run: the caller's own credentials. */
  function ResumeClaim(x: Decision, r: ApprovalRequest): Claim {
    Claim(x.token, x.actor, None, Some(r.incidentId))
  }

  /** Right after a granted approval the resume gets its permit exactly when the approver acts
      under the very name of the requester. */
  lemma ResumeMintsExactly(d: Desk, id: string, x: Decision, env: Env, later: Env)
    requires Valid(d.nonces) && Decided(ApproveApproval(d, id, x, env).0)
    requires later.crypto == env.crypto && later.secret == env.secret
    ensures id in EnsureLoaded(d).requests
    ensures var e := EnsureLoaded(d).requests[id];
      var d1 := ApproveApproval(d, id, x, env).1;
      VerifiedPermit(d1, id, ResumeClaim(x, e.request), later).0.Ok? <==>
        && x.actor == e.request.actor && later.now < e.request.expiresAt
        && PermitKey(e.request.nonce) !in d1.nonces.used
        && (e.identityMode == PER_KEY ==> x.approverKeyId != "")
  {
    hide Consume, Mac;
    ApproveSucceeds(d, id, x, env);
    var d1 := ApproveApproval(d, id, x, env).1;
    ConsumeKeepsValid(d.nonces, EnsureLoaded(d).requests[id].request.nonce, env.io);
    ConsumeKeepsValid(d1.nonces, PermitKey(EnsureLoaded(d).requests[id].request.nonce), later.io);
  }

  /** The `i`th step approved the request, decided at that moment. */
  ghost predicate Grants(d: Desk, steps: seq<Step>, i: nat, id: string)
    requires i < |steps|
  {
    && steps[i].DoApprove? && steps[i].id == id
    && Decided(ApproveApproval(Run(d, steps[..i]), id, steps[i].x, steps[i].env).0)
  }

  lemma StepGrants(d: Desk, s: Step, id: string)
    requires FreshId(d, s) && id in d.requests && d.requests[id].status == Pending
    ensures id in Apply(d, s).requests && Apply(d, s).requests[id].status == Approved ==>
      s.DoApprove? && s.id == id && Decided(ApproveApproval(d, id, s.x, s.env).0)
  {
  }

  /** No status `approved` without a human decision: some step of the run granted it. */
  lemma {:induction false} ApprovedOnlyByGrant(d: Desk, steps: seq<Step>, id: string) returns (i: nat)
    requires FreshIds(d, steps) && id in d.requests && d.requests[id].status == Pending
    requires id in Run(d, steps).requests && Run(d, steps).requests[id].status == Approved
    ensures i < |steps| && Grants(d, steps, i, id)
    decreases |steps|
  {
    hide ApproveApproval, RequestApproval, RejectApproval, VerifiedPermit, SweepApprovals;
    var d1 := Apply(d, steps[0]);
    StepEvolves(d, steps[0]);
    StepGrants(d, steps[0], id);
    if d1.requests[id].status == Pending {
      var j := ApprovedOnlyByGrant(d1, steps[1..], id);
      i := j + 1;
      assert steps[..i][1..] == steps[1..][..j] && steps[..i][0] == steps[0];
    } else if d1.requests[id].status == Approved {
      i := 0;
    } else {
      LifecycleOverRuns(d1, steps[1..]);
      assert false;
    }
  }

  /** From request to permit over any run: the permit authorises exactly the action that was
      raised, within its lifetime, and a granting step lies in between. */
  lemma PermitFromRequest(d: Desk, s: Step, steps: seq<Step>, x: Claim, env: Env) returns (i: nat)
    requires s.DoRequest? && FreshId(d, s)
    requires RequestApproval(d, s.a, s.accepted, s.actor, s.ttl, s.requesterKeyId, s.identityMode,
                             s.approvalId, s.nonce, s.env).0.Ok?
    requires FreshIds(Apply(d, s), steps)
    requires VerifiedPermit(Run(Apply(d, s), steps), s.approvalId, x, env).0.Ok?
    ensures var p := VerifiedPermit(Run(Apply(d, s), steps), s.approvalId, x, env).0.value;
      && p.actionId == s.a.actionId && p.paramsHash == s.env.crypto.digest(s.a.parameters)
      && p.tokenRef == s.approvalId && p.expiresAt <= s.env.now + s.ttl
    ensures i < |steps| && Grants(Apply(d, s), steps, i, s.approvalId)
  {
    hide ApproveApproval, RejectApproval, SweepApprovals, Consume;
    var d1 := Apply(d, s);
    var id := s.approvalId;
    LifecycleOverRuns(d1, steps);
    assert Evolves(d1.requests[id], Run(d1, steps).requests[id]);
    assert EnsureLoaded(Run(d1, steps)).requests == Run(d1, steps).requests;
    i := ApprovedOnlyByGrant(d1, steps, id);
  }

  // ------------------------------------------------ idempotency

  lemma AnswerStays(d: Desk, s: Step, k: (string, string))
    requires k in d.idem
    ensures k in Apply(d, s).idem && Apply(d, s).idem[k] == d.idem[k]
  {
    hide Check, Consume, Issue;
    match s
    case DoApprove(id, x, env) =>
      assert ProduceApproval(d, id, x, env).1.idem == d.idem;
    case _ =>
  }

  lemma {:induction false} AnswersStay(d: Desk, steps: seq<Step>, k: (string, string))
    requires k in d.idem
    ensures k in Run(d, steps).idem && Run(d, steps).idem[k] == d.idem[k]
    decreases |steps|
  {
    if steps != [] {
      AnswerStays(d, steps[0], k);
      AnswersStay(Apply(d, steps[0]), steps[1..], k);
    }
  }

  /** Once a decision was answered under an idempotency key, every later call with that key,
      whether it approves or rejects and whatever it presents, gets the same answer marked as
      a duplicate and changes nothing. */
  lemma RepeatedDecision(d: Desk, id: string, x: Decision, env: Env, approving: bool, steps: seq<Step>,
                         y: Decision, later: Env)
    requires x.idempotencyKey.Some? && y.idempotencyKey == x.idempotencyKey
    requires (if approving then ApproveApproval(d, id, x, env) else RejectApproval(d, id, x, env)).0.Ok?
    ensures var (first, d1) := if approving then ApproveApproval(d, id, x, env) else RejectApproval(d, id, x, env);
      var d2 := Run(d1, steps);
      && ApproveApproval(d2, id, y, later) == (Ok(first.value.(duplicate := true)), d2)
      && RejectApproval(d2, id, y, later) == (Ok(first.value.(duplicate := true)), d2)
  {
    var (first, d1) := if approving then ApproveApproval(d, id, x, env) else RejectApproval(d, id, x, env);
    AnswersStay(d1, steps, (id, x.idempotencyKey.value));
  }
}
