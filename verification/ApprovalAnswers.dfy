/** What each call to the approval desk answers and leaves behind, in terms of the request that was
    raised: the exact conditions of success, which refusal is given, and what a view tells. */
module ApprovalAnswers {
  import opened Wrappers
  import opened Text
  import N = NonceStores
  import opened Approval
  import opened Approvals
  import opened ApprovalLifecycle

  // ------------------------------------------------ the signed text, written out

  function ScopeText(a: Action): string {
    a.actionType + ":" + a.resourceType + ":" + a.resourceId + ":" + a.environment + ":" + a.namespace
  }

  /** Action, actor, parameter digest, scope, expiry and nonce. */
  function TokenText(c: Crypto, r: ApprovalRequest): string {
    r.actionId + "|" + r.actor + "|" + r.paramsHash + "|" + r.scope + "|" + c.isoformat(r.expiresAt) + "|" + r.nonce
  }

  lemma JoinFive(a: string, b: string, c: string, d: string, e: string, sep: char)
    ensures Join([a, b, c, d, e], sep) == a + [sep] + b + [sep] + c + [sep] + d + [sep] + e
  {
    assert [a, b, c, d, e][1..] == [b, c, d, e] && [b, c, d, e][1..] == [c, d, e];
    assert [c, d, e][1..] == [d, e] && [d, e][1..] == [e];
    assert Join([d, e], sep) == d + [sep] + e;
    assert Join([c, d, e], sep) == c + [sep] + (d + [sep] + e);
    assert Join([b, c, d, e], sep) == b + [sep] + (c + [sep] + (d + [sep] + e));
  }

  lemma ScopeIs(a: Action)
    ensures ScopeOf(a) == ScopeText(a)
  {
    JoinFive(a.actionType, a.resourceType, a.resourceId, a.environment, a.namespace, ':');
  }

  lemma MacIs(c: Crypto, secret: string, r: ApprovalRequest)
    ensures Mac(c, secret, BoundFields(c, r) + [r.nonce]) == c.hmac(secret, TokenText(c, r))
  {
    JoinSnoc(BoundFields(c, r), r.nonce, '|');
    JoinFive(r.actionId, r.actor, r.paramsHash, r.scope, c.isoformat(r.expiresAt), '|');
  }

  /** The token opens the stored request for this actor, at any time. */
  ghost predicate Opens(e: Entry, token: string, actor: string, env: Env) {
    && token != "" && token == env.crypto.hmac(env.secret, TokenText(env.crypto, e.request))
    && actor == e.request.actor
    && env.crypto.digest(e.action.parameters) == e.request.paramsHash
    && ScopeText(e.action) == e.request.scope && e.action.actionId == e.request.actionId
  }

  /** A token passes exactly if it opens the request in time; it counts as expired whatever it
      is, as long as there is one. */
  lemma ChecksExactly(e: Entry, token: string, actor: string, env: Env)
    ensures var r := Check(env.crypto, token, e.request, e.action, actor, env.secret, env.now);
      && (r.None? <==> env.now < e.request.expiresAt && Opens(e, token, actor, env))
      && (r == Some(Expired) <==> token != "" && e.request.expiresAt <= env.now)
  {
    ScopeIs(e.action);
    MacIs(env.crypto, env.secret, e.request);
    hide Mac, ScopeOf, TokenText, ScopeText;
  }

  // ------------------------------------------------ raising a request

  /** A request is accepted exactly for a valid action, a named actor and a secret. What it leaves
      behind is the action and the actor under its own id, pending until its time is up, and the
      answer is a token over exactly these. */
  lemma RequestExactly(d: Desk, s: Step)
    requires s.DoRequest?
    ensures var (r, after) := RequestApproval(d, s.a, s.accepted, s.actor, s.ttl, s.requesterKeyId, s.identityMode,
                                              s.approvalId, s.nonce, s.env);
      && (r.Ok? <==> s.accepted && !IsBlank(s.actor) && s.env.secret != "")
      && (r.Err? ==> r.error == BadInput && after == EnsureLoaded(d))
      && (r.Ok? ==>
            && s.approvalId in after.requests
            && after.requests == EnsureLoaded(d).requests[s.approvalId := after.requests[s.approvalId]]
            && after.nonces == d.nonces && after.idem == d.idem && Saves(d, after, s.env.saved)
            && var e := after.requests[s.approvalId];
               && Raised(e, s) && e.status == Pending && e.decidedBy == ""
               && r.value == (s.approvalId, s.env.crypto.hmac(s.env.secret, TokenText(s.env.crypto, e.request))))
  {
    ScopeIs(s.a);
    if s.accepted && !IsBlank(s.actor) && s.env.secret != "" {
      var (r, token) := Issue(s.env.crypto, s.a, s.actor, s.env.secret, s.env.now, s.ttl, s.approvalId, s.nonce).value;
      MacIs(s.env.crypto, s.env.secret, r);
      hide TokenText, Mac, ScopeText;
      assert token == Mac(s.env.crypto, s.env.secret, BoundFields(s.env.crypto, r) + [s.nonce]);
    }
  }

  /** The file is the new table if saving works, and what it was otherwise. */
  ghost predicate Saves(d: Desk, after: Desk, saved: bool) {
    after.file == if saved then Some(after.requests) else d.file
  }

  /** The entry is what this step raised. */
  ghost predicate Raised(e: Entry, s: Step)
    requires s.DoRequest?
  {
    && e.request.approvalId == s.approvalId && e.request.incidentId == s.a.incidentId
    && e.request.actionId == s.a.actionId && e.request.actor == s.actor && e.request.nonce == s.nonce
    && e.request.paramsHash == s.env.crypto.digest(s.a.parameters) && e.request.scope == ScopeText(s.a)
    && e.request.expiresAt == s.env.now + s.ttl
    && e.action == s.a && e.requesterKeyId == s.requesterKeyId && e.identityMode == s.identityMode
  }

  // ------------------------------------------------ deciding

  predicate RoleFits(x: Decision) {
    x.role in {"", "approver", "admin"}
  }

  /** Another key than the raising one in per-key mode; otherwise, where the separation of duties
      is asked for, another actor than the named requester or the raiser. */
  predicate AnotherDecides(e: Entry, x: Decision) {
    && (x.identityMode == "per_key" ==>
          x.approverKeyId != "" && e.requesterKeyId != "" && x.approverKeyId != e.requesterKeyId)
    && (x.identityMode != "per_key" && x.enforceSod && !x.allowSelfApproval ==>
          if x.requester.None? || IsBlank(x.requester.value) then x.actor != e.request.actor
          else x.actor != Strip(x.requester.value))
  }

  /** A per-key approver stands in for the raiser; any other has to give the raiser's name. */
  function PresentedActor(e: Entry, x: Decision): string {
    if x.identityMode == "per_key" then e.request.actor else x.actor
  }

  /** Nothing stands in the way of a grant but the nonce. */
  ghost predicate MayBeGranted(e: Entry, x: Decision, env: Env) {
    && e.status == Pending && env.now < e.request.expiresAt && RoleFits(x) && AnotherDecides(e, x)
    && Opens(e, x.token, PresentedActor(e, x), env)
  }

  /** The call is answered from the cache or refused for its key. */
  predicate AnsweredByKey(d: Desk, id: string, key: Option<string>) {
    key.Some? && (IsBlank(key.value) || (id, key.value) in d.idem)
  }

  /** The view tells what the entry holds. */
  ghost predicate Tells(v: View, e: Entry, now: Instant) {
    && v.approvalId == e.request.approvalId && v.incidentId == e.request.incidentId
    && v.actionId == e.request.actionId && v.actor == e.request.actor && v.scope == e.request.scope
    && v.paramsHash == e.request.paramsHash && v.status == e.status && v.identityMode == e.identityMode
    && v.requesterKeyId == e.requesterKeyId && v.decidedBy == e.decidedBy && !v.duplicate
    && (now <= e.request.expiresAt ==> v.secondsRemaining == e.request.expiresAt - now)
    && (now >= e.request.expiresAt ==> v.secondsRemaining == 0.0)
    && (v.sod == Enforced <==>
          e.identityMode == "per_key" && e.decidedBy !in {"", e.requesterKeyId} && e.requesterKeyId != "")
    && (v.sod == NotEnforcedBootstrap <==> e.identityMode == "bootstrap")
  }

  lemma ViewTells(e: Entry, now: Instant)
    ensures Tells(ViewOf(e, now), e, now)
  {
    assert "per_key"[0] != "bootstrap"[0];
  }

  lemma GateExactly(e: Entry, x: Decision, env: Env)
    ensures ApproveGate(e, x, env) == Proceed <==> MayBeGranted(e, x, env)
    ensures ApproveGate(e, x, env) == Expire <==>
      e.status == Pending && RoleFits(x) && AnotherDecides(e, x) && x.token != "" && e.request.expiresAt <= env.now
    ensures ApproveGate(e, x, env) == Refuse(Gone) <==> e.status == Lapsed
    ensures ApproveGate(e, x, env).Refuse? ==> ApproveGate(e, x, env).failure in {Gone, Refused}
  {
    ChecksExactly(e, x.token, PresentedActor(e, x), env);
    hide Check, Opens;
  }

  /** An approve that no idempotency key answers: when it grants, and which refusal it gives. */
  lemma ApproveExactly(d: Desk, id: string, x: Decision, env: Env)
    requires N.Valid(d.nonces) && !AnsweredByKey(d, id, x.idempotencyKey)
    ensures var (r, after) := ApproveApproval(d, id, x, env);
      var t := EnsureLoaded(d).requests;
      if id !in t then r == Err(NotFound) && after == EnsureLoaded(d)
      else
        && (r.Ok? <==> MayBeGranted(t[id], x, env) && t[id].request.nonce !in d.nonces.used)
        && (r == Err(Replay) <==> MayBeGranted(t[id], x, env) && t[id].request.nonce in d.nonces.used)
        && (r == Err(Gone) <==>
              || t[id].status == Lapsed
              || (t[id].status == Pending && RoleFits(x) && AnotherDecides(t[id], x) && x.token != ""
                  && t[id].request.expiresAt <= env.now))
        && (r.Err? ==> r.error in {Replay, Gone, Refused})
        && (r.Ok? ==>
              && after.requests == t[id := t[id].(status := Approved, decidedBy := x.approverKeyId)]
              && Tells(r.value, after.requests[id], env.now))
        && (if r.Ok? || (r == Err(Gone) && t[id].status == Pending) then Saves(d, after, env.saved)
            else after.file == d.file)
  {
    if id in EnsureLoaded(d).requests {
      var e := EnsureLoaded(d).requests[id];
      GateExactly(e, x, env);
      N.ConsumeKeepsValid(d.nonces, e.request.nonce, env.io);
      ViewTells(e.(status := Approved, decidedBy := x.approverKeyId), env.now);
    }
    hide MayBeGranted, AnotherDecides, ApproveGate, Tells, ViewOf, N.Consume, IsBlank, RoleFits;
  }

  /** A rejection goes by status and role alone, and leaves the decider where it presents no key. */
  lemma RejectExactly(d: Desk, id: string, x: Decision, env: Env)
    requires !AnsweredByKey(d, id, x.idempotencyKey)
    ensures var (r, after) := RejectApproval(d, id, x, env);
      var t := EnsureLoaded(d).requests;
      if id !in t then r == Err(NotFound) && after == EnsureLoaded(d)
      else
        && (r.Ok? <==> t[id].status == Pending && RoleFits(x))
        && (r.Err? ==> r == Err(Refused) && after == EnsureLoaded(d))
        && (r.Ok? ==>
              && after.requests.Keys == t.Keys && (forall k :: k in t && k != id ==> after.requests[k] == t[k])
              && after.requests[id].(decidedBy := "") == t[id].(status := Denied, decidedBy := "")
              && after.requests[id].decidedBy == (if x.approverKeyId == "" then t[id].decidedBy else x.approverKeyId)
              && after.nonces == d.nonces && Tells(r.value, after.requests[id], env.now) && Saves(d, after, env.saved))
  {
    if id in EnsureLoaded(d).requests {
      ViewTells(DeniedBy(EnsureLoaded(d).requests[id], x.approverKeyId), env.now);
    }
    hide Tells, ViewOf, IsBlank;
  }

  /** A blank idempotency key is refused whatever else the call says. */
  lemma BlankKeyRefused(d: Desk, id: string, x: Decision, env: Env)
    requires x.idempotencyKey.Some? && IsBlank(x.idempotencyKey.value)
    ensures ApproveApproval(d, id, x, env) == (Err(BadInput), d) == RejectApproval(d, id, x, env)
  {
  }

  /** A sweep expires exactly the pending requests whose time is up, and touches nothing else. */
  lemma SweepExactly(d: Desk, now: Instant, saved: bool, id: string)
    ensures var (expired, after) := SweepApprovals(d, now, saved);
      var t := EnsureLoaded(d).requests;
      && after.requests.Keys == t.Keys && after.nonces == d.nonces && after.idem == d.idem && Saves(d, after, saved)
      && (id in expired <==> id in t && t[id].status == Pending && t[id].request.expiresAt <= now)
      && (id in t ==> after.requests[id] == if id in expired then t[id].(status := Lapsed) else t[id])
  {
  }

  /** The queue on disk is what the next process finds, and is written only by a save that works. */
  lemma SavedThenLoaded(d: Desk, nonces: N.Store, saved: bool)
    ensures Save(d, saved).file == (if saved then Some(d.requests) else d.file)
    ensures EnsureLoaded(Desk(map[], map[], nonces, Save(d, true).file)).requests == d.requests
    ensures d.requests != map[] ==> EnsureLoaded(d) == d
  {
  }

  // ------------------------------------------------ minting

  /** The incident the caller expects, if it names one, is the request's. */
  predicate IncidentFits(e: Entry, x: Claim) {
    x.expectedIncident.Some? && !IsBlank(x.expectedIncident.value) ==> x.expectedIncident.value == e.request.incidentId
  }

  ghost predicate MayBeMinted(e: Entry, x: Claim) {
    e.status == Approved && (e.identityMode == "per_key" ==> e.decidedBy != "") && IncidentFits(e, x)
  }

  /** When a permit is minted, and which refusal is given instead. */
  lemma MintExactly(d: Desk, id: string, x: Claim, env: Env)
    requires N.Valid(d.nonces)
    ensures var (r, after) := VerifiedPermit(d, id, x, env);
      var t := EnsureLoaded(d).requests;
      if id !in t then r == Err(NotFound) && after == EnsureLoaded(d)
      else
        var opens := MayBeMinted(t[id], x) && env.now < t[id].request.expiresAt && Opens(t[id], x.token, x.actor, env);
        && (r.Ok? <==> opens && t[id].request.nonce + ":permit" !in d.nonces.used)
        && (r == Err(Replay) <==> opens && t[id].request.nonce + ":permit" in d.nonces.used)
        && (r == Err(Gone) <==> MayBeMinted(t[id], x) && x.token != "" && t[id].request.expiresAt <= env.now)
        && (r.Err? ==> r.error in {Replay, Gone, Refused})
        && after.requests == (if r == Err(Gone) then t[id := t[id].(status := Lapsed)] else t)
        && after.file == d.file && after.idem == d.idem && (r.Err? ==> after.nonces == d.nonces)
  {
    if id in EnsureLoaded(d).requests {
      var e := EnsureLoaded(d).requests[id];
      ChecksExactly(e, x.token, x.actor, env);
      N.ConsumeKeepsValid(d.nonces, PermitKey(e.request.nonce), env.io);
    }
    hide Check, Opens, N.Consume, IsBlank;
  }

  // ------------------------------------------------ from the request on

  /** Whatever the desk does afterwards, the raised request stands under its id with what was
      raised. */
  lemma RaisedStands(d: Desk, s: Step, steps: seq<Step>)
    requires s.DoRequest? && s.accepted && !IsBlank(s.actor) && s.env.secret != "" && FreshIds(d, [s] + steps)
    ensures s.approvalId in Run(d, [s] + steps).requests && Raised(Run(d, [s] + steps).requests[s.approvalId], s)
  {
    RequestExactly(d, s);
    assert ([s] + steps)[0] == s && ([s] + steps)[1..] == steps;
    LifecycleOverRuns(Apply(d, s), steps);
    hide RequestApproval, Raised, IsBlank;
    var e, f := Apply(d, s).requests[s.approvalId], Run(d, [s] + steps).requests[s.approvalId];
    assert Evolves(e, f);
    SameRaised(e, f, s);
  }

  lemma SameRaised(e: Entry, f: Entry, s: Step)
    requires s.DoRequest? && Raised(e, s) && Evolves(e, f)
    ensures Raised(f, s)
  {
  }

  /** Minting for a run: an incident that is named has to be the one the action was raised for, and
      naming that one never is what refuses the permit. */
  lemma MintForIncident(d: Desk, s: Step, steps: seq<Step>, x: Claim, env: Env)
    requires s.DoRequest? && s.accepted && !IsBlank(s.actor) && s.env.secret != "" && FreshIds(d, [s] + steps)
    ensures var after := Run(d, [s] + steps);
      && (VerifiedPermit(after, s.approvalId, x, env).0.Ok? && x.expectedIncident.Some? && !IsBlank(x.expectedIncident.value)
          ==> x.expectedIncident.value == s.a.incidentId)
      && VerifiedPermit(after, s.approvalId, x.(expectedIncident := Some(s.a.incidentId)), env) ==
           VerifiedPermit(after, s.approvalId, x.(expectedIncident := None), env)
  {
    RaisedStands(d, s, steps);
    var after := Run(d, [s] + steps);
    assert EnsureLoaded(after) == after;
    hide Run, N.Consume, Check, IsBlank;
  }
}
