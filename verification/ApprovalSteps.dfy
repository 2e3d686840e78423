/** The calls of the approval desk, left alone, are runs of the concurrent machine. */
module ApprovalSteps {
  import opened Wrappers
  import opened Text
  import N = NonceStores
  import opened Approvals
  import opened ApprovalProtocol

  /** Everything a call can see of the system but its history. */
  predicate SameBut(t: Sys, s: Sys, desk: Desk, flights: map<nat, Flight>, writes: map<nat, Write>) {
    t.desk == desk && t.now == s.now && t.flights == flights && t.writes == writes
  }

  lemma ApproveBegins(s: Sys, id: string, x: Decision, env: Env, tid: nat)
    requires env.now == s.now && Idle(s, tid) && ProduceApproval(s.desk, id, x, env).0.Ok?
    ensures var d := EnsureLoaded(s.desk);
      && Enabled(s, BeginApprove(tid, id, x, env))
      && id in d.requests
      && SameBut(Next(s, BeginApprove(tid, id, x, env)), s, d,
                 s.flights[tid := Flight(ToApprove, id, d.requests[id].request, x.approverKeyId, x.identityMode == PER_KEY,
                                         true, false)], s.writes)
      && Next(s, BeginApprove(tid, id, x, env)).done == s.done
      && N.Consume(d.nonces, d.requests[id].request.nonce, env.io).0
      && ProduceApproval(s.desk, id, x, env).1 ==
           Grant(d.(nonces := N.Consume(d.nonces, d.requests[id].request.nonce, env.io).1), id, x.approverKeyId, env.saved)
  {
    hide ApproveGate, N.Consume, EnsureLoaded;
  }

  lemma BurnsOnce(s: Sys, tid: nat, io: N.Io)
    requires tid in s.flights && !s.flights[tid].burned && N.Consume(s.desk.nonces, Key(UseOf(s.flights[tid])), io).0
    ensures Enabled(s, BurnKey(tid, io))
    ensures var t, f := Next(s, BurnKey(tid, io)), s.flights[tid];
      && SameBut(t, s, s.desk.(nonces := N.Consume(s.desk.nonces, Key(UseOf(f)), io).1),
                 s.flights[tid := f.(burned := true)], s.writes)
      && t.done == s.done
  {
    hide N.Consume, Key;
  }

  lemma Commits(s: Sys, tid: nat)
    requires tid in s.flights && s.flights[tid].burned && s.flights[tid].kind == ToApprove && s.flights[tid].live
    ensures Enabled(s, Commit(tid))
    ensures var t, f := Next(s, Commit(tid)), s.flights[tid];
      && SameBut(t, s, s.desk.(requests := Put(s.desk.requests, f.id, Approved)), s.flights - {tid},
                 s.writes[tid := Deciding(f.id, f.keyId, Approved)])
      && t.done == s.done + multiset{UseOf(f)}
  {
    hide Put;
  }

  /** From the second assignment on. */
  lemma DecidesAndSaves(s: Sys, tid: nat, saved: bool)
    requires tid in s.writes && s.writes[tid].Deciding?
    ensures Enabled(s, WriteDecider(tid)) && Enabled(Next(s, WriteDecider(tid)), SaveTable(tid, saved))
    ensures var t := Next(Next(s, WriteDecider(tid)), SaveTable(tid, saved));
      && SameBut(t, s, Save(s.desk.(requests := PutDecider(s.desk.requests, s.writes[tid])), saved), s.flights,
                 s.writes - {tid})
      && t.done == s.done
  {
    hide PutDecider;
  }

  /** An uninterrupted approve is decide, burn, assign status, assign decider, save. */
  lemma ApproveIsFiveEvents(s: Sys, id: string, x: Decision, env: Env, tid: nat)
    requires env.now == s.now && Idle(s, tid) && ProduceApproval(s.desk, id, x, env).0.Ok?
    ensures var events := [BeginApprove(tid, id, x, env), BurnKey(tid, env.io), Commit(tid)]
                          + [WriteDecider(tid), SaveTable(tid, env.saved)];
      && Legal(s, events)
      && Run(s, events).desk == ProduceApproval(s.desk, id, x, env).1
      && Run(s, events).done == s.done + multiset{(ToApprove, EnsureLoaded(s.desk).requests[id].request.nonce)}
  {
    hide Next, Enabled, Legal, Run, N.Consume, ProduceApproval, Put, PutDecider;
    ApproveBegins(s, id, x, env, tid);
    GrantedInTwo(EnsureLoaded(s.desk).requests, id, x.approverKeyId);
    var s1 := Next(s, BeginApprove(tid, id, x, env));
    BurnsOnce(s1, tid, env.io);
    var s2 := Next(s1, BurnKey(tid, env.io));
    Commits(s2, tid);
    var s3 := Next(s2, Commit(tid));
    DecidesAndSaves(s3, tid, env.saved);
    RunThree(s, BeginApprove(tid, id, x, env), BurnKey(tid, env.io), Commit(tid));
    RunTwo(s3, WriteDecider(tid), SaveTable(tid, env.saved));
    RunTwice(s, [BeginApprove(tid, id, x, env), BurnKey(tid, env.io), Commit(tid)],
             [WriteDecider(tid), SaveTable(tid, env.saved)]);
  }

  lemma MintBegins(s: Sys, id: string, x: Claim, env: Env, tid: nat)
    requires env.now == s.now && Idle(s, tid) && VerifiedPermit(s.desk, id, x, env).0.Ok?
    ensures var d := EnsureLoaded(s.desk);
      && Enabled(s, BeginMint(tid, id, x, env)) && id in d.requests
      && SameBut(Next(s, BeginMint(tid, id, x, env)), s, d,
                 s.flights[tid := Flight(ToMint, id, d.requests[id].request, "", false, true, false)], s.writes)
      && Next(s, BeginMint(tid, id, x, env)).done == s.done
      && N.Consume(d.nonces, PermitKey(d.requests[id].request.nonce), env.io).0
      && VerifiedPermit(s.desk, id, x, env).1 ==
           d.(nonces := N.Consume(d.nonces, PermitKey(d.requests[id].request.nonce), env.io).1)
  {
    hide MintGate, N.Consume, EnsureLoaded;
  }

  /** An uninterrupted mint is decide, burn, done. */
  lemma MintIsThreeEvents(s: Sys, id: string, x: Claim, env: Env, tid: nat)
    requires env.now == s.now && Idle(s, tid) && VerifiedPermit(s.desk, id, x, env).0.Ok?
    ensures var events := [BeginMint(tid, id, x, env), BurnKey(tid, env.io), Commit(tid)];
      && Legal(s, events)
      && Run(s, events).desk == VerifiedPermit(s.desk, id, x, env).1
      && Run(s, events).done == s.done + multiset{(ToMint, EnsureLoaded(s.desk).requests[id].request.nonce)}
  {
    hide Legal, Run, N.Consume, VerifiedPermit;
    MintBegins(s, id, x, env, tid);
    var s1 := Next(s, BeginMint(tid, id, x, env));
    BurnsOnce(s1, tid, env.io);
    MintCommits(Next(s1, BurnKey(tid, env.io)), tid);
    hide Next, Enabled;
    RunThree(s, BeginMint(tid, id, x, env), BurnKey(tid, env.io), Commit(tid));
  }

  lemma MintCommits(s: Sys, tid: nat)
    requires tid in s.flights && s.flights[tid].burned && s.flights[tid].kind == ToMint
    ensures Enabled(s, Commit(tid))
    ensures Next(s, Commit(tid)).desk == s.desk && Next(s, Commit(tid)).done == s.done + multiset{UseOf(s.flights[tid])}
  {
  }

  lemma RejectDecides(s: Sys, id: string, x: Decision, env: Env, tid: nat)
    requires Idle(s, tid) && ProduceRejection(s.desk, id, x, env).0.Ok?
    ensures var d := EnsureLoaded(s.desk);
      && Enabled(s, BeginDecline(tid, id, x)) && id in d.requests
      && SameBut(Next(s, BeginDecline(tid, id, x)), s, d, s.flights, s.writes[tid := Denying(id, x.approverKeyId)])
      && ProduceRejection(s.desk, id, x, env).1 ==
           Save(d.(requests := d.requests[id := DeniedBy(d.requests[id], x.approverKeyId)]), env.saved)
  {
    hide EnsureLoaded, MayReject;
  }

  lemma Denies(s: Sys, tid: nat, id: string, keyId: string)
    requires tid in s.writes && s.writes[tid] == Denying(id, keyId)
    ensures Enabled(s, WriteStatus(tid))
    ensures SameBut(Next(s, WriteStatus(tid)), s, s.desk.(requests := Put(s.desk.requests, id, Denied)), s.flights,
                    s.writes[tid := Deciding(id, keyId, Denied)])
  {
    hide Put;
  }

  lemma GrantedInTwo(t: Table, id: string, keyId: string)
    requires id in t
    ensures PutDecider(Put(t, id, Approved), Deciding(id, keyId, Approved)) ==
      t[id := t[id].(status := Approved, decidedBy := keyId)]
  {
  }

  lemma DeniedInTwo(t: Table, id: string, keyId: string)
    requires id in t
    ensures PutDecider(Put(t, id, Denied), Deciding(id, keyId, Denied)) == t[id := DeniedBy(t[id], keyId)]
  {
  }

  /** An uninterrupted reject is decide, assign status, assign decider, save. */
  lemma RejectIsFourEvents(s: Sys, id: string, x: Decision, env: Env, tid: nat)
    requires Idle(s, tid) && ProduceRejection(s.desk, id, x, env).0.Ok?
    ensures var events := [BeginDecline(tid, id, x), WriteStatus(tid)] + [WriteDecider(tid), SaveTable(tid, env.saved)];
      Legal(s, events) && Run(s, events).desk == ProduceRejection(s.desk, id, x, env).1
  {
    hide Next, Enabled, Legal, Run, ProduceRejection, Put, PutDecider;
    RejectDecides(s, id, x, env, tid);
    DeniedInTwo(EnsureLoaded(s.desk).requests, id, x.approverKeyId);
    Denies(Next(s, BeginDecline(tid, id, x)), tid, id, x.approverKeyId);
    var s2 := Next(Next(s, BeginDecline(tid, id, x)), WriteStatus(tid));
    DecidesAndSaves(s2, tid, env.saved);
    RunTwo(s, BeginDecline(tid, id, x), WriteStatus(tid));
    RunTwo(s2, WriteDecider(tid), SaveTable(tid, env.saved));
    RunTwice(s, [BeginDecline(tid, id, x), WriteStatus(tid)], [WriteDecider(tid), SaveTable(tid, env.saved)]);
  }

  lemma LapseBegins(s: Sys, id: string, x: Decision, env: Env, tid: nat)
    requires env.now == s.now && Idle(s, tid) && id in EnsureLoaded(s.desk).requests
    requires ApproveGate(EnsureLoaded(s.desk).requests[id], x, env) == Expire
    ensures var e := BeginApprove(tid, id, x, env);
      Enabled(s, e) && SameBut(Next(s, e), s, EnsureLoaded(s.desk), s.flights, s.writes[tid := Lapsing(id)])
    ensures ProduceApproval(s.desk, id, x, env) ==
      (Err(Gone), Save(EnsureLoaded(s.desk).(requests := Put(EnsureLoaded(s.desk).requests, id, Lapsed)), env.saved))
  {
    hide ApproveGate, EnsureLoaded;
  }

  lemma LapsesAndSaves(s: Sys, tid: nat, saved: bool)
    requires tid in s.writes && s.writes[tid].Lapsing?
    ensures Enabled(s, WriteStatus(tid)) && Enabled(Next(s, WriteStatus(tid)), SaveTable(tid, saved))
    ensures Next(Next(s, WriteStatus(tid)), SaveTable(tid, saved)).desk ==
      Save(s.desk.(requests := Put(s.desk.requests, s.writes[tid].id, Lapsed)), saved)
  {
    hide Put;
  }

  /** An approve that finds the request out of time is decide, assign status, save. */
  lemma LapseIsThreeEvents(s: Sys, id: string, x: Decision, env: Env, tid: nat)
    requires env.now == s.now && Idle(s, tid) && id in EnsureLoaded(s.desk).requests
    requires ApproveGate(EnsureLoaded(s.desk).requests[id], x, env) == Expire
    ensures var events := [BeginApprove(tid, id, x, env), WriteStatus(tid), SaveTable(tid, env.saved)];
      && Legal(s, events) && Run(s, events).desk == ProduceApproval(s.desk, id, x, env).1
      && ProduceApproval(s.desk, id, x, env).0 == Err(Gone)
  {
    hide ApproveGate, ProduceApproval, Next, Enabled, Legal, Run, Put;
    LapseBegins(s, id, x, env, tid);
    LapsesAndSaves(Next(s, BeginApprove(tid, id, x, env)), tid, env.saved);
    RunThree(s, BeginApprove(tid, id, x, env), WriteStatus(tid), SaveTable(tid, env.saved));
  }

  lemma SavesAfter(s: Sys, tid: nat, saved: bool)
    requires IsSaving(s, tid)
    ensures Enabled(s, SaveTable(tid, saved)) && Next(s, SaveTable(tid, saved)).desk == Save(s.desk, saved)
  {
  }

  lemma RaiseBegins(s: Sys, e: Event)
    requires e.Raise? && Enabled(s, e) && Raised(s.desk, e).0.Ok?
    ensures IsSaving(Next(s, e), e.tid) && Next(s, e).desk == Raised(s.desk, e).1
  {
    hide EnsureLoaded;
  }

  /** An uninterrupted request is raise, save. */
  lemma RaiseIsTwoEvents(s: Sys, e: Event)
    requires e.Raise? && Enabled(s, e)
    requires RequestApproval(s.desk, e.a, e.accepted, e.actor, e.ttl, e.requesterKeyId, e.identityMode, e.approvalId,
                             e.nonce, e.env).0.Ok?
    ensures var events := [e, SaveTable(e.tid, e.env.saved)];
      && Legal(s, events)
      && Run(s, events).desk ==
           RequestApproval(s.desk, e.a, e.accepted, e.actor, e.ttl, e.requesterKeyId, e.identityMode, e.approvalId,
                           e.nonce, e.env).1
  {
    RaiseBegins(s, e);
    hide Next, Enabled, Legal, Run, EnsureLoaded;
    SavesAfter(Next(s, e), e.tid, e.env.saved);
    RunTwo(s, e, SaveTable(e.tid, e.env.saved));
  }

  lemma SweepBegins(s: Sys, at: Instant, tid: nat)
    requires Idle(s, tid)
    ensures Enabled(s, SweepAll(tid, at)) && IsSaving(Next(s, SweepAll(tid, at)), tid)
    ensures Next(s, SweepAll(tid, at)).desk ==
      EnsureLoaded(s.desk).(requests := Swept(EnsureLoaded(s.desk).requests, at))
  {
    hide EnsureLoaded, Swept;
  }

  /** An uninterrupted sweep is sweep, save. */
  lemma SweepIsTwoEvents(s: Sys, at: Instant, tid: nat, saved: bool)
    requires Idle(s, tid)
    ensures var events := [SweepAll(tid, at), SaveTable(tid, saved)];
      Legal(s, events) && Run(s, events).desk == SweepApprovals(s.desk, at, saved).1
  {
    SweepBegins(s, at, tid);
    hide Next, Enabled, Legal, Run, EnsureLoaded, Swept;
    SavesAfter(Next(s, SweepAll(tid, at)), tid, saved);
    RunTwo(s, SweepAll(tid, at), SaveTable(tid, saved));
  }

  /** After a crash no handler is left, and the desk is that of a new process: it knows the nonces
      that stand in the log, if that can be read, and the requests that the file holds. */
  lemma CrashRestarts(s: Sys, file: Option<Table>, readable: bool, nonce: string)
    requires Enabled(s, Crash(file, readable))
    ensures var t := Next(s, Crash(file, readable));
      && t.flights == map[] && t.writes == map[] && t.desk.idem == map[]
      && EnsureLoaded(t.desk).requests == (if file.Some? then file.value else map[])
      && (nonce in t.desk.nonces.used <==>
            readable && nonce != "" && exists i :: 0 <= i < |s.desk.nonces.log| && Strip(s.desk.nonces.log[i]) == nonce)
  {
    N.ReopenExactly(s.desk.nonces.log, readable, nonce);
    hide N.Reopen, Strip;
  }
}
