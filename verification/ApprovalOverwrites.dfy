/** Runs in which one handler's decision is written over another's: the failing cases behind
    the conditions of ApprovalRaces and ApprovalEyes. */
module ApprovalOverwrites {
  import opened Wrappers
  import opened Text
  import N = NonceStores
  import opened Approval
  import opened Approvals
  import opened ApprovalProtocol
  import opened ApprovalSteps

  /** A pending request that one caller may reject and another may approve right now. */
  ghost predicate Contested(s: Sys, id: string, rejecting: Decision, approving: Decision, env: Env) {
    && id in s.desk.requests && MayReject(s.desk.requests[id], rejecting)
    && ApproveGate(s.desk.requests[id], approving, env) == Proceed && env.now == s.now
    && N.Consume(s.desk.nonces, s.desk.requests[id].request.nonce, N.IoOk).0
    && Idle(s, 1) && Idle(s, 2)
  }

  function Approving(id: string, e: Entry, x: Decision, burned: bool): Flight {
    Flight(ToApprove, id, e.request, x.approverKeyId, x.identityMode == PER_KEY, true, burned)
  }

  // ------------------------------------------------ single steps

  lemma NothingToLoad(d: Desk)
    requires d.requests != map[]
    ensures EnsureLoaded(d) == d
  {
  }

  lemma DeclineNext(s: Sys, id: string, x: Decision)
    requires id in s.desk.requests && MayReject(s.desk.requests[id], x) && Idle(s, 1)
    ensures var e := BeginDecline(1, id, x);
      Enabled(s, e) && SameBut(Next(s, e), s, s.desk, s.flights, s.writes[1 := Denying(id, x.approverKeyId)])
  {
    hide MayReject, EnsureLoaded;
    NothingToLoad(s.desk);
  }

  lemma ApproveNext(s: Sys, id: string, x: Decision, env: Env)
    requires id in s.desk.requests && ApproveGate(s.desk.requests[id], x, env) == Proceed && env.now == s.now && Idle(s, 2)
    ensures var e := BeginApprove(2, id, x, env);
      && Enabled(s, e)
      && SameBut(Next(s, e), s, s.desk, s.flights[2 := Approving(id, s.desk.requests[id], x, false)], s.writes)
  {
    hide ApproveGate, EnsureLoaded;
    NothingToLoad(s.desk);
  }

  /** The burn and the status of a grant. */
  lemma GrantNext(s: Sys, id: string, x: Decision)
    requires id in s.desk.requests && 2 in s.flights && s.flights[2] == Approving(id, s.desk.requests[id], x, false)
    requires N.Consume(s.desk.nonces, s.desk.requests[id].request.nonce, N.IoOk).0
    ensures Enabled(s, BurnKey(2, N.IoOk)) && Enabled(Next(s, BurnKey(2, N.IoOk)), Commit(2))
    ensures var s1 := Next(s, BurnKey(2, N.IoOk));
      var t := Next(s1, Commit(2));
      && s1.desk.requests == s.desk.requests && s1.writes == s.writes
      && 2 in s1.flights && s1.flights[2] == Approving(id, s.desk.requests[id], x, true)
      && t.desk.requests == Put(s.desk.requests, id, Approved)
      && t.flights == s.flights - {2} && t.writes == s.writes[2 := Deciding(id, x.approverKeyId, Approved)]
  {
    hide Next, Enabled, N.Consume, Put;
    BurnsOnce(s, 2, N.IoOk);
    Commits(Next(s, BurnKey(2, N.IoOk)), 2);
  }

  /** The status of a grant whose burn is done. */
  lemma CommitNext(s: Sys, id: string, x: Decision, e: Entry)
    requires 2 in s.flights && s.flights[2] == Approving(id, e, x, true)
    ensures Enabled(s, Commit(2))
    ensures var t := Next(s, Commit(2));
      && t.desk.requests == Put(s.desk.requests, id, Approved)
      && t.writes == s.writes[2 := Deciding(id, x.approverKeyId, Approved)]
  {
    hide Next, Enabled, Put;
    Commits(s, 2);
  }

  lemma DecidesNext(s: Sys, tid: nat)
    requires tid in s.writes && s.writes[tid].Deciding?
    ensures Enabled(s, WriteDecider(tid))
    ensures SameBut(Next(s, WriteDecider(tid)), s, s.desk.(requests := PutDecider(s.desk.requests, s.writes[tid])),
                    s.flights, s.writes[tid := Saving(map[])])
  {
    hide PutDecider;
  }

  /** What a save leaves on the disk is what the next process loads. */
  lemma SavedAndCrashed(s: Sys, tid: nat)
    requires IsSaving(s, tid)
    ensures var save, crash := SaveTable(tid, true), Crash(Some(s.desk.requests), true);
      && Enabled(s, save) && Enabled(Next(s, save), crash)
      && EnsureLoaded(Next(Next(s, save), crash).desk).requests == s.desk.requests
  {
    hide N.Reopen;
  }

  lemma BothBegin(s: Sys, id: string, rejecting: Decision, approving: Decision, env: Env)
    requires Contested(s, id, rejecting, approving, env)
    ensures var e1, e2 := BeginDecline(1, id, rejecting), BeginApprove(2, id, approving, env);
      && Enabled(s, e1) && Enabled(Next(s, e1), e2)
      && SameBut(Next(Next(s, e1), e2), s, s.desk, s.flights[2 := Approving(id, s.desk.requests[id], approving, false)],
                 s.writes[1 := Denying(id, rejecting.approverKeyId)])
  {
    hide Next, Enabled, ApproveGate, N.Consume, MayReject;
    DeclineNext(s, id, rejecting);
    ApproveNext(Next(s, BeginDecline(1, id, rejecting)), id, approving, env);
  }

  lemma RunFour(s: Sys, e1: Event, e2: Event, e3: Event, e4: Event)
    requires Enabled(s, e1) && Enabled(Next(s, e1), e2) && Enabled(Next(Next(s, e1), e2), e3)
    requires Enabled(Next(Next(Next(s, e1), e2), e3), e4)
    ensures Legal(s, [e1, e2, e3, e4]) && Run(s, [e1, e2, e3, e4]) == Next(Next(Next(Next(s, e1), e2), e3), e4)
  {
    hide Next, Enabled, Legal, Run;
    RunThree(Next(s, e1), e2, e3, e4);
    RunCons(s, e1, [e2, e3, e4]);
    assert [e1] + [e2, e3, e4] == [e1, e2, e3, e4];
  }

  // ------------------------------------------------ the failing runs

  /** A rejection is lost: while the approve handler is between its decision and its assignments
      the request is denied, and these turn it into approved. */
  lemma DenialLost(s: Sys, id: string, rejecting: Decision, approving: Decision, env: Env)
    requires Contested(s, id, rejecting, approving, env)
    ensures var e1, e2 := BeginDecline(1, id, rejecting), BeginApprove(2, id, approving, env);
      var first := [e1, e2, WriteStatus(1), WriteDecider(1)];
      var second := [BurnKey(2, N.IoOk), Commit(2), WriteDecider(2)];
      && Legal(s, first) && Legal(Run(s, first), second)
      && id in Run(s, first).desk.requests && id in Run(Run(s, first), second).desk.requests
      && Run(s, first).desk.requests[id] == DeniedBy(s.desk.requests[id], rejecting.approverKeyId)
      && Run(Run(s, first), second).desk.requests[id] ==
           s.desk.requests[id].(status := Approved, decidedBy := approving.approverKeyId)
  {
    hide Next, Enabled, Legal, Run, N.Consume, ApproveGate, MayReject;
    BothBegin(s, id, rejecting, approving, env);
    var e1, e2 := BeginDecline(1, id, rejecting), BeginApprove(2, id, approving, env);
    var s2 := Next(Next(s, e1), e2);
    Denies(s2, 1, id, rejecting.approverKeyId);
    var s3 := Next(s2, WriteStatus(1));
    DecidesNext(s3, 1);
    RunFour(s, e1, e2, WriteStatus(1), WriteDecider(1));
    var s4 := Next(s3, WriteDecider(1));
    GrantNext(s4, id, approving);
    var s6 := Next(Next(s4, BurnKey(2, N.IoOk)), Commit(2));
    DecidesNext(s6, 2);
    RunThree(s4, BurnKey(2, N.IoOk), Commit(2), WriteDecider(2));
  }

  /** A grant is lost: the slow reject turns it into denied, and its decider with it. */
  lemma GrantLost(s: Sys, id: string, rejecting: Decision, approving: Decision, env: Env)
    requires Contested(s, id, rejecting, approving, env)
    ensures var e1, e2 := BeginDecline(1, id, rejecting), BeginApprove(2, id, approving, env);
      var first := [e1, e2, BurnKey(2, N.IoOk), Commit(2)];
      var second := [WriteDecider(2), WriteStatus(1), WriteDecider(1)];
      && Legal(s, first) && Legal(Run(s, first), second)
      && id in Run(s, first).desk.requests && id in Run(Run(s, first), second).desk.requests
      && Run(s, first).desk.requests[id] == s.desk.requests[id].(status := Approved)
      && Run(Run(s, first), second).desk.requests[id] ==
           DeniedBy(s.desk.requests[id].(decidedBy := approving.approverKeyId), rejecting.approverKeyId)
  {
    hide Next, Enabled, Legal, Run, N.Consume, ApproveGate, MayReject;
    BothBegin(s, id, rejecting, approving, env);
    var e1, e2 := BeginDecline(1, id, rejecting), BeginApprove(2, id, approving, env);
    var s2 := Next(Next(s, e1), e2);
    GrantNext(s2, id, approving);
    RunFour(s, e1, e2, BurnKey(2, N.IoOk), Commit(2));
    var s4 := Next(Next(s2, BurnKey(2, N.IoOk)), Commit(2));
    DecidesNext(s4, 2);
    var s5 := Next(s4, WriteDecider(2));
    Denies(s5, 1, id, rejecting.approverKeyId);
    var s6 := Next(s5, WriteStatus(1));
    DecidesNext(s6, 1);
    RunThree(s4, WriteDecider(2), WriteStatus(1), WriteDecider(1));
  }

  /** A request is approved by its own raiser. She withdraws it while another approves it: both
      assignments of the grant fall between the two of the rejection, and the entry ends up
      approved and decided by the raising key. The table saved then is what a later process
      loads, and minting cannot tell it from a request that the other one decided. */
  lemma OwnApproval(s: Sys, id: string, rejecting: Decision, approving: Decision, env: Env)
    requires Contested(s, id, rejecting, approving, env) && rejecting.approverKeyId != "" && approving.approverKeyId != ""
    requires rejecting.approverKeyId == s.desk.requests[id].requesterKeyId
    ensures var e := s.desk.requests[id].(status := Approved, decidedBy := s.desk.requests[id].requesterKeyId);
      var e1, e2 := BeginDecline(1, id, rejecting), BeginApprove(2, id, approving, env);
      var first := [e1, e2, BurnKey(2, N.IoOk), WriteStatus(1)];
      var second := [Commit(2), WriteDecider(2), WriteDecider(1)];
      && Legal(s, first) && Legal(Run(s, first), second)
      && var t := Run(Run(s, first), second);
         var restart := [SaveTable(2, true), Crash(Some(t.desk.requests), true)];
         && id in t.desk.requests && t.desk.requests[id] == e
         && Legal(t, restart) && EnsureLoaded(Run(t, restart).desk).requests == t.desk.requests
         && forall claim, at :: MintGate(e, claim, at) == MintGate(e.(decidedBy := approving.approverKeyId), claim, at)
  {
    hide Next, Enabled, Legal, Run, N.Consume, ApproveGate, MayReject, EnsureLoaded, Check;
    BothBegin(s, id, rejecting, approving, env);
    var e1, e2 := BeginDecline(1, id, rejecting), BeginApprove(2, id, approving, env);
    var s2 := Next(Next(s, e1), e2);
    GrantNext(s2, id, approving);
    var s3 := Next(s2, BurnKey(2, N.IoOk));
    Denies(s3, 1, id, rejecting.approverKeyId);
    RunFour(s, e1, e2, BurnKey(2, N.IoOk), WriteStatus(1));
    var s4 := Next(s3, WriteStatus(1));
    CommitNext(s4, id, approving, s.desk.requests[id]);
    var s5 := Next(s4, Commit(2));
    DecidesNext(s5, 2);
    var s6 := Next(s5, WriteDecider(2));
    DecidesNext(s6, 1);
    RunThree(s4, Commit(2), WriteDecider(2), WriteDecider(1));
    var t := Next(s6, WriteDecider(1));
    SavedAndCrashed(t, 2);
    RunTwo(t, SaveTable(2, true), Crash(Some(t.desk.requests), true));
  }

  /** A half grant reaches the disk: another handler saves between the two assignments, and the
      next process loads a request approved by nobody. */
  lemma HalfGrantSaved(s: Sys, id: string, rejecting: Decision, approving: Decision, env: Env)
    requires Contested(s, id, rejecting, approving, env) && IsSaving(s, 0)
    ensures var first := [BeginApprove(2, id, approving, env), BurnKey(2, N.IoOk), Commit(2)];
      && Legal(s, first)
      && var t := Run(s, first);
         var restart := [SaveTable(0, true), Crash(Some(t.desk.requests), true)];
         && Legal(t, restart)
         && var loaded := EnsureLoaded(Run(t, restart).desk).requests;
            id in loaded && loaded[id] == s.desk.requests[id].(status := Approved)
  {
    hide Next, Enabled, Legal, Run, N.Consume, ApproveGate, MayReject, EnsureLoaded;
    ApproveNext(s, id, approving, env);
    var e1 := BeginApprove(2, id, approving, env);
    var s1 := Next(s, e1);
    GrantNext(s1, id, approving);
    RunThree(s, e1, BurnKey(2, N.IoOk), Commit(2));
    var t := Next(Next(s1, BurnKey(2, N.IoOk)), Commit(2));
    SavedAndCrashed(t, 0);
    RunTwo(t, SaveTable(0, true), Crash(Some(t.desk.requests), true));
  }

  // ------------------------------------------------ a request that is contested

  lemma {:induction false} ZerosAreHex(n: nat)
    ensures HexDigits(seq(n, _ => '0'))
  {
    if n > 0 {
      ZerosAreHex(n - 1);
      assert seq(n, _ => '0')[1..] == seq(n - 1, _ => '0');
    }
  }

  /** One request raised with alice's key from the start: alice may withdraw it while bob, with
      another key, may approve it. */
  lemma ContestedRequest() returns (events: seq<Event>, id: string, rejecting: Decision, approving: Decision, env: Env)
    ensures Legal(Start(0.0), events) && Contested(Run(Start(0.0), events), id, rejecting, approving, env)
    ensures approving.identityMode == PER_KEY && approving.approverKeyId == "key-bob"
    ensures IsSaving(Run(Start(0.0), events), 0) && Run(Start(0.0), events).desk.requests[id].decidedBy == ""
    ensures rejecting.approverKeyId == "key-alice" == Run(Start(0.0), events).desk.requests[id].requesterKeyId
  {
    var crypto := Crypto((secret, text) => "mac", text => "digest", at => "time");
    env := Env(crypto, "secret", 0.0, N.IoOk, true);
    var a := Action("act", "inc", "restart", "pod", "web", "prod", "default", "{}");
    var nonce := seq(32, _ => '0');
    ZerosAreHex(32);
    var e := Raise(0, a, true, "alice", 600.0, "key-alice", PER_KEY, "id", nonce, env);
    id := "id";
    rejecting := Decision("alice", "", "approver", None, false, None, false, "key-alice", PER_KEY);
    approving := Decision("bob", "mac", "approver", None, false, None, false, "key-bob", PER_KEY);
    events := [e];
    RunOne(Start(0.0), e);
    RaisedContested(e, rejecting, approving, env);
  }

  lemma RaisedContested(e: Event, rejecting: Decision, approving: Decision, env: Env)
    requires e.Raise? && e.tid == 0 && e.accepted && e.actor == "alice" && e.ttl == 600.0 && e.requesterKeyId == "key-alice"
    requires e.identityMode == PER_KEY && e.env == env && env.now == 0.0 && env.secret != "" && Enabled(Start(0.0), e)
    requires forall secret, text :: env.crypto.hmac(secret, text) == "mac"
    requires rejecting == Decision("alice", "", "approver", None, false, None, false, "key-alice", PER_KEY)
    requires approving == Decision("bob", "mac", "approver", None, false, None, false, "key-bob", PER_KEY)
    ensures Contested(Next(Start(0.0), e), e.approvalId, rejecting, approving, env)
    ensures Next(Start(0.0), e).desk.requests[e.approvalId].requesterKeyId == "key-alice"
    ensures IsSaving(Next(Start(0.0), e), 0) && Next(Start(0.0), e).desk.requests[e.approvalId].decidedBy == ""
  {
    hide ScopeOf, HexDigits;
    StripUnpadded("alice");
    assert N.Reading([]) == [];
    var s := Next(Start(0.0), e);
    assert "key-bob" != "key-alice" by { assert "key-bob"[4] != "key-alice"[4]; }
    assert ApproveGate(s.desk.requests[e.approvalId], approving, env) == Proceed;
  }
}
