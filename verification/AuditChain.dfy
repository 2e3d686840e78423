/** The hash-chained audit log (backend/app/services/audit.py): emission, verification, tamper
    evidence, and the file it survives restarts in. Hash and serialisers are arbitrary
    functions; tamper evidence exhibits two texts with the same hash instead of assuming that
    there are none. */
module AuditChains {
  import opened Wrappers
  import opened Text

  datatype Fields = Fields(eventType: string, actor: string, agent: string, inputHash: string,
                           evidenceIds: seq<string>, policy: map<string, string>, actionId: string,
                           approvalId: string, executionId: string, result: string)

  /** An event without its own hash. */
  datatype Body = Body(eventId: string, ordinal: nat, ts: string, incidentId: string, fields: Fields, prevHash: string)

  datatype AuditEvent = AuditEvent(body: Body, currHash: string)

  /** `contract` is the event model's own validation; `dump` and `parse` are the file lines. */
  datatype Codec = Codec(hash: string -> string, canonical: Body -> string, readBody: string -> Option<Body>,
                         contract: Body -> bool, dump: AuditEvent -> string, parse: string -> Option<AuditEvent>)

  /** What holds of SHA-256 in hex and of JSON text: 64 characters without a brace; an object
      opening with a brace, from which the body can be read back; a line that is not blank,
      from which an accepted event can be read back and which yields accepted events only. */
  ghost predicate Faithful(c: Codec) {
    && (forall s :: |c.hash(s)| == 64 && c.hash(s)[0] != '{')
    && (forall b :: c.canonical(b) != "" && c.canonical(b)[0] == '{' && c.readBody(c.canonical(b)) == Some(b))
    && (forall e: AuditEvent :: c.contract(e.body) && |e.currHash| == 64 ==>
          !IsBlank(c.dump(e)) && c.parse(c.dump(e)) == Some(e))
    && (forall s :: c.parse(s).Some? ==> c.contract(c.parse(s).value.body))
  }

  function LinkText(c: Codec, b: Body): string {
    b.prevHash + c.canonical(b)
  }

  function Link(c: Codec, b: Body): string {
    c.hash(LinkText(c, b))
  }

  // ------------------------------------------------ emission

  datatype AuditError = BadType | MissingExtra | Rejected | BadId | Unreadable | WrongOwner | NotVerified

  datatype Extra = Result_ | Agent_ | Policy_ | Action_ | Approval_ | Execution_

  function RequiredExtras(eventType: string): seq<Extra> {
    match eventType
    case "transition" => [Result_]
    case "tool.call" => [Agent_]
    case "policy.decision" => [Policy_, Action_]
    case "approval.request" => [Approval_, Action_]
    case "approval.approve" => [Approval_]
    case "approval.deny" => [Approval_]
    case "approval.expire" => [Approval_]
    case "approval.rejected" => [Approval_]
    case "permit.minted" => [Approval_, Action_]
    case "execution.start" => [Action_, Execution_]
    case "execution.finish" => [Action_, Execution_]
    case "execution.duplicate-suppressed" => [Action_, Execution_]
    case "verification.verdict" => [Execution_, Result_]
    case "rollback.start" => [Execution_]
    case "rollback.finish" => [Execution_]
    case "handoff" => [Agent_, Result_]
    case "rca.draft" => [Result_]
    case "rca.publish" => [Result_]
    case "eval.run" => [Result_]
    case _ => []
  }

  predicate Present(f: Fields, x: Extra) {
    match x
    case Result_ => !IsBlank(f.result)
    case Agent_ => !IsBlank(f.agent)
    case Policy_ => f.policy != map[]
    case Action_ => !IsBlank(f.actionId)
    case Approval_ => !IsBlank(f.approvalId)
    case Execution_ => !IsBlank(f.executionId)
  }

  predicate IsLowerOrDigit(ch: char) {
    'a' <= ch <= 'z' || '0' <= ch <= '9'
  }

  predicate ValidType(t: string) {
    0 < |t| <= 128 && IsLowerOrDigit(t[0]) &&
    forall i :: 0 < i < |t| ==> IsLowerOrDigit(t[i]) || t[i] in "._-"
  }

  /** Ids that may name a file. */
  predicate SafeId(id: string) {
    0 < |id| <= 128 && forall i :: 0 <= i < |id| ==> IsLowerOrDigit(id[i]) || 'A' <= id[i] <= 'Z' || id[i] in "_-"
  }

  function LastHash(events: seq<AuditEvent>): string {
    if events == [] then "" else events[|events| - 1].currHash
  }

  function Emit(c: Codec, incidentId: string, events: seq<AuditEvent>, f: Fields, eventId: string, ts: string)
    : Result<seq<AuditEvent>, AuditError>
  {
    if !ValidType(f.eventType) then Err(BadType)
    else if exists x :: x in RequiredExtras(f.eventType) && !Present(f, x) then Err(MissingExtra)
    else
      var b := Body(eventId, |events| + 1, ts, incidentId, f, LastHash(events));
      if !c.contract(b) then Err(Rejected) else Ok(events + [AuditEvent(b, Link(c, b))])
  }

  // ------------------------------------------------ verification

  datatype Reason = NoReason | OrderOwner | PrevLink | HashMismatch

  /** What verify finds wrong at a position, if anything. */
  function Fault(c: Codec, incidentId: string, events: seq<AuditEvent>, i: nat): Reason
    requires i < |events|
  {
    var e := events[i];
    if e.body.ordinal != i + 1 || e.body.incidentId != incidentId then OrderOwner
    else if e.body.prevHash != LastHash(events[..i]) then PrevLink
    else if e.currHash != Link(c, e.body) then HashMismatch
    else NoReason
  }

  ghost predicate Verifies(c: Codec, incidentId: string, events: seq<AuditEvent>) {
    forall i :: 0 <= i < |events| ==> Fault(c, incidentId, events, i) == NoReason
  }

  datatype Verdict = Verdict(valid: bool, checked: nat, firstBadSeq: Option<nat>, reason: Reason)

  /** The verdict accounts for the longest good prefix and the first fault after it. */
  ghost predicate Explains(v: Verdict, c: Codec, incidentId: string, events: seq<AuditEvent>) {
    && v.checked <= |events|
    && Verifies(c, incidentId, events[..v.checked])
    && (v.valid <==> v.checked == |events|)
    && (v.valid <==> Verifies(c, incidentId, events))
    && (v.valid ==> v.firstBadSeq == None && v.reason == NoReason)
    && (!v.valid ==>
          && v.checked < |events| && v.firstBadSeq == Some(events[v.checked].body.ordinal)
          && v.reason == Fault(c, incidentId, events, v.checked) && v.reason != NoReason)
    && (v.reason == OrderOwner <==>
          !v.valid && (events[v.checked].body.ordinal != v.checked + 1 || events[v.checked].body.incidentId != incidentId))
    && (v.reason == HashMismatch ==> events[v.checked].currHash != c.hash(events[v.checked].body.prevHash
                                                                          + c.canonical(events[v.checked].body)))
    && (v.reason == PrevLink ==>
          events[v.checked].body.prevHash != if v.checked == 0 then "" else events[v.checked - 1].currHash)
  }

  lemma PrefixFaults(c: Codec, incidentId: string, events: seq<AuditEvent>, n: nat, i: nat)
    requires i < n <= |events|
    ensures Fault(c, incidentId, events[..n], i) == Fault(c, incidentId, events, i)
  {
    assert events[..n][..i] == events[..i];
  }

  /** Cutting off the end goes unnoticed: every prefix of a good chain is a good chain. */
  lemma TruncationUndetected(c: Codec, incidentId: string, events: seq<AuditEvent>, n: nat)
    requires Verifies(c, incidentId, events) && n <= |events|
    ensures Verifies(c, incidentId, events[..n])
  {
    forall i | 0 <= i < n ensures Fault(c, incidentId, events[..n], i) == NoReason {
      PrefixFaults(c, incidentId, events, n, i);
    }
  }

  /** Which event types need which of the optional fields. */
  lemma ExtrasByField(t: string)
    ensures Result_ in RequiredExtras(t) <==>
      t in {"transition", "verification.verdict", "handoff", "rca.draft", "rca.publish", "eval.run"}
    ensures Agent_ in RequiredExtras(t) <==> t in {"tool.call", "handoff"}
    ensures Policy_ in RequiredExtras(t) <==> t == "policy.decision"
    ensures Action_ in RequiredExtras(t) <==>
      t in {"policy.decision", "approval.request", "permit.minted", "execution.start", "execution.finish",
            "execution.duplicate-suppressed"}
    ensures Approval_ in RequiredExtras(t) <==>
      t in {"approval.request", "approval.approve", "approval.deny", "approval.expire", "approval.rejected", "permit.minted"}
    ensures Execution_ in RequiredExtras(t) <==>
      t in {"execution.start", "execution.finish", "execution.duplicate-suppressed", "verification.verdict",
            "rollback.start", "rollback.finish"}
  {
  }

  /** The fields that the type of an event needs are not blank. */
  ghost predicate Complete(f: Fields) {
    && (Result_ in RequiredExtras(f.eventType) ==> !IsBlank(f.result))
    && (Agent_ in RequiredExtras(f.eventType) ==> !IsBlank(f.agent))
    && (Policy_ in RequiredExtras(f.eventType) ==> f.policy != map[])
    && (Action_ in RequiredExtras(f.eventType) ==> !IsBlank(f.actionId))
    && (Approval_ in RequiredExtras(f.eventType) ==> !IsBlank(f.approvalId))
    && (Execution_ in RequiredExtras(f.eventType) ==> !IsBlank(f.executionId))
  }

  /** The type is 1 to 128 small letters, digits, dots, underscores and dashes, the first one a
      letter or a digit. */
  ghost predicate TypeFits(t: string) {
    && 1 <= |t| <= 128 && t[0] !in "._-"
    && forall i :: 0 <= i < |t| ==> 'a' <= t[i] <= 'z' || '0' <= t[i] <= '9' || t[i] in "._-"
  }

  /** When an event is accepted, and what is then appended: the caller's id, time and fields at the
      next position of this incident's chain, linked to the hash of the last event. */
  lemma EmitExactly(c: Codec, incidentId: string, events: seq<AuditEvent>, f: Fields, eventId: string, ts: string)
    ensures var r := Emit(c, incidentId, events, f, eventId, ts);
      var prev := if |events| == 0 then "" else events[|events| - 1].currHash;
      var b := Body(eventId := eventId, ordinal := |events| + 1, ts := ts, incidentId := incidentId, fields := f,
                    prevHash := prev);
      && (r.Ok? <==> TypeFits(f.eventType) && Complete(f) && c.contract(b))
      && (r == Err(BadType) <==> !TypeFits(f.eventType))
      && (r == Err(MissingExtra) <==> TypeFits(f.eventType) && !Complete(f))
      && (r.Ok? ==> r.value == events + [AuditEvent(b, c.hash(prev + c.canonical(b)))])
  {
    assert ValidType(f.eventType) <==> TypeFits(f.eventType);
    hide ValidType, TypeFits;
    CompleteExactly(f);
    hide RequiredExtras, Present, Complete;
  }

  lemma CompleteExactly(f: Fields)
    ensures (forall x :: x in RequiredExtras(f.eventType) ==> Present(f, x)) <==> Complete(f)
  {
    hide RequiredExtras, IsBlank;
    var extras := RequiredExtras(f.eventType);
    if Complete(f) {
      forall x | x in extras ensures Present(f, x) {
      }
    }
  }

  /** An id may name a file if it is 1 to 128 letters, digits, underscores and dashes. */
  lemma SafeIdExactly(id: string)
    ensures SafeId(id) <==>
      1 <= |id| <= 128 && forall i :: 0 <= i < |id| ==>
        'a' <= id[i] <= 'z' || 'A' <= id[i] <= 'Z' || '0' <= id[i] <= '9' || id[i] in {'_', '-'}
  {
  }

  /** Emission appends one event, assigns its position, and keeps the chain verifiable. */
  lemma EmitKeepsVerified(c: Codec, incidentId: string, events: seq<AuditEvent>, f: Fields, eventId: string, ts: string)
    requires Verifies(c, incidentId, events)
    requires Emit(c, incidentId, events, f, eventId, ts).Ok?
    ensures var longer := Emit(c, incidentId, events, f, eventId, ts).value;
      && Verifies(c, incidentId, longer) && events <= longer && |longer| == |events| + 1
      && longer[|events|].body.fields == f && longer[|events|].body.ordinal == |longer|
  {
    var longer := Emit(c, incidentId, events, f, eventId, ts).value;
    assert longer[..|events|] == events;
    forall i | 0 <= i < |longer| ensures Fault(c, incidentId, longer, i) == NoReason {
      if i < |events| {
        PrefixFaults(c, incidentId, longer, |events|, i);
      }
    }
  }

  datatype Emission = Emission(f: Fields, eventId: string, ts: string)

  /** A history of emit calls; a refused one leaves the chain alone. */
  function Emitted(c: Codec, incidentId: string, calls: seq<Emission>): seq<AuditEvent> {
    if calls == [] then []
    else
      var before, last := Emitted(c, incidentId, calls[..|calls| - 1]), calls[|calls| - 1];
      match Emit(c, incidentId, before, last.f, last.eventId, last.ts)
      case Ok(events) => events
      case Err(_) => before
  }

  ghost predicate Accepted(c: Codec, events: seq<AuditEvent>) {
    forall i :: 0 <= i < |events| ==> c.contract(events[i].body) && |events[i].currHash| == 64
  }

  /** Every chain reachable through emit verifies. */
  lemma {:induction false} EmittedVerifies(c: Codec, incidentId: string, calls: seq<Emission>)
    requires Faithful(c)
    ensures Verifies(c, incidentId, Emitted(c, incidentId, calls)) && Accepted(c, Emitted(c, incidentId, calls))
  {
    if calls != [] {
      var before, last := Emitted(c, incidentId, calls[..|calls| - 1]), calls[|calls| - 1];
      EmittedVerifies(c, incidentId, calls[..|calls| - 1]);
      if Emit(c, incidentId, before, last.f, last.eventId, last.ts).Ok? {
        EmitKeepsVerified(c, incidentId, before, last.f, last.eventId, last.ts);
      }
    }
  }

  // ------------------------------------------------ tamper evidence

  ghost predicate Collides(c: Codec, x: string, y: string) {
    x != y && c.hash(x) == c.hash(y)
  }

  /** Equal hashed texts come from equal bodies: the hash in front is empty or 64 characters,
      and the brace tells where the body starts. */
  lemma LinkTextInjective(c: Codec, a: Body, b: Body)
    requires Faithful(c) && LinkText(c, a) == LinkText(c, b)
    requires a.prevHash == "" || exists x :: a.prevHash == c.hash(x)
    requires b.prevHash == "" || exists y :: b.prevHash == c.hash(y)
    ensures a == b
  {
    var s, t := LinkText(c, a), LinkText(c, b);
    assert a.prevHash == "" ==> s[0] == '{';
    assert b.prevHash == "" ==> t[0] == '{';
    assert a.prevHash != "" ==> |a.prevHash| == 64 && s[0] == a.prevHash[0] && s[0] != '{';
    assert b.prevHash != "" ==> |b.prevHash| == 64 && t[0] == b.prevHash[0] && t[0] != '{';
    assert c.canonical(a) == s[|a.prevHash|..] && c.canonical(b) == t[|b.prevHash|..];
    assert c.readBody(c.canonical(a)) == Some(a) && c.readBody(c.canonical(b)) == Some(b);
  }

  lemma PrevIsHash(c: Codec, incidentId: string, events: seq<AuditEvent>)
    requires Verifies(c, incidentId, events) && events != []
    ensures var b := events[|events| - 1].body;
      b.prevHash == "" || exists x :: b.prevHash == c.hash(x)
    ensures events[|events| - 1].body.ordinal == |events|
    ensures events[|events| - 1].currHash == Link(c, events[|events| - 1].body)
    ensures events[|events| - 1].body.prevHash == LastHash(events[..|events| - 1])
  {
    var n := |events|;
    assert Fault(c, incidentId, events, n - 1) == NoReason;
    if n > 1 {
      assert Fault(c, incidentId, events, n - 2) == NoReason;
      assert LastHash(events[..n - 1]) == c.hash(LinkText(c, events[n - 2].body));
    }
  }

  /** Tamper evidence: two chains that both verify and end in the same hash are the same chain,
      event by event, or they contain two different texts with the same hash. Neither the
      length nor the incident has to be known to agree. */
  lemma {:induction false} SameEndSameChain(c: Codec, idA: string, a: seq<AuditEvent>, idB: string, b: seq<AuditEvent>)
    returns (x: string, y: string)
    requires Faithful(c) && a != [] && b != [] && LastHash(a) == LastHash(b)
    requires Verifies(c, idA, a) && Verifies(c, idB, b)
    ensures a == b || Collides(c, x, y)
    decreases |a|
  {
    var m, n := |a| - 1, |b| - 1;
    PrevIsHash(c, idA, a);
    PrevIsHash(c, idB, b);
    x, y := LinkText(c, a[m].body), LinkText(c, b[n].body);
    if x == y {
      LinkTextInjective(c, a[m].body, b[n].body);
      assert a[m] == b[n] && m == n;
      if m > 0 {
        TruncationUndetected(c, idA, a, m);
        TruncationUndetected(c, idB, b, n);
        x, y := SameEndSameChain(c, idA, a[..m], idB, b[..n]);
      }
      assert a == a[..m] + [a[m]] && b == b[..n] + [b[n]];
    }
  }

  /** Any change to a verified chain that keeps its last hash makes verification fail, unless
      it exhibits a collision. */
  lemma TamperingDetected(c: Codec, incidentId: string, a: seq<AuditEvent>, tampered: seq<AuditEvent>)
    returns (x: string, y: string)
    requires Faithful(c) && Verifies(c, incidentId, a) && a != [] && tampered != a && tampered != []
    requires LastHash(tampered) == LastHash(a)
    ensures !Verifies(c, incidentId, tampered) || Collides(c, x, y)
  {
    x, y := "", "";
    if Verifies(c, incidentId, tampered) {
      x, y := SameEndSameChain(c, incidentId, a, incidentId, tampered);
    }
  }

  // ------------------------------------------------ the file

  function Dumped(c: Codec, events: seq<AuditEvent>): seq<string> {
    if events == [] then [] else Dumped(c, events[..|events| - 1]) + [c.dump(events[|events| - 1])]
  }

  function Saved(c: Codec, incidentId: string, events: seq<AuditEvent>): Result<seq<string>, AuditError> {
    if SafeId(incidentId) then Ok(Dumped(c, events)) else Err(BadId)
  }

  /** The events of the lines read so far, or the first error among them. */
  function Parsed(c: Codec, incidentId: string, lines: seq<string>): Result<seq<AuditEvent>, AuditError> {
    if lines == [] then Ok([])
    else match Parsed(c, incidentId, lines[..|lines| - 1])
      case Err(e) => Err(e)
      case Ok(events) =>
        var line := lines[|lines| - 1];
        if IsBlank(line) then Ok(events)
        else match c.parse(line)
          case None => Err(Unreadable)
          case Some(e) => if e.body.incidentId != incidentId then Err(WrongOwner) else Ok(events + [e])
  }

  /** The lines that are not blank, in order. */
  ghost function Written(lines: seq<string>): seq<string> {
    if lines == [] then []
    else Written(lines[..|lines| - 1]) + if IsBlank(lines[|lines| - 1]) then [] else [lines[|lines| - 1]]
  }

  /** A file reads as these events exactly if its lines that are not blank do, one by one and in order,
      and all are of this incident. */
  lemma {:induction false} ParsedExactly(c: Codec, incidentId: string, lines: seq<string>, events: seq<AuditEvent>)
    ensures Parsed(c, incidentId, lines) == Ok(events) <==>
      && |events| == |Written(lines)|
      && forall i :: 0 <= i < |events| ==>
           c.parse(Written(lines)[i]) == Some(events[i]) && events[i].body.incidentId == incidentId
    decreases |lines|
  {
    hide IsBlank;
    if lines != [] {
      var init, line := lines[..|lines| - 1], lines[|lines| - 1];
      if IsBlank(line) {
        ParsedExactly(c, incidentId, init, events);
      } else if events == [] {
        assert |Written(lines)| > 0;
      } else {
        var before, e := events[..|events| - 1], events[|events| - 1];
        ParsedExactly(c, incidentId, init, before);
        assert events == before + [e];
        assert forall i :: 0 <= i < |before| && i < |Written(init)| ==> Written(lines)[i] == Written(init)[i];
      }
    }
  }

  /** The load of a file succeeds with a chain exactly when the id may name a file, its lines
      read as that chain, and the chain verifies. */
  ghost predicate Loads(c: Codec, incidentId: string, lines: seq<string>, events: seq<AuditEvent>) {
    SafeId(incidentId) && Parsed(c, incidentId, lines) == Ok(events) && Verifies(c, incidentId, events)
  }

  lemma {:induction false} ParsedDumped(c: Codec, incidentId: string, events: seq<AuditEvent>)
    requires Faithful(c) && Accepted(c, events)
    requires forall i :: 0 <= i < |events| ==> events[i].body.incidentId == incidentId
    ensures Parsed(c, incidentId, Dumped(c, events)) == Ok(events)
  {
    if events != [] {
      var init, last := events[..|events| - 1], events[|events| - 1];
      ParsedDumped(c, incidentId, init);
      var lines := Dumped(c, events);
      assert lines[..|lines| - 1] == Dumped(c, init);
      assert events == init + [last];
    }
  }

  /** Restart resume: what emit built and save wrote, load gives back unchanged. */
  lemma SaveThenLoad(c: Codec, incidentId: string, calls: seq<Emission>)
    requires Faithful(c) && SafeId(incidentId)
    ensures var events := Emitted(c, incidentId, calls);
      Saved(c, incidentId, events).Ok? && Loads(c, incidentId, Saved(c, incidentId, events).value, events)
  {
    EmittedVerifies(c, incidentId, calls);
    var events := Emitted(c, incidentId, calls);
    forall i | 0 <= i < |events| ensures events[i].body.incidentId == incidentId {
      assert Fault(c, incidentId, events, i) == NoReason;
    }
    ParsedDumped(c, incidentId, events);
  }

  // ------------------------------------------------ the chain object

  class AuditChain {
    const codec: Codec
    const incidentId: string
    var events: seq<AuditEvent>

    constructor (codec: Codec, incidentId: string)
      ensures this.codec == codec && this.incidentId == incidentId && events == []
    {
      this.codec, this.incidentId := codec, incidentId;
      events := [];
    }

    method EmitEvent(f: Fields, eventId: string, ts: string) returns (r: Result<AuditEvent, AuditError>)
      modifies this
      ensures match Emit(codec, incidentId, old(events), f, eventId, ts)
        case Ok(longer) => events == longer && r == Ok(longer[|longer| - 1])
        case Err(e) => events == old(events) && r == Err(e)
    {
      if !ValidType(f.eventType) {
        return Err(BadType);
      }
      var extras := RequiredExtras(f.eventType);
      var i := 0;
      while i < |extras|
        invariant 0 <= i <= |extras| && forall j :: 0 <= j < i ==> Present(f, extras[j])
      {
        if !Present(f, extras[i]) {
          return Err(MissingExtra);
        }
        i := i + 1;
      }
      assert forall x :: x in extras ==> Present(f, x);
      var prev := if events != [] then events[|events| - 1].currHash else "";
      var b := Body(eventId, |events| + 1, ts, incidentId, f, prev);
      if !codec.contract(b) {
        return Err(Rejected);
      }
      var linked := AuditEvent(b, Link(codec, b));
      events := events + [linked];
      return Ok(linked);
    }

    method Verify() returns (v: Verdict)
      ensures Explains(v, codec, incidentId, events)
    {
      var prev := "";
      var position := 0;
      while position < |events|
        invariant 0 <= position <= |events| && prev == LastHash(events[..position])
        invariant forall i :: 0 <= i < position ==> Fault(codec, incidentId, events, i) == NoReason
      {
        var e := events[position];
        var reason :=
          if e.body.ordinal != position + 1 || e.body.incidentId != incidentId then OrderOwner
          else if e.body.prevHash != prev then PrevLink
          else if e.currHash != Link(codec, e.body) then HashMismatch
          else NoReason;
        if reason != NoReason {
          GoodPrefix(codec, incidentId, events, position);
          assert Fault(codec, incidentId, events, position) == reason;
          return Verdict(false, position, Some(e.body.ordinal), reason);
        }
        prev := e.currHash;
        position := position + 1;
      }
      assert events[..|events|] == events;
      return Verdict(true, |events|, None, NoReason);
    }

    method Save() returns (r: Result<seq<string>, AuditError>)
      ensures r == Saved(codec, incidentId, events)
    {
      if !SafeId(incidentId) {
        return Err(BadId);
      }
      var lines := [];
      var i := 0;
      while i < |events|
        invariant 0 <= i <= |events| && lines == Dumped(codec, events[..i])
      {
        assert events[..i + 1][..i] == events[..i];
        lines := lines + [codec.dump(events[i])];
        i := i + 1;
      }
      assert events[..i] == events;
      return Ok(lines);
    }

    static method Load(codec: Codec, incidentId: string, lines: seq<string>) returns (r: Result<AuditChain, AuditError>)
      ensures r.Ok? <==> exists events :: Loads(codec, incidentId, lines, events)
      ensures r.Ok? ==> fresh(r.value) && r.value.incidentId == incidentId && Loads(codec, incidentId, lines, r.value.events)
    {
      if !SafeId(incidentId) {
        return Err(BadId);
      }
      var chain := new AuditChain(codec, incidentId);
      var lineno := 0;
      while lineno < |lines|
        invariant 0 <= lineno <= |lines| && fresh(chain) && chain.incidentId == incidentId && chain.codec == codec
        invariant Parsed(codec, incidentId, lines[..lineno]) == Ok(chain.events)
      {
        var line := lines[lineno];
        assert lines[..lineno + 1][..lineno] == lines[..lineno];
        if !IsBlank(line) {
          var e := codec.parse(line);
          if e.None? {
            ParsedError(codec, incidentId, lines, lineno + 1);
            return Err(Unreadable);
          }
          if e.value.body.incidentId != incidentId {
            ParsedError(codec, incidentId, lines, lineno + 1);
            return Err(WrongOwner);
          }
          chain.events := chain.events + [e.value];
        }
        lineno := lineno + 1;
      }
      assert lines[..lineno] == lines;
      var verdict := chain.Verify();
      if !verdict.valid {
        return Err(NotVerified);
      }
      assert Loads(codec, incidentId, lines, chain.events);
      return Ok(chain);
    }
  }

  lemma GoodPrefix(c: Codec, incidentId: string, events: seq<AuditEvent>, n: nat)
    requires n <= |events| && forall i :: 0 <= i < n ==> Fault(c, incidentId, events, i) == NoReason
    ensures Verifies(c, incidentId, events[..n])
  {
    forall i | 0 <= i < n ensures Fault(c, incidentId, events[..n], i) == NoReason {
      PrefixFaults(c, incidentId, events, n, i);
    }
  }

  /** An error in the lines read so far is the answer for the whole file. */
  lemma {:induction false} ParsedError(c: Codec, incidentId: string, lines: seq<string>, n: nat)
    requires n <= |lines| && Parsed(c, incidentId, lines[..n]).Err?
    ensures Parsed(c, incidentId, lines).Err?
    decreases |lines| - n
  {
    if n < |lines| {
      assert lines[..n + 1][..n] == lines[..n];
      ParsedError(c, incidentId, lines, n + 1);
    } else {
      assert lines[..n] == lines;
    }
  }
}
