/** HMAC approval tokens (backend/app/services/approval.py): issuing, verifying, and what a
    token is bound to. The MAC, the parameter digest and the timestamp text are arbitrary
    functions; a claim that would need them to be collision-free exhibits the collision. */
module Approval {
  import opened Wrappers
  import opened Text
  import opened NonceStores

  datatype Crypto = Crypto(hmac: (string, string) -> string, digest: string -> string, isoformat: Instant -> string)

  datatype Action = Action(actionId: string, incidentId: string, actionType: string, resourceType: string,
                           resourceId: string, environment: string, namespace: string, parameters: string)

  datatype ApprovalRequest = ApprovalRequest(approvalId: string, incidentId: string, actionId: string,
                                             actor: string, paramsHash: string, scope: string,
                                             expiresAt: Instant, nonce: string)

  datatype ApprovalError = MissingToken | Expired | WrongActor | ParametersDiffer | ScopeMismatch
                         | BadSignature | Replayed | EmptySecret | BlankActor

  function ScopeOf(a: Action): string {
    Join([a.actionType, a.resourceType, a.resourceId, a.environment, a.namespace], ':')
  }

  function Mac(c: Crypto, secret: string, parts: seq<string>): string {
    c.hmac(secret, Join(parts, '|'))
  }

  /** The fields in front of the nonce in the signed text. */
  function BoundFields(c: Crypto, r: ApprovalRequest): (fields: seq<string>)
    ensures |fields| == 5
  {
    [r.actionId, r.actor, r.paramsHash, r.scope, c.isoformat(r.expiresAt)]
  }

  function SignedText(c: Crypto, r: ApprovalRequest): string {
    Join(BoundFields(c, r) + [r.nonce], '|')
  }

  /** `approvalId` and `nonce` are the fresh random values drawn by the source. */
  function Issue(c: Crypto, a: Action, actor: string, secret: string, now: Instant, ttl: real,
                 approvalId: string, nonce: string): Result<(ApprovalRequest, string), ApprovalError> {
    if secret == "" then Err(EmptySecret)
    else if IsBlank(actor) then Err(BlankActor)
    else
      var r := ApprovalRequest(approvalId, a.incidentId, a.actionId, actor, c.digest(a.parameters),
                               ScopeOf(a), now + ttl, nonce);
      Ok((r, Mac(c, secret, BoundFields(c, r) + [nonce])))
  }

  /** Everything verify checks before it touches the nonce store. */
  function Check(c: Crypto, token: string, r: ApprovalRequest, a: Action, actor: string, secret: string,
                 now: Instant): Option<ApprovalError> {
    if token == "" then Some(MissingToken)
    else if now >= r.expiresAt then Some(Expired)
    else if actor != r.actor then Some(WrongActor)
    else if c.digest(a.parameters) != r.paramsHash then Some(ParametersDiffer)
    else if ScopeOf(a) != r.scope || a.actionId != r.actionId then Some(ScopeMismatch)
    else if Mac(c, secret, BoundFields(c, r) + [r.nonce]) != token then Some(BadSignature)
    else None
  }

  function Verify(c: Crypto, token: string, r: ApprovalRequest, a: Action, actor: string, secret: string,
                  now: Instant, store: Store, burn: bool, io: Io): (Result<ApprovalRequest, ApprovalError>, Store) {
    match Check(c, token, r, a, actor, secret, now)
    case Some(e) => (Err(e), store)
    case None =>
      if !burn then (Ok(r), store)
      else
        var (ok, after) := Consume(store, r.nonce, io);
        if ok then (Ok(r), after) else (Err(Replayed), store)
  }

  /** A token opens its own request exactly while that request is unexpired, once. */
  lemma IssuedTokenWorksOnce(c: Crypto, a: Action, actor: string, secret: string, now: Instant, ttl: real,
                             approvalId: string, nonce: string, later: Instant, store: Store, io: Io)
    requires Issue(c, a, actor, secret, now, ttl, approvalId, nonce).Ok?
    requires Valid(store) && nonce !in store.used
    ensures var (r, token) := Issue(c, a, actor, secret, now, ttl, approvalId, nonce).value;
      var (first, after) := Verify(c, token, r, a, actor, secret, later, store, true, io);
      && (first.Ok? <==> token != "" && later < now + ttl)
      && (first.Ok? ==> Verify(c, token, r, a, actor, secret, later, after, true, io) == (Err(Replayed), after))
      && (first.Err? ==> after == store)
  {
    ConsumeKeepsValid(store, nonce, io);
  }

  // ------------------------------------------------ what a token is bound to

  ghost predicate Collision(c: Crypto, secret: string, x: string, y: string) {
    x != y && c.hmac(secret, x) == c.hmac(secret, y)
  }

  /** The part after the last separator is determined by the joined text. */
  lemma LastFieldDetermined(x: string, m: string, y: string, n: string, sep: char)
    requires x + [sep] + m == y + [sep] + n
    requires sep !in m && sep !in n
    ensures x == y && m == n
  {
    var s := x + [sep] + m;
    var t := y + [sep] + n;
    assert s[|x|] == sep && t[|y|] == sep;
    assert |x| == |y|;
    assert x == s[..|x|] && y == t[..|y|];
    assert m == s[|x| + 1..] && n == t[|y| + 1..];
  }

  /** A separator inside a field lets the same text be read as other fields. */
  lemma {:induction false} OtherReading(p: seq<string>, sep: char, i: nat) returns (q: seq<string>)
    requires |p| >= 2 && i < |p| && sep in p[i]
    ensures |q| == |p| && q != p && Join(q, sep) == Join(p, sep)
  {
    var k :| 0 <= k < |p[i]| && p[i][k] == sep;
    var before, after := p[i][..k], p[i][k + 1..];
    assert p[i] == before + [sep] + after;
    if i == 0 {
      q := [before, after + [sep] + p[1]] + p[2..];
      assert q[1..] == [after + [sep] + p[1]] + p[2..];
      assert p[1..] == [p[1]] + p[2..];
      JoinHead(after, p[1], p[2..], sep);
    } else if |p| == 2 {
      q := [p[0] + [sep] + before, after];
      assert Join(q, sep) == p[0] + [sep] + before + [sep] + after;
    } else {
      var rest := OtherReading(p[1..], sep, i - 1);
      q := [p[0]] + rest;
      assert q[1..] == rest;
    }
  }

  lemma JoinHead(x: string, y: string, rest: seq<string>, sep: char)
    ensures Join([x + [sep] + y] + rest, sep) == x + [sep] + Join([y] + rest, sep)
  {
    assert ([x + [sep] + y] + rest)[1..] == rest && ([y] + rest)[1..] == rest;
  }

  /** The signed text pins its fields down exactly when none of them holds the separator. */
  lemma FieldsPinnedExactly(p: seq<string>)
    requires |p| >= 2
    ensures (forall q | |q| == |p| && Join(q, '|') == Join(p, '|') :: q == p) <==> (forall f :: f in p ==> '|' !in f)
  {
    if forall f :: f in p ==> '|' !in f {
      forall q | |q| == |p| && Join(q, '|') == Join(p, '|') ensures q == p {
        JoinUnique(p, q, '|');
      }
    } else {
      var i: nat :| i < |p| && '|' in p[i];
      var q := OtherReading(p, '|', i);
    }
  }

  /** A token issued for `r0` that passes against a stored request `r` was issued for the
      nonce of `r`, and for exactly its signed fields when the issued ones hold no '|'; or
      two different texts with the same MAC are at hand. */
  lemma TokenBinding(c: Crypto, a0: Action, actor0: string, secret: string, now0: Instant, ttl0: real,
                     id0: string, nonce0: string,
                     r: ApprovalRequest, a: Action, actor: string, now: Instant)
    requires Issue(c, a0, actor0, secret, now0, ttl0, id0, nonce0).Ok?
    requires '|' !in nonce0 && '|' !in r.nonce
    requires Check(c, Issue(c, a0, actor0, secret, now0, ttl0, id0, nonce0).value.1, r, a, actor, secret, now).None?
    ensures var r0 := Issue(c, a0, actor0, secret, now0, ttl0, id0, nonce0).value.0;
      || Collision(c, secret, SignedText(c, r0), SignedText(c, r))
      || (&& r.nonce == r0.nonce
          && ((forall f :: f in BoundFields(c, r0) ==> '|' !in f) ==>
                && BoundFields(c, r) == BoundFields(c, r0)
                && a.actionId == a0.actionId && actor == actor0 && ScopeOf(a) == ScopeOf(a0)
                && c.digest(a.parameters) == c.digest(a0.parameters)))
  {
    var r0 := Issue(c, a0, actor0, secret, now0, ttl0, id0, nonce0).value.0;
    if SignedText(c, r0) == SignedText(c, r) {
      var p, q := BoundFields(c, r0), BoundFields(c, r);
      JoinSnoc(p, nonce0, '|');
      JoinSnoc(q, r.nonce, '|');
      LastFieldDetermined(Join(p, '|'), nonce0, Join(q, '|'), r.nonce, '|');
      if forall f :: f in p ==> '|' !in f {
        JoinUnique(p, q, '|');
        assert p[0] == q[0] && p[1] == q[1] && p[2] == q[2] && p[3] == q[3];
      }
    }
  }
}
