/** The per-key identity store and key resolution (backend/app/routers/auth.py), and what they
    add to the approval routes: the two humans behind a per-key approval. */
module KeyStores {
  import opened Wrappers
  import opened Text
  import NonceStores
  import opened Approval
  import opened Approvals
  import opened ApprovalLifecycle

  /** An object of the file, `None` standing for a field that is missing or of the wrong type. */
  datatype RawEntry = NotAnObject
    | RawEntry(keyId: Option<string>, digest: Option<string>, owner: Option<string>, roles: Option<seq<Option<string>>>)

  datatype KeyFile = Absent | Unreadable | NotJson | NotAList | Listing(raw: seq<RawEntry>)

  datatype KeyEntry = KeyEntry(keyId: string, digest: string, owner: string, roles: seq<string>)

  datatype StoreError = Corrupt | BadEntry | DuplicateId | DuplicateDigest | DuplicateOwner

  datatype AuthError = KeyMissing | KeyRejected | StoreBroken(reason: StoreError)

  datatype Identity = Identity(keyId: string, owner: string, roles: seq<string>, mode: string)

  const BOOTSTRAP_IDENTITY: Identity := Identity(BOOTSTRAP, BOOTSTRAP, [], BOOTSTRAP)

  // ------------------------------------------------ one entry

  predicate IsHexDigit(c: char) {
    '0' <= c <= '9' || 'a' <= c <= 'f' || 'A' <= c <= 'F'
  }

  /** Digits with single underscores between them. */
  predicate HexRun(s: string) {
    s != "" && IsHexDigit(s[0]) && (|s| == 1 || HexRun(if s[1] == '_' then s[2..] else s[1..]))
  }

  /** What `int(s, 16)` accepts: surrounding blanks, a sign and a `0x` prefix are allowed. */
  predicate ParsesAsHex(s: string) {
    var t := Strip(s);
    var u := if t != "" && (t[0] == '+' || t[0] == '-') then t[1..] else t;
    HexRun(u) || (|u| > 2 && u[0] == '0' && (u[1] == 'x' || u[1] == 'X') && HexRun(if u[2] == '_' then u[3..] else u[2..]))
  }

  ghost predicate HexGroups(groups: seq<string>) {
    groups != [] && forall i :: 0 <= i < |groups| ==> groups[i] != "" && forall c :: c in groups[i] ==> IsHexDigit(c)
  }

  lemma {:induction false} RunGroups(s: string) returns (groups: seq<string>)
    requires HexRun(s)
    ensures HexGroups(groups) && s == Join(groups, '_')
    decreases |s|
  {
    hide IsHexDigit;
    if |s| == 1 {
      groups := [s];
    } else if s[1] == '_' {
      var rest := RunGroups(s[2..]);
      groups := [[s[0]]] + rest;
      assert groups[1..] == rest;
    } else {
      var rest := RunGroups(s[1..]);
      groups := [[s[0]] + rest[0]] + rest[1..];
      JoinFirst(s[0], rest);
    }
  }

  lemma JoinFirst(c: char, rest: seq<string>)
    requires rest != []
    ensures Join([[c] + rest[0]] + rest[1..], '_') == [c] + Join(rest, '_')
  {
    assert ([[c] + rest[0]] + rest[1..])[1..] == rest[1..];
  }

  lemma {:induction false} GroupsRun(groups: seq<string>)
    requires HexGroups(groups)
    ensures HexRun(Join(groups, '_'))
    decreases |groups|, |groups[0]|
  {
    var s := Join(groups, '_');
    assert groups[0][0] in groups[0];
    if |groups[0]| > 1 {
      var rest := [groups[0][1..]] + groups[1..];
      GroupsRun(rest);
      assert [groups[0][0]] + rest[0] == groups[0] && rest[1..] == groups[1..];
      assert groups == [[groups[0][0]] + rest[0]] + rest[1..];
      JoinFirst(groups[0][0], rest);
      assert rest[0][0] in groups[0] && s[1..] == Join(rest, '_');
    } else if |groups| > 1 {
      GroupsRun(groups[1..]);
      assert s == [groups[0][0]] + "_" + Join(groups[1..], '_');
      assert s[2..] == Join(groups[1..], '_');
    }
  }

  /** The number syntax, as the language reference has it (section "Integer literals" of the Python
      language reference, with a sign and blanks around). */
  ghost predicate SpellsHex(s: string, sign: string, prefix: string, groups: seq<string>) {
    && sign in {"", "+", "-"} && prefix in {"", "0x", "0X", "0x_", "0X_"} && HexGroups(groups)
    && Strip(s) == sign + prefix + Join(groups, '_')
  }

  lemma HexSyntaxExactly(s: string)
    ensures ParsesAsHex(s) <==> exists sign, prefix, groups :: SpellsHex(s, sign, prefix, groups)
  {
    var t := Strip(s);
    hide Strip, IsHexDigit;
    if ParsesAsHex(s) {
      HexSpelled(s);
    }
    if sign, prefix, groups :| SpellsHex(s, sign, prefix, groups) {
      SpelledHex(s, sign, prefix, groups);
    }
  }

  lemma HexSpelled(s: string)
    requires ParsesAsHex(s)
    ensures exists sign, prefix, groups :: SpellsHex(s, sign, prefix, groups)
  {
    var t := Strip(s);
    hide Strip, IsHexDigit;
    var sign := if t != "" && (t[0] == '+' || t[0] == '-') then [t[0]] else "";
    var u := t[|sign|..];
    assert t == sign + u;
    if HexRun(u) {
      var groups := RunGroups(u);
      assert t == sign + "" + Join(groups, '_');
      assert SpellsHex(s, sign, "", groups);
    } else {
      var prefix := if u[2] == '_' then u[..3] else u[..2];
      var groups := RunGroups(u[|prefix|..]);
      assert t == sign + prefix + Join(groups, '_');
      assert prefix == [u[0], u[1]] || prefix == [u[0], u[1], u[2]];
      assert SpellsHex(s, sign, prefix, groups);
    }
  }

  lemma SpelledHex(s: string, sign: string, prefix: string, groups: seq<string>)
    requires SpellsHex(s, sign, prefix, groups)
    ensures ParsesAsHex(s)
  {
    var t, run := Strip(s), Join(groups, '_');
    GroupsRun(groups);
    assert IsHexDigit(run[0]) && run != "";
    hide Strip, HexRun, Join, HexGroups;
    var u := prefix + run;
    assert t == sign + u && u != "" && u[0] == (if prefix == "" then run[0] else '0');
    assert u[0] != '+' && u[0] != '-';
    assert (if t[0] == '+' || t[0] == '-' then t[1..] else t) == u;
    if prefix == "" {
      assert u == run;
    } else if |prefix| == 2 {
      assert u[2] == run[0] && u[2..] == run;
    } else {
      assert u[2] == '_' && u[3..] == run;
    }
  }

  predicate Filled(field: Option<string>) {
    field.Some? && !IsBlank(field.value)
  }

  predicate WellShaped(e: RawEntry) {
    && e.RawEntry? && Filled(e.keyId) && e.digest.Some? && |e.digest.value| == 64 && ParsesAsHex(e.digest.value)
    && Filled(e.owner) && e.roles.Some? && forall i :: 0 <= i < |e.roles.value| ==> Filled(e.roles.value[i])
  }

  function Shaped(e: RawEntry): (k: KeyEntry)
    requires WellShaped(e)
  {
    KeyEntry(e.keyId.value, Lower(e.digest.value), e.owner.value,
             seq(|e.roles.value|, i requires 0 <= i < |e.roles.value| => e.roles.value[i].value))
  }

  // ------------------------------------------------ the whole file

  predicate Apart(a: KeyEntry, b: KeyEntry) {
    a.keyId != b.keyId && a.digest != b.digest && a.owner != b.owner
  }

  ghost predicate Unambiguous(entries: seq<KeyEntry>) {
    forall i, j :: 0 <= i < j < |entries| ==> Apart(entries[i], entries[j])
  }

  ghost predicate AllShaped(raw: seq<RawEntry>) {
    forall i :: 0 <= i < |raw| ==> WellShaped(raw[i])
  }

  /** The entries of a file whose objects all have the right shape, in order. */
  ghost function Entries(raw: seq<RawEntry>): (entries: seq<KeyEntry>)
    requires AllShaped(raw)
    ensures |entries| == |raw| && forall i :: 0 <= i < |raw| ==> entries[i] == Shaped(raw[i])
  {
    seq(|raw|, i requires 0 <= i < |raw| => Shaped(raw[i]))
  }

  ghost predicate Accepted(file: KeyFile) {
    file.Listing? && AllShaped(file.raw) && Unambiguous(Entries(file.raw))
  }

  /** What makes an object of the file acceptable: an id, an owner, a digest of 64 characters that
      reads as a number, and a list of roles, none of these texts blank. */
  ghost predicate IsKeyObject(e: RawEntry) {
    && e.RawEntry? && e.keyId.Some? && e.digest.Some? && e.owner.Some? && e.roles.Some?
    && !IsBlank(e.keyId.value) && !IsBlank(e.owner.value) && |e.digest.value| == 64
    && (exists sign, prefix, groups :: SpellsHex(e.digest.value, sign, prefix, groups))
    && forall i :: 0 <= i < |e.roles.value| ==> e.roles.value[i].Some? && !IsBlank(e.roles.value[i].value)
  }

  /** A file is accepted exactly if it lists such objects and no two of them share an id, an owner
      or, up to the case of its letters, a digest. */
  lemma AcceptedExactly(file: KeyFile)
    ensures Accepted(file) <==>
      && file.Listing? && (forall i :: 0 <= i < |file.raw| ==> IsKeyObject(file.raw[i]))
      && forall i, j :: 0 <= i < j < |file.raw| ==>
           && file.raw[i].keyId != file.raw[j].keyId && file.raw[i].owner != file.raw[j].owner
           && Lower(file.raw[i].digest.value) != Lower(file.raw[j].digest.value)
  {
    if file.Listing? {
      forall i | 0 <= i < |file.raw| ensures WellShaped(file.raw[i]) <==> IsKeyObject(file.raw[i]) {
        KeyObjectExactly(file.raw[i]);
      }
      hide WellShaped, SpellsHex, Lower, IsBlank;
      if AllShaped(file.raw) {
        var entries := Entries(file.raw);
        assert forall i, j :: 0 <= i < j < |file.raw| ==>
          (Apart(entries[i], entries[j]) <==>
             && file.raw[i].keyId != file.raw[j].keyId && file.raw[i].owner != file.raw[j].owner
             && Lower(file.raw[i].digest.value) != Lower(file.raw[j].digest.value));
      }
    }
  }

  lemma KeyObjectExactly(e: RawEntry)
    ensures WellShaped(e) <==> IsKeyObject(e)
  {
    hide IsBlank, ParsesAsHex, SpellsHex;
    if e.RawEntry? && e.digest.Some? {
      HexSyntaxExactly(e.digest.value);
    }
  }

  /** The first entry that repeats an earlier one, and the field it repeats. */
  ghost predicate RepeatedAt(entries: seq<KeyEntry>, n: nat, e: StoreError) {
    && n < |entries| && Unambiguous(entries[..n])
    && match e
       case DuplicateId => exists i :: 0 <= i < n && entries[i].keyId == entries[n].keyId
       case DuplicateDigest =>
         && (forall i :: 0 <= i < n ==> entries[i].keyId != entries[n].keyId)
         && exists i :: 0 <= i < n && entries[i].digest == entries[n].digest
       case DuplicateOwner =>
         && (forall i :: 0 <= i < n ==> entries[i].keyId != entries[n].keyId && entries[i].digest != entries[n].digest)
         && exists i :: 0 <= i < n && entries[i].owner == entries[n].owner
       case _ => false
  }

  method ShapeAll(raw: seq<RawEntry>) returns (r: Result<seq<KeyEntry>, StoreError>)
    ensures r.Ok? <==> AllShaped(raw)
    ensures r.Ok? ==> r.value == Entries(raw)
    ensures r.Err? ==> r.error == BadEntry
  {
    var entries: seq<KeyEntry> := [];
    var n := 0;
    while n < |raw|
      invariant 0 <= n <= |raw| && |entries| == n
      invariant forall i :: 0 <= i < n ==> WellShaped(raw[i]) && entries[i] == Shaped(raw[i])
    {
      if !WellShaped(raw[n]) {
        return Err(BadEntry);
      }
      entries := entries + [Shaped(raw[n])];
      n := n + 1;
    }
    return Ok(entries);
  }

  method CheckUnique(entries: seq<KeyEntry>) returns (e: Option<StoreError>)
    ensures e.None? <==> Unambiguous(entries)
    ensures e.Some? ==> exists n :: RepeatedAt(entries, n, e.value)
  {
    var seenIds: set<string>, seenDigests: set<string>, seenOwners: set<string> := {}, {}, {};
    var n := 0;
    while n < |entries|
      invariant 0 <= n <= |entries| && Unambiguous(entries[..n])
      invariant seenIds == set i | 0 <= i < n :: entries[i].keyId
      invariant seenDigests == set i | 0 <= i < n :: entries[i].digest
      invariant seenOwners == set i | 0 <= i < n :: entries[i].owner
    {
      var item := entries[n];
      if item.keyId in seenIds {
        assert RepeatedAt(entries, n, DuplicateId);
        return Some(DuplicateId);
      }
      if item.digest in seenDigests {
        assert RepeatedAt(entries, n, DuplicateDigest);
        return Some(DuplicateDigest);
      }
      if item.owner in seenOwners {
        assert RepeatedAt(entries, n, DuplicateOwner);
        return Some(DuplicateOwner);
      }
      seenIds := seenIds + {item.keyId};
      seenDigests := seenDigests + {item.digest};
      seenOwners := seenOwners + {item.owner};
      n := n + 1;
    }
    assert entries[..n] == entries;
    return None;
  }

  /** `Ok(None)` is the fallback of a missing or unreadable file; a file that is there is
      either accepted whole or refused. */
  method LoadKeyStore(file: KeyFile) returns (r: Result<Option<seq<KeyEntry>>, StoreError>)
    ensures r == Ok(None) <==> file.Absent? || file.Unreadable?
    ensures r.Ok? && r.value.Some? <==> Accepted(file)
    ensures Accepted(file) ==> r.value.value == Entries(file.raw)
  {
    match file
    case Absent => return Ok(None);
    case Unreadable => return Ok(None);
    case NotJson => return Err(Corrupt);
    case NotAList => return Err(Corrupt);
    case Listing(raw) =>
      var shaped := ShapeAll(raw);
      if shaped.Err? {
        return Err(shaped.error);
      }
      var repeated := CheckUnique(shaped.value);
      if repeated.Some? {
        return Err(repeated.value);
      }
      return Ok(Some(shaped.value));
  }

  // ------------------------------------------------ who is calling

  /** What a request presents and what the server compares it with; `sha` is the hex digest. */
  datatype Caller = Caller(provided: Option<string>, expected: string, file: KeyFile, sha: string -> string)

  function IdentityOf(e: KeyEntry): Identity {
    Identity(e.keyId, e.owner, e.roles, PER_KEY)
  }

  predicate BootstrapKey(c: Caller) {
    c.provided.Some? && c.expected != "" && c.provided.value == c.expected
  }

  /** The caller holds the key of this entry of an accepted store. */
  ghost predicate Holds(c: Caller, e: KeyEntry) {
    Accepted(c.file) && Filled(c.provided) && e in Entries(c.file.raw) && e.digest == c.sha(c.provided.value)
  }

  /** The identity a caller gets, and when. */
  ghost predicate Resolves(c: Caller, id: Identity) {
    || (exists e :: Holds(c, e) && id == IdentityOf(e))
    || (&& id == BOOTSTRAP_IDENTITY && Filled(c.provided) && BootstrapKey(c)
        && (c.file.Absent? || c.file.Unreadable? || (Accepted(c.file) && forall e :: !Holds(c, e))))
  }

  method ResolveIdentity(c: Caller) returns (r: Result<Identity, AuthError>)
    ensures r.Ok? <==> exists id :: Resolves(c, id)
    ensures r.Ok? ==> Resolves(c, r.value)
    ensures r == Err(KeyMissing) <==> !Filled(c.provided)
    ensures r.Err? && r.error.StoreBroken? <==>
      Filled(c.provided) && !c.file.Absent? && !c.file.Unreadable? && !Accepted(c.file)
  {
    if c.provided.None? || IsBlank(c.provided.value) {
      return Err(KeyMissing);
    }
    var loaded := LoadKeyStore(c.file);
    if loaded.Err? {
      return Err(StoreBroken(loaded.error));
    }
    if loaded.value.None? {
      if c.expected == "" || c.provided.value != c.expected {
        return Err(KeyRejected);
      }
      assert Resolves(c, BOOTSTRAP_IDENTITY);
      return Ok(BOOTSTRAP_IDENTITY);
    }
    var entries, digest := loaded.value.value, c.sha(c.provided.value);
    var n := 0;
    while n < |entries|
      invariant 0 <= n <= |entries|
      invariant forall i :: 0 <= i < n ==> entries[i].digest != digest
    {
      if digest == entries[n].digest {
        assert Holds(c, entries[n]) && Resolves(c, IdentityOf(entries[n]));
        return Ok(IdentityOf(entries[n]));
      }
      n := n + 1;
    }
    if c.expected != "" && c.provided.value == c.expected {
      assert Resolves(c, BOOTSTRAP_IDENTITY);
      return Ok(BOOTSTRAP_IDENTITY);
    }
    return Err(KeyRejected);
  }

  lemma HolderUnique(c: Caller, e: KeyEntry, f: KeyEntry)
    requires Holds(c, e) && Holds(c, f)
    ensures e == f
  {
    hide AllShaped, WellShaped, Shaped, Unambiguous;
    ApartUnlessSame(Entries(c.file.raw), e, f);
  }

  /** Two different entries of an unambiguous list agree in nothing. */
  lemma ApartUnlessSame(entries: seq<KeyEntry>, e: KeyEntry, f: KeyEntry)
    requires Unambiguous(entries) && e in entries && f in entries
    ensures e == f || Apart(e, f)
  {
    var i :| 0 <= i < |entries| && entries[i] == e;
    var j :| 0 <= j < |entries| && entries[j] == f;
    assert i < j ==> Apart(entries[i], entries[j]);
    assert j < i ==> Apart(entries[j], entries[i]);
  }

  /** A key stands for at most one identity. */
  lemma IdentityUnique(c: Caller, id: Identity, other: Identity)
    requires Resolves(c, id) && Resolves(c, other)
    ensures id == other
  {
    if e, f :| Holds(c, e) && id == IdentityOf(e) && Holds(c, f) && other == IdentityOf(f) {
      HolderUnique(c, e, f);
    }
  }

  /** The documentation says the bootstrap secret is not consulted while a store is
      authoritative. The code does consult it: under an accepted store a caller is the shared
      bootstrap identity exactly when the key matches no entry and equals the secret. */
  lemma BootstrapUnderStore(c: Caller)
    requires Accepted(c.file) && Filled(c.provided)
    ensures Resolves(c, BOOTSTRAP_IDENTITY) <==> BootstrapKey(c) && forall e :: !Holds(c, e)
  {
    assert PER_KEY != BOOTSTRAP by { assert PER_KEY[0] != BOOTSTRAP[0]; }
  }

  lemma BootstrapUnderStoreHappens() returns (c: Caller)
    ensures Accepted(c.file) && Resolves(c, BOOTSTRAP_IDENTITY)
  {
    c := Caller(Some("secret"), "secret", Listing([]), text => "digest");
    assert forall e :: !Holds(c, e);
    assert Strip("secret") == "secret" by { StripUnpadded("secret"); }
  }

  // ------------------------------------------------ digests

  predicate IsHexDigest(s: string) {
    |s| == 64 && forall i :: 0 <= i < |s| ==> '0' <= s[i] <= '9' || 'a' <= s[i] <= 'f'
  }

  ghost predicate DigestsAreHex(sha: string -> string) {
    forall text :: IsHexDigest(sha(text))
  }

  /** Some key of some caller can match the entry. */
  ghost predicate Usable(e: RawEntry)
    requires WellShaped(e)
  {
    exists c: Caller :: DigestsAreHex(c.sha) && Holds(c, Shaped(e))
  }

  /** What number parsing lets through besides digits. */
  predicate IsNumberSyntax(c: char) {
    IsSpace(c) || c == '+' || c == '-' || c == '_' || c == 'x' || c == 'X'
  }

  lemma {:induction false} RunIsDigits(s: string)
    requires HexRun(s) && '_' !in s
    ensures forall i :: 0 <= i < |s| ==> IsHexDigit(s[i])
  {
    if |s| > 1 {
      assert s[1] in s;
      RunIsDigits(s[1..]);
    }
  }

  lemma LowerHex(s: string)
    ensures IsHexDigest(Lower(s)) <==> |s| == 64 && forall i :: 0 <= i < |s| ==> IsHexDigit(s[i])
  {
    forall i | 0 <= i < |s|
      ensures IsHexDigit(s[i]) <==> '0' <= Lower(s)[i] <= '9' || 'a' <= Lower(s)[i] <= 'f'
    {
      assert Lower(s)[i] == LowerChar(s[i]);
    }
  }

  lemma PlainDigest(d: string)
    requires |d| == 64 && ParsesAsHex(d) && forall i :: 0 <= i < |d| ==> !IsNumberSyntax(d[i])
    ensures forall i :: 0 <= i < |d| ==> IsHexDigit(d[i])
  {
    StripUnpadded(d);
    RunIsDigits(d);
  }

  lemma HexIsUsable(e: RawEntry)
    requires WellShaped(e) && IsHexDigest(Lower(e.digest.value))
    ensures Usable(e)
  {
    var digest := Lower(e.digest.value);
    var c := Caller(Some("key"), "", Listing([e]), text => digest);
    StripUnpadded("key");
    assert Entries(c.file.raw)[0] == Shaped(e);
    assert Holds(c, Shaped(e));
  }

  /** The shape check means to demand 64 hex digits, but parses the text as a number. Exactly
      when some key can match an entry that passes it: the digest is 64 hex digits, which the
      author of the file sees from the absence of blanks, signs, underscores and a prefix. */
  lemma UsableExactly(e: RawEntry)
    requires WellShaped(e)
    ensures Usable(e) <==> IsHexDigest(Lower(e.digest.value))
    ensures Usable(e) <==> forall i :: 0 <= i < |e.digest.value| ==> !IsNumberSyntax(e.digest.value[i])
  {
    var d := e.digest.value;
    LowerHex(d);
    if IsHexDigest(Lower(d)) {
      HexIsUsable(e);
    }
    if forall i :: 0 <= i < |d| ==> !IsNumberSyntax(d[i]) {
      PlainDigest(d);
    }
  }

  function Repeat(c: char, n: nat): (s: string)
    ensures |s| == n && forall i :: 0 <= i < n ==> s[i] == c
  {
    seq(n, i => c)
  }

  lemma {:induction false} ZerosRun(n: nat)
    requires n > 0
    ensures HexRun(Repeat('0', n))
  {
    if n > 1 {
      assert Repeat('0', n)[1..] == Repeat('0', n - 1);
      ZerosRun(n - 1);
    }
  }

  /** Such an entry passes the shape check and no key can ever use it. */
  lemma UnusableEntryAccepted() returns (e: RawEntry)
    ensures WellShaped(e)
    ensures !Usable(e)
  {
    var digest := "0x" + Repeat('0', 62);
    e := RawEntry(Some("key"), Some(digest), Some("owner"), Some([]));
    StripUnpadded("key");
    StripUnpadded("owner");
    StripUnpadded(digest);
    ZerosRun(62);
    assert digest[2..] == Repeat('0', 62);
    assert IsNumberSyntax(digest[1]);
    UsableExactly(e);
  }

  // ------------------------------------------------ the approval routes

  predicate RoleGranted(id: Identity, allowed: set<string>) {
    id.mode == BOOTSTRAP || exists role :: role in id.roles && role in allowed
  }

  /** A blank actor is filled in from the key, a claimed one has to be the key's owner. */
  function ActorFor(id: Identity, claimed: string): Option<string> {
    if IsBlank(claimed) then Some(if IsBlank(id.owner) then BOOTSTRAP else id.owner)
    else if id.mode == PER_KEY && claimed != id.owner then None
    else Some(claimed)
  }

  const REQUEST_ROLES: set<string> := {"operator", "approver", "admin"}

  /** POST /approvals by an identified caller, as a step of the desk. */
  function HttpRequest(id: Identity, a: Action, accepted: bool, claimed: string, ttl: real,
                       approvalId: string, nonce: string, env: Env): Option<Step>
  {
    if !RoleGranted(id, REQUEST_ROLES) || ActorFor(id, claimed).None? then None
    else Some(DoRequest(a, accepted, ActorFor(id, claimed).value, ttl, id.keyId, id.mode, approvalId, nonce, env))
  }

  /** POST /approvals/{id}/approve by an identified caller, as a step of the desk. */
  function HttpApprove(id: Identity, approvalId: string, claimed: string, token: string, role: string,
                       idempotencyKey: Option<string>, env: Env): Option<Step>
  {
    if !RoleGranted(id, APPROVER_ROLES) || ActorFor(id, claimed).None? then None
    else Some(DoApprove(approvalId,
                        Decision(ActorFor(id, claimed).value, token, role, idempotencyKey, false, None, false,
                                 id.keyId, id.mode), env))
  }

  /** The file's own object for a per-key identity: its id, owner and roles, all of them, in order,
      and the digest of the presented key up to the case of its letters. */
  ghost predicate ListsKey(c: Caller, id: Identity, i: nat) {
    && c.file.Listing? && i < |c.file.raw| && c.file.raw[i].RawEntry? && c.provided.Some?
    && c.file.raw[i].keyId == Some(id.keyId) && c.file.raw[i].owner == Some(id.owner)
    && c.file.raw[i].digest.Some? && Lower(c.file.raw[i].digest.value) == c.sha(c.provided.value)
    && c.file.raw[i].roles.Some? && |c.file.raw[i].roles.value| == |id.roles|
    && forall j :: 0 <= j < |id.roles| ==> c.file.raw[i].roles.value[j] == Some(id.roles[j])
  }

  /** Under an accepted store a caller is a per-key identity exactly as an object of the file lists
      the key. */
  lemma IdentityFromFile(c: Caller, id: Identity)
    requires Accepted(c.file) && Filled(c.provided)
    ensures Resolves(c, id) && id.mode == "per_key" <==> id.mode == "per_key" && exists i: nat :: ListsKey(c, id, i)
  {
    hide Unambiguous, WellShaped;
    ModesDiffer();
    if Resolves(c, id) && id.mode == "per_key" {
      var e :| Holds(c, e) && id == IdentityOf(e);
      var i :| 0 <= i < |c.file.raw| && Entries(c.file.raw)[i] == e;
      WellShapedFields(c.file.raw[i]);
      assert ListsKey(c, id, i);
    }
    if i: nat :| id.mode == "per_key" && ListsKey(c, id, i) {
      WellShapedFields(c.file.raw[i]);
      var e := Entries(c.file.raw)[i];
      assert e.roles == id.roles;
      assert Holds(c, e) && id == IdentityOf(e);
    }
  }

  lemma WellShapedFields(e: RawEntry)
    requires WellShaped(e)
    ensures e.RawEntry? && e.keyId.Some? && e.digest.Some? && e.owner.Some? && e.roles.Some?
    ensures forall j :: 0 <= j < |e.roles.value| ==> e.roles.value[j].Some?
  {
  }

  /** The approval routes let a key in by its own roles, let it act under its owner's name only, and
      hand its id on; the shared credential is let in always and under any name it claims. */
  lemma RoutesExactly(id: Identity, a: Action, accepted: bool, claimed: string, ttl: real, approvalId: string,
                      nonce: string, token: string, role: string, key: Option<string>, env: Env)
    requires id.mode in {"per_key", "bootstrap"} && !IsBlank(id.owner)
    ensures var ask, may := HttpRequest(id, a, accepted, claimed, ttl, approvalId, nonce, env),
                            HttpApprove(id, approvalId, claimed, token, role, key, env);
      var named := id.mode == "bootstrap" || IsBlank(claimed) || claimed == id.owner;
      && (ask.Some? <==>
            named && (id.mode == "bootstrap" || exists r :: r in id.roles && r in {"operator", "approver", "admin"}))
      && (may.Some? <==> named && (id.mode == "bootstrap" || exists r :: r in id.roles && r in {"approver", "admin"}))
      && (ask.Some? ==>
            && ask.value.DoRequest? && ask.value.a == a && ask.value.accepted == accepted && ask.value.ttl == ttl
            && ask.value.approvalId == approvalId && ask.value.nonce == nonce && ask.value.env == env
            && ask.value.actor == (if IsBlank(claimed) then id.owner else claimed)
            && ask.value.requesterKeyId == id.keyId && ask.value.identityMode == id.mode)
      && (may.Some? ==>
            && may.value.DoApprove? && may.value.id == approvalId && may.value.env == env
            && may.value.x.actor == (if IsBlank(claimed) then id.owner else claimed)
            && may.value.x.token == token && may.value.x.role == role && may.value.x.idempotencyKey == key
            && !may.value.x.enforceSod && may.value.x.approverKeyId == id.keyId && may.value.x.identityMode == id.mode)
  {
    ModesDiffer();
    hide IsBlank;
  }

  lemma ModesDiffer()
    ensures PER_KEY != BOOTSTRAP
  {
    assert PER_KEY[0] != BOOTSTRAP[0];
  }

  /** In an accepted store different key ids mean different owners and different keys. */
  lemma OwnersApart(u: Caller, v: Caller, idU: Identity, idV: Identity)
    requires u.file == v.file && u.sha == v.sha && Resolves(u, idU) && Resolves(v, idV)
    requires idU.mode == PER_KEY && idV.mode == PER_KEY && idU.keyId != idV.keyId
    ensures idU.owner != idV.owner && u.provided != v.provided
  {
    ModesDiffer();
    var e :| Holds(u, e) && idU == IdentityOf(e);
    var f :| Holds(v, f) && idV == IdentityOf(f);
    hide AllShaped, WellShaped, Shaped, Unambiguous;
    ApartUnlessSame(Entries(u.file.raw), e, f);
  }

  ghost predicate RaisedBy(id: Identity, s: Step) {
    s.DoRequest? && exists claimed ::
      HttpRequest(id, s.a, s.accepted, claimed, s.ttl, s.approvalId, s.nonce, s.env) == Some(s)
  }

  ghost predicate ApprovedBy(id: Identity, t: Step) {
    t.DoApprove? && exists claimed ::
      HttpApprove(id, t.id, claimed, t.x.token, t.x.role, t.x.idempotencyKey, t.env) == Some(t)
  }

  /** The entry a raised request leaves behind. */
  lemma RaisedEntry(d: Desk, s: Step)
    requires s.DoRequest? && RequestApproval(d, s.a, s.accepted, s.actor, s.ttl, s.requesterKeyId, s.identityMode,
                                             s.approvalId, s.nonce, s.env).0.Ok?
    ensures var t := Apply(d, s).requests;
      && s.approvalId in t && t[s.approvalId].status == Pending && t[s.approvalId].requesterKeyId == s.requesterKeyId
      && t[s.approvalId].request.actor == s.actor
  {
  }

  lemma StillThere(d: Desk, steps: seq<Step>, id: string)
    requires FreshIds(d, steps) && id in d.requests
    ensures id in Run(d, steps).requests && Evolves(d.requests[id], Run(d, steps).requests[id])
  {
    LifecycleOverRuns(d, steps);
  }

  lemma GrantedEntry(d: Desk, t: Step)
    requires t.DoApprove? && Decided(ApproveApproval(d, t.id, t.x, t.env).0) && d.requests != map[]
    requires t.x.identityMode == PER_KEY
    ensures t.id in d.requests && t.id in Apply(d, t).requests
    ensures var e := d.requests[t.id];
      Apply(d, t).requests[t.id] == e.(status := Approved, decidedBy := t.x.approverKeyId)
      && t.x.approverKeyId != e.requesterKeyId
  {
    hide Check, NonceStores.Consume;
  }

  /** Four eyes, in terms of people: when one key of the store raised a request over HTTP and
      another call approves it after any run of the desk, with both keys resolved by the same
      store, then two different owners with two different keys acted, the request names its
      raiser and the approver's key carries an approving role. */
  lemma TwoHumans(d: Desk, u: Caller, idU: Identity, s: Step, steps: seq<Step>, v: Caller, idV: Identity, t: Step)
    requires u.file == v.file && u.sha == v.sha && Resolves(u, idU) && Resolves(v, idV)
    requires idU.mode == PER_KEY && idV.mode == PER_KEY && RaisedBy(idU, s) && ApprovedBy(idV, t)
    requires t.id == s.approvalId && FreshIds(d, [s] + steps)
    requires RequestApproval(d, s.a, s.accepted, s.actor, s.ttl, s.requesterKeyId, s.identityMode,
                             s.approvalId, s.nonce, s.env).0.Ok?
    requires Decided(ApproveApproval(Run(d, [s] + steps), t.id, t.x, t.env).0)
    ensures idU.owner != idV.owner && u.provided != v.provided
    ensures exists role :: role in idV.roles && role in APPROVER_ROLES
    ensures t.id in Run(d, [s] + steps + [t]).requests
    ensures var e := Run(d, [s] + steps + [t]).requests[t.id];
      e.status == Approved && e.requesterKeyId == idU.keyId && e.decidedBy == idV.keyId && e.request.actor == idU.owner
  {
    hide RequestApproval, ApproveApproval, Resolves, Apply;
    ModesDiffer();
    assert ([s] + steps)[0] == s && ([s] + steps)[1..] == steps;
    RaisedEntry(d, s);
    StillThere(Apply(d, s), steps, t.id);
    GrantedEntry(Run(d, [s] + steps), t);
    RunAppend(d, [s] + steps, t);
    OwnerActs(u, idU, s);
    OwnersApart(u, v, idU, idV);
  }

  /** The approval is meant to let the run go on. When two humans have acted through the
      per-key routes it cannot: the resume presents the approver's name, and minting insists
      on the requester's. */
  lemma TwoHumansNeverResume(d: Desk, u: Caller, idU: Identity, s: Step, steps: seq<Step>, v: Caller, idV: Identity,
                             t: Step, later: Env)
    requires u.file == v.file && u.sha == v.sha && Resolves(u, idU) && Resolves(v, idV)
    requires idU.mode == PER_KEY && idV.mode == PER_KEY && RaisedBy(idU, s) && ApprovedBy(idV, t)
    requires t.id == s.approvalId && FreshIds(d, [s] + steps)
    requires RequestApproval(d, s.a, s.accepted, s.actor, s.ttl, s.requesterKeyId, s.identityMode,
                             s.approvalId, s.nonce, s.env).0.Ok?
    requires Decided(ApproveApproval(Run(d, [s] + steps), t.id, t.x, t.env).0)
    ensures t.id in Run(d, [s] + steps + [t]).requests
    ensures var after := Run(d, [s] + steps + [t]);
      VerifiedPermit(after, t.id, ResumeClaim(t.x, after.requests[t.id].request), later).0.Err?
  {
    hide RequestApproval, ApproveApproval, Resolves, Apply, Mac, NonceStores.Consume;
    TwoHumans(d, u, idU, s, steps, v, idV, t);
    ApproverActs(v, idV, t);
    assert EnsureLoaded(Run(d, [s] + steps + [t])) == Run(d, [s] + steps + [t]);
  }

  lemma TwoKeys() returns (u: Caller, idU: Identity, v: Caller, idV: Identity)
    ensures u.file == v.file && u.sha == v.sha && Resolves(u, idU) && Resolves(v, idV)
    ensures idU == Identity("key-alice", "alice", ["operator"], PER_KEY)
    ensures idV == Identity("key-bob", "bob", ["approver"], PER_KEY)
  {
    var zeros, ones := Repeat('0', 64), Repeat('1', 64);
    var raw := [RawEntry(Some("key-alice"), Some(zeros), Some("alice"), Some([Some("operator")])),
                RawEntry(Some("key-bob"), Some(ones), Some("bob"), Some([Some("approver")]))];
    var sha := (text: string) => if text == "a" then zeros else ones;
    u, v := Caller(Some("a"), "", Listing(raw), sha), Caller(Some("b"), "", Listing(raw), sha);
    EntryOf("key-alice", zeros, "alice", "operator");
    EntryOf("key-bob", ones, "bob", "approver");
    hide WellShaped, Shaped, IsHexDigest, Unambiguous, IsBlank;
    StripUnpadded("a");
    StripUnpadded("b");
    var entries := Entries(raw);
    assert zeros[0] != ones[0] && "key-alice" != "key-bob" && "alice" != "bob";
    TwoApart(entries);
    idU, idV := IdentityOf(entries[0]), IdentityOf(entries[1]);
    Holder(u, 0);
    Holder(v, 1);
  }

  lemma Holder(c: Caller, i: nat)
    requires Accepted(c.file) && Filled(c.provided) && i < |c.file.raw|
    requires Entries(c.file.raw)[i].digest == c.sha(c.provided.value)
    ensures Resolves(c, IdentityOf(Entries(c.file.raw)[i]))
  {
    hide AllShaped, Unambiguous;
    assert Holds(c, Entries(c.file.raw)[i]);
  }

  lemma TwoApart(entries: seq<KeyEntry>)
    requires |entries| == 2 && Apart(entries[0], entries[1])
    ensures Unambiguous(entries)
  {
  }

  lemma EntryOf(keyId: string, digest: string, owner: string, role: string)
    requires IsUnpadded(keyId) && IsUnpadded(owner) && IsUnpadded(role) && IsHexDigest(digest)
    ensures var e := RawEntry(Some(keyId), Some(digest), Some(owner), Some([Some(role)]));
      WellShaped(e) && Shaped(e) == KeyEntry(keyId, digest, owner, [role])
  {
    StripUnpadded(keyId);
    StripUnpadded(owner);
    StripUnpadded(role);
    StripUnpadded(digest);
    DigitsRun(digest);
    assert Lower(digest) == digest;
    assert Shaped(RawEntry(Some(keyId), Some(digest), Some(owner), Some([Some(role)]))).roles == [role];
  }

  lemma {:induction false} DigitsRun(s: string)
    requires s != "" && forall i :: 0 <= i < |s| ==> IsHexDigit(s[i])
    ensures HexRun(s)
  {
    if |s| > 1 {
      DigitsRun(s[1..]);
    }
  }

  /** The failing case: alice raises with her key, bob approves with his, and the resume is
      refused although the request is approved and in time. */
  lemma TwoHumansHappen() returns (d: Desk, u: Caller, idU: Identity, s: Step, v: Caller, idV: Identity, t: Step, later: Env)
    ensures u.file == v.file && u.sha == v.sha && Resolves(u, idU) && Resolves(v, idV)
    ensures idU.mode == PER_KEY && idV.mode == PER_KEY && RaisedBy(idU, s) && ApprovedBy(idV, t)
    ensures t.id == s.approvalId && FreshIds(d, [s])
    ensures RequestApproval(d, s.a, s.accepted, s.actor, s.ttl, s.requesterKeyId, s.identityMode,
                            s.approvalId, s.nonce, s.env).0.Ok?
    ensures Decided(ApproveApproval(Run(d, [s]), t.id, t.x, t.env).0)
    ensures var after := Run(d, [s] + [t]);
      && t.id in after.requests && after.requests[t.id].status == Approved
      && later.now < after.requests[t.id].request.expiresAt
      && VerifiedPermit(after, t.id, ResumeClaim(t.x, after.requests[t.id].request), later).0.Err?
  {
    u, idU, v, idV := TwoKeys();
    ModesDiffer();
    var crypto := Crypto((secret, text) => "mac", text => "digest", at => "time");
    later := Env(crypto, "secret", 0.0, NonceStores.IoOk, true);
    var a := Action("act", "inc", "restart", "pod", "web", "prod", "default", "{}");
    s := DoRequest(a, true, "alice", 600.0, "key-alice", PER_KEY, "id", "nonce", later);
    t := DoApprove("id", Decision("bob", "mac", "", None, false, None, false, "key-bob", PER_KEY), later);
    d := Desk(map[], map[], NonceStores.IN_MEMORY, None);
    hide Run, FreshIds, RequestApproval, ApproveApproval, VerifiedPermit, Resolves, RaisedBy, ApprovedBy;
    Acts(idU, idV, s, t);
    DeskActs(d, later, a, s, t);
    assert [s] + [] == [s];
    TwoHumansNeverResume(d, u, idU, s, [], v, idV, t, later);
    TwoHumans(d, u, idU, s, [], v, idV, t);
    LaterStill(d, s, t);
  }

  lemma LaterStill(d: Desk, s: Step, t: Step)
    requires FreshIds(d, [s]) && s.DoRequest? && t.DoApprove? && s.approvalId in Run(d, [s]).requests
    ensures s.approvalId in Run(d, [s] + [t]).requests
    ensures Run(d, [s] + [t]).requests[s.approvalId].request == Run(d, [s]).requests[s.approvalId].request
  {
    RunAppend(d, [s], t);
    StepEvolves(Run(d, [s]), t);
    hide Run, Apply;
    assert Evolves(Run(d, [s]).requests[s.approvalId], Run(d, [s] + [t]).requests[s.approvalId]);
  }

  lemma DeskActs(d: Desk, env: Env, a: Action, s: Step, t: Step)
    requires d == Desk(map[], map[], NonceStores.IN_MEMORY, None) && env.now == 0.0 && env.secret != ""
    requires forall secret, text :: env.crypto.hmac(secret, text) == "mac"
    requires s == DoRequest(a, true, "alice", 600.0, "key-alice", PER_KEY, "id", "nonce", env)
    requires t == DoApprove("id", Decision("bob", "mac", "", None, false, None, false, "key-bob", PER_KEY), env)
    ensures FreshIds(d, [s])
    ensures RequestApproval(d, s.a, s.accepted, s.actor, s.ttl, s.requesterKeyId, s.identityMode,
                            s.approvalId, s.nonce, s.env).0.Ok?
    ensures "id" in Run(d, [s]).requests && Run(d, [s]).requests["id"].request.expiresAt == 600.0
    ensures Decided(ApproveApproval(Run(d, [s]), t.id, t.x, t.env).0)
  {
    StripUnpadded("alice");
    assert [s][1..] == [];
    assert FreshIds(Apply(d, s), []);
    assert Run(d, [s]) == Apply(d, s);
    assert "key-bob" != "key-alice" by { assert "key-bob"[4] != "key-alice"[4]; }
    assert ApproveGate(Apply(d, s).requests["id"], t.x, env) == Proceed;
  }

  lemma Acts(idU: Identity, idV: Identity, s: Step, t: Step)
    requires idU == Identity("key-alice", "alice", ["operator"], PER_KEY)
    requires idV == Identity("key-bob", "bob", ["approver"], PER_KEY)
    requires s.DoRequest? && s.actor == "alice" && s.requesterKeyId == "key-alice" && s.identityMode == PER_KEY
    requires t.DoApprove?
    requires t.x == Decision("bob", "mac", "", None, false, None, false, "key-bob", PER_KEY)
    ensures RaisedBy(idU, s) && ApprovedBy(idV, t)
  {
    StripUnpadded("alice");
    StripUnpadded("bob");
    assert "operator" in idU.roles && "approver" in idV.roles;
    assert HttpRequest(idU, s.a, s.accepted, "alice", s.ttl, s.approvalId, s.nonce, s.env) == Some(s);
    assert HttpApprove(idV, t.id, "bob", t.x.token, t.x.role, t.x.idempotencyKey, t.env) == Some(t);
  }

  lemma ApproverActs(c: Caller, id: Identity, t: Step)
    requires Resolves(c, id) && id.mode == PER_KEY && ApprovedBy(id, t)
    ensures t.x.actor == id.owner && t.x.approverKeyId == id.keyId && t.x.identityMode == PER_KEY
  {
    ModesDiffer();
    var e :| Holds(c, e) && id == IdentityOf(e);
  }

  /** In per-key mode the actor of a raised request is the owner of the key. */
  lemma OwnerActs(c: Caller, id: Identity, s: Step)
    requires Resolves(c, id) && id.mode == PER_KEY && RaisedBy(id, s)
    ensures s.actor == id.owner && s.requesterKeyId == id.keyId && s.identityMode == PER_KEY
  {
    ModesDiffer();
    var e :| Holds(c, e) && id == IdentityOf(e);
  }

  lemma {:induction false} RunAppend(d: Desk, steps: seq<Step>, t: Step)
    ensures Run(d, steps + [t]) == Apply(Run(d, steps), t)
    decreases |steps|
  {
    if steps == [] {
      assert steps + [t] == [t];
    } else {
      assert (steps + [t])[1..] == steps[1..] + [t];
      RunAppend(Apply(d, steps[0]), steps[1..], t);
    }
  }
}
