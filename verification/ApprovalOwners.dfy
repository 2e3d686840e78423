/** The people behind the grants of the concurrent machine. */
module ApprovalOwners {
  import opened Wrappers
  import opened Approvals
  import opened ApprovalProtocol
  import opened ApprovalEyes
  import K = KeyStores

  /** The caller presents a key of the store whose id is the given one. */
  ghost predicate Acts(c: K.Caller, id: K.Identity, keyId: string) {
    K.Resolves(c, id) && id.mode == PER_KEY && id.keyId == keyId
  }

  /** Two humans behind every grant, in every interleaving with every crash: whoever holds the key
      of the store that raised the request and whoever holds the one that granted it, through a
      per-key identity, are different owners presenting different keys. */
  lemma TwoOwners(now: Instant, events: seq<Event>, i: nat, u: K.Caller, idU: K.Identity, v: K.Caller, idV: K.Identity)
    requires Legal(Start(now), events) && i < |Run(Start(now), events).grants|
    requires Run(Start(now), events).grants[i].perKey && u.file == v.file && u.sha == v.sha
    requires var s := Run(Start(now), events);
      s.grants[i].nonce in s.issued ==>
        Acts(u, idU, s.issued[s.grants[i].nonce].raisedBy) && Acts(v, idV, s.grants[i].keyId)
    ensures Run(Start(now), events).grants[i].nonce in Run(Start(now), events).issued
    ensures idU.owner != idV.owner && u.provided != v.provided
  {
    GrantedByAnother(now, events);
    hide Run, Legal, K.Resolves;
    K.OwnersApart(u, v, idU, idV);
  }
}
