/** What holds of the credential tables after every statement of every handler. */
module Integrity {
  import opened Basics
  import opened Policy
  import opened Bans
  import opened Tables
  import opened DeviceDeletion
  import opened Sessions
  import opened Credentials

  /** Ids and secrets are drawn below the counter. */
  predicate IdsBelow(db: Db) {
    && (forall d | d in db.devices :: d < db.nextId)
    && (forall k | k in db.apiKeys :: k < db.nextId && db.apiKeys[k].keyHash.secret < db.nextId)
    && (forall c | c in db.challenges :: c < db.nextId)
    && (forall r | r in db.requests :: r < db.nextId)
    && (forall r | r in db.recipients :: r < db.nextId)
    && (forall a | a in db.approvals :: a < db.nextId)
    && (forall p | p in db.proposals :: p < db.nextId)
  }

  /** The unique index on `key_hash`. */
  predicate HashesDistinct(apiKeys: map<Id, ApiKey>) {
    forall j, k | j in apiKeys && k in apiKeys && j != k :: apiKeys[j].keyHash != apiKeys[k].keyHash
  }

  /** A credential attributed to a device belongs to the device's owner. */
  predicate KeysOwned(apiKeys: map<Id, ApiKey>, devices: map<Id, Device>) {
    forall k | k in apiKeys && apiKeys[k].device.Some? && apiKeys[k].device.value in devices ::
      devices[apiKeys[k].device.value].owner == apiKeys[k].owner
  }

  /** The unique index on owner and name of devices. */
  predicate NamesDistinct(devices: map<Id, Device>) {
    forall d, e | d in devices && e in devices && d != e ::
      devices[d].owner != devices[e].owner || devices[d].name != devices[e].name
  }

  /** Approval requests name keys that need approval; only one-time keys are ever used up, and only
      keys that need approval ever wait for it. */
  predicate ApprovalKinds(approvals: map<Id, Approval>, apiKeys: map<Id, ApiKey>) {
    forall a | a in approvals && approvals[a].apiKey in apiKeys :: apiKeys[approvals[a].apiKey].kind.ApprovalRequired?
  }

  predicate StatusKinds(apiKeys: map<Id, ApiKey>) {
    forall k | k in apiKeys ::
      && (apiKeys[k].status == Used ==> apiKeys[k].kind == OneTime)
      && (apiKeys[k].status == PendingApproval ==> apiKeys[k].kind == ApprovalRequired)
  }

  /** All envelope columns are present exactly while the request is approved, else none is. */
  predicate RequestShape(row: SessionRequest) {
    && row.device.Some? && row.pollSecret.Some?
    && (row.status == Approved ==> EnvelopeOf(row.wrap).Some?)
    && (row.status != Approved ==> row.wrap == NO_WRAP)
    && (row.sessionKey.Some? ==> row.status == Approved || row.status == Delivered)
  }

  predicate RequestShapes(requests: map<Id, SessionRequest>) {
    forall r | r in requests :: RequestShape(requests[r])
  }

  /** A confirmed proposal names a device of the confirming owner with exactly the proposed key. */
  predicate ProposalsHonest(proposals: map<Id, Proposal>, devices: map<Id, Device>) {
    forall p | p in proposals && proposals[p].result.Some? && proposals[p].result.value in devices ::
      var (row, device) := (proposals[p], devices[proposals[p].result.value]);
      && row.status == Confirmed && row.confirmedBy == Some(device.owner)
      && row.publicKey == device.publicKey && row.keyType == device.keyType
  }

  predicate Intact(db: Db) {
    && ForeignKeysHold(db)
    && IdsBelow(db)
    && HashesDistinct(db.apiKeys)
    && NamesDistinct(db.devices)
    && KeysOwned(db.apiKeys, db.devices)
    && ApprovalKinds(db.approvals, db.apiKeys)
    && StatusKinds(db.apiKeys)
    && RequestShapes(db.requests)
    && RequestKeysAttributed(db.requests, db.apiKeys)
    && ProposalsHonest(db.proposals, db.devices)
  }

  /** The lookup by hash finds at most one credential. */
  lemma LookupIsUnique(db: Db, j: Id, k: Id, secret: Secret)
    requires Intact(db) && KeyMatches(db, j, secret) && KeyMatches(db, k, secret)
    ensures j == k
  {
  }

  // ---------------------------------------------------------------- statement by statement

  lemma MintKeepsIntact(db: Db, name: string, kind: KeyKind, expiresAt: Option<int>, owner: string, device: Option<Id>)
    requires Intact(db) && MintKey(db, name, kind, expiresAt, owner, device).Some?
    requires device.Some? && device.value in db.devices ==> db.devices[device.value].owner == owner
    ensures Intact(MintKey(db, name, kind, expiresAt, owner, device).value)
  {
  }

  /** Credentials may change their status, as far as their kind has it. */
  lemma StatusesKeepIntact(db: Db, keys: map<Id, ApiKey>)
    requires Intact(db) && keys.Keys == db.apiKeys.Keys && StatusKinds(keys)
    requires forall k | k in keys :: keys[k] == db.apiKeys[k].(status := keys[k].status)
    ensures Intact(db.(apiKeys := keys))
  {
    hide ChallengesReferTo, ProposalsReferTo, PolicyKeysReferTo, RecipientsReferTo, NamesDistinct, RequestShapes,
      ProposalsHonest, StatusKinds;
  }

  lemma RevokeSessionsKeepsIntact(db: Db, owner: string, name: Option<string>)
    requires Intact(db)
    ensures Intact(RevokeSessions(db, owner, name))
  {
    hide ForeignKeysHold, IdsBelow, HashesDistinct, KeysOwned, ApprovalKinds, RequestShapes, RequestKeysAttributed,
      ProposalsHonest, NamesDistinct;
    StatusesKeepIntact(db, RevokeSessions(db, owner, name).apiKeys);
  }

  lemma RevokeKeepsIntact(db: Db, owner: string, k: Id)
    requires Intact(db)
    ensures Intact(RevokeKey(db, owner, k))
  {
    hide ForeignKeysHold, IdsBelow, HashesDistinct, KeysOwned, ApprovalKinds, RequestShapes, RequestKeysAttributed,
      ProposalsHonest, NamesDistinct;
    if Revocable(db, owner, k) { StatusesKeepIntact(db, RevokeKey(db, owner, k).apiKeys); }
  }

  lemma DeleteKeysKeepsIntact(db: Db, doomed: set<Id>)
    requires Intact(db)
    ensures Intact(DeleteApiKeys(db, doomed))
  {
    DeleteApiKeysKeepsForeignKeys(db, doomed);
  }

  lemma RequestApprovalKeepsIntact(db: Db, k: Id, supersede: bool)
    requires Intact(db) && RequestApproval(db, k, supersede).Some?
    ensures Intact(RequestApproval(db, k, supersede).value)
  {
  }

  lemma GrantKeepsIntact(db: Db, a: Id, k: Id)
    requires Intact(db) && (k in db.apiKeys ==> db.apiKeys[k].kind.ApprovalRequired?)
    ensures Intact(GrantApproval(db, a, k))
  {
    hide ForeignKeysHold, IdsBelow, HashesDistinct, KeysOwned, ApprovalKinds, RequestShapes, RequestKeysAttributed,
      ProposalsHonest, NamesDistinct;
    ApprovalStatusKeepsIntact(db, a, Granted);
    var granted := db.(approvals := GrantApproval(db, a, k).approvals);
    StatusesKeepIntact(granted, GrantApproval(db, a, k).apiKeys);
  }

  lemma ApprovalStatusKeepsIntact(db: Db, a: Id, status: ApprovalStatus)
    requires Intact(db)
    ensures a in db.approvals ==> Intact(db.(approvals := db.approvals[a := db.approvals[a].(status := status)]))
  {
    hide KeysReferTo, RequestsReferTo, ChallengesReferTo, ProposalsReferTo, PolicyKeysReferTo, RecipientsReferTo,
      NamesDistinct, RequestShapes, ProposalsHonest, StatusKinds, HashesDistinct, KeysOwned, RequestKeysAttributed;
  }

  lemma DeclineKeepsIntact(db: Db, owner: string, a: Id)
    requires Intact(db)
    ensures Intact(DeclineApproval(db, owner, a))
  {
  }

  lemma LapseKeepsIntact(db: Db)
    requires Intact(db)
    ensures Intact(LapseOld(db))
  {
  }

  lemma EnrolKeepsIntact(db: Db, owner: string, name: string, publicKey: string, keyType: string)
    requires Intact(db) && EnrolDevice(db, owner, name, publicKey, keyType).Some?
    ensures Intact(EnrolDevice(db, owner, name, publicKey, keyType).value)
  {
  }

  lemma ProposeKeepsIntact(db: Db, name: string, publicKey: string, keyType: string)
    requires Intact(db)
    ensures Intact(Propose(db, name, publicKey, keyType))
  {
  }

  lemma DismissKeepsIntact(db: Db, p: Id)
    requires Intact(db)
    ensures Intact(DismissProposal(db, p))
  {
  }

  lemma TimeOutKeepsIntact(db: Db)
    requires Intact(db)
    ensures Intact(TimeOutProposals(db))
  {
  }

  lemma LinkKeepsIntact(db: Db, owner: string, p: Id, token: Secret, device: Id)
    requires Intact(db)
    ensures Intact(LinkProposal(db, owner, p, token, device).1)
  {
  }

  lemma ChallengeKeepsIntact(db: Db, device: Id)
    requires Intact(db)
    ensures Intact(CreateChallenge(db, device).1)
  {
  }

  lemma DropKeepsIntact(db: Db)
    requires Intact(db)
    ensures Intact(DropChallenges(db))
  {
  }

  lemma RequestKeepsIntact(db: Db, challenge: Id, nonce: Secret)
    requires Intact(db)
    ensures Intact(CreateRequest(db, challenge, nonce).1)
  {
  }

  lemma ApproveKeepsIntact(db: Db, owner: string, only: Option<Id>, r: Id, token: Secret, hours: int)
    requires Intact(db)
    ensures Intact(Approve(db, owner, only, r, token, hours).1)
  {
    hide Intact;
    if Approve(db, owner, only, r, token, hours).0.Ok? {
      var d := db.requests[r].device.value;
      var minted := MintKey(db, "session", Session, HoursFromNow(db.now, hours), owner, Some(d)).value;
      MintKeepsIntact(db, "session", Session, HoursFromNow(db.now, hours), owner, Some(d));
      var envelope := WrapForDevice(db.devices[d].keyType, db.devices[d].publicKey, r, db.nextId + 1).value;
      FillKeepsIntact(minted, r, db.nextId, owner, envelope);
      assert Approve(db, owner, only, r, token, hours).1 == FillRequest(minted, r, db.nextId, owner, envelope);
    }
  }

  /** The second statement of `approve`. */
  function FillRequest(db: Db, r: Id, key: Id, owner: string, envelope: Envelope): Db
    requires r in db.requests
  {
    db.(requests := db.requests[r := db.requests[r].(status := Approved, sessionKey := Some(key),
                                                     approvedBy := Some(owner), wrap := ColumnsOf(envelope))])
  }

  lemma FillKeepsIntact(db: Db, r: Id, key: Id, owner: string, envelope: Envelope)
    requires Intact(db) && r in db.requests && key in db.apiKeys && db.apiKeys[key].device == db.requests[r].device
    ensures Intact(FillRequest(db, r, key, owner, envelope))
  {
  }

  lemma RejectKeepsIntact(db: Db, r: Id)
    requires Intact(db)
    ensures Intact(MarkRejected(db, r))
  {
  }

  lemma DeliverKeepsIntact(db: Db, r: Id)
    requires Intact(db)
    ensures Intact(MarkDelivered(db, r))
  {
  }

  lemma ExpireKeepsIntact(db: Db)
    requires Intact(db)
    ensures Intact(ExpireRequests(db))
  {
  }

  lemma ConsumeKeepsIntact(db: Db, k: Id)
    requires Intact(db)
    ensures Intact(ConsumeKey(db, k))
  {
    hide ForeignKeysHold, IdsBelow, HashesDistinct, KeysOwned, ApprovalKinds, RequestShapes, RequestKeysAttributed,
      ProposalsHonest, NamesDistinct;
    if Consumable(db, k) { StatusesKeepIntact(db, ConsumeKey(db, k).apiKeys); }
  }

  lemma DeleteDeviceKeepsIntact(db: Db, owner: string, device: Id)
    requires Intact(db)
    ensures Intact(AfterDelete(db, owner, device).1)
  {
    if device in db.devices && db.devices[device].owner == owner {
      DeleteRemovesExactlyTheDevice(db, owner, device);
      PurgedKeepsForeignKeys(db, device);
      PurgedKeepsIntact(db, device);
    }
  }

  lemma DeletedIsPurged(db: Db, owner: string, device: Id)
    requires Intact(db) && device in db.devices && db.devices[device].owner == owner
    ensures AfterDelete(db, owner, device).1 == Purged(db, device)
  {
    DeleteRemovesExactlyTheDevice(db, owner, device);
  }

  lemma PurgedKeepsIntact(db: Db, device: Id)
    requires Intact(db) && ForeignKeysHold(Purged(db, device))
    ensures Intact(Purged(db, device))
  {
  }

  lemma PolicyKeepsIntact(db: Db, owner: string, device: Id, n: Normalised)
    requires Intact(db) && device in db.devices
    ensures Intact(db.(policies := SavedPolicies(db.policies, owner, device, n),
                       policyKeys := SavedKeys(db.policyKeys, device, n)))
  {
    WithoutDeviceRows(db.policyKeys, device);
  }
}
