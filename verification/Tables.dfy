/** The credential tables of the database and their foreign keys. */
module Tables {
  import opened Basics
  import opened Policy
  import opened Bans

  datatype KeyKind = Standard | OneTime | ApprovalRequired | ZeroTrust | Shareable | Session | ApprovalToken

  datatype KeyStatus = Active | PendingApproval | Used | Revoked

  /** A row of `api_keys`. A credential with a `device` is attributed to that device. */
  datatype ApiKey = ApiKey(keyHash: Digest, name: string, kind: KeyKind, status: KeyStatus,
                           expiresAt: Option<int>, owner: string, device: Option<Id>)

  datatype Device = Device(owner: string, name: string, publicKey: string, keyType: string, lastSeen: Option<int>)

  datatype ApprovalStatus = Open | Granted | Declined | Lapsed

  /** A row of `approval_requests`. */
  datatype Approval = Approval(apiKey: Id, confirm: Digest, status: ApprovalStatus, expiresAt: int)

  /** A row of `session_request_challenges`. */
  datatype Challenge = Challenge(device: Id, nonceHash: Digest, consumed: bool, expiresAt: int)

  datatype RequestStatus = Waiting | Approved | Rejected | Expired | Delivered

  /** One opaque column of a sealed envelope. */
  datatype Blob = Blob(column: nat, publicKey: string, aad: Id, plaintext: Secret)

  datatype Envelope = Envelope(keyType: string, nonce: Blob, ciphertext: Blob, aad: Blob,
                               ephemeralPub: Blob, dekNonce: Blob, encryptedDek: Blob)

  /** The seven nullable envelope columns of a session request. */
  datatype WrapColumns = WrapColumns(keyType: Option<string>, nonce: Option<Blob>, ciphertext: Option<Blob>,
                                     aad: Option<Blob>, ephemeralPub: Option<Blob>, dekNonce: Option<Blob>,
                                     encryptedDek: Option<Blob>)

  const NO_WRAP: WrapColumns := WrapColumns(None, None, None, None, None, None, None)

  function ColumnsOf(e: Envelope): WrapColumns {
    WrapColumns(Some(e.keyType), Some(e.nonce), Some(e.ciphertext), Some(e.aad),
                Some(e.ephemeralPub), Some(e.dekNonce), Some(e.encryptedDek))
  }

  /** The envelope of a row whose columns are all present. */
  function EnvelopeOf(w: WrapColumns): Option<Envelope> {
    match w
    case WrapColumns(Some(keyType), Some(nonce), Some(ciphertext), Some(aad), Some(pub), Some(dekNonce), Some(dek)) =>
      Some(Envelope(keyType, nonce, ciphertext, aad, pub, dekNonce, dek))
    case _ => None
  }

  /** A row of `session_requests`. */
  datatype SessionRequest = SessionRequest(status: RequestStatus, expiresAt: int, pollSecret: Option<Digest>,
                                           device: Option<Id>, approveToken: Digest, sessionKey: Option<Id>,
                                           approvedBy: Option<string>, wrap: WrapColumns)

  datatype ProposalStatus = Proposed | Confirmed | Dismissed | TimedOut

  /** A row of `device_proposals`. */
  datatype Proposal = Proposal(name: string, publicKey: string, keyType: string, status: ProposalStatus,
                               result: Option<Id>, confirmToken: Digest, expiresAt: int, confirmedBy: Option<string>)

  /** A row of `device_kv_recipients`: the entry name, its owner and the receiving device. */
  datatype Recipient = Recipient(kvKey: string, owner: string, device: Id)

  /** A row of `kv_entries`; its zero-trust columns are one opaque value. */
  datatype KvEntry = KvEntry(value: string, ttlSecs: Option<int>, sliding: bool, expiresAt: Option<int>,
                             openAccess: bool, zeroTrust: Option<string>, deviceEncrypted: bool)

  /** The key of a row of `kv_entries` and of `device_kv_bodies`: entry name and owner. */
  type EntryKey = (string, string)

  datatype Db = Db(
    now: int,
    nextId: Id,
    devices: map<Id, Device>,
    apiKeys: map<Id, ApiKey>,
    allowedKeys: set<(Id, string)>,
    approvals: map<Id, Approval>,
    authRequests: map<Id, Option<Id>>,
    challenges: map<Id, Challenge>,
    requests: map<Id, SessionRequest>,
    proposals: map<Id, Proposal>,
    policies: map<Id, PolicyRow>,
    policyKeys: KeyTable,
    bans: BanTable,
    recipients: map<Id, Recipient>,
    bodies: map<EntryKey, string>,
    kv: map<EntryKey, KvEntry>)

  function EmptyDb(now: int): Db {
    Db(now, 0, map[], map[], {}, map[], map[], map[], map[], map[], map[], [], map[], map[], map[], map[])
  }

  function OwnersOf(devices: map<Id, Device>): map<Id, string> { map d | d in devices :: devices[d].owner }

  // ---------------------------------------------------------------- foreign keys

  predicate KeysReferTo(apiKeys: map<Id, ApiKey>, devices: map<Id, Device>) {
    forall k | k in apiKeys :: apiKeys[k].device.Some? ==> apiKeys[k].device.value in devices
  }

  predicate RequestsReferTo(requests: map<Id, SessionRequest>, devices: map<Id, Device>, apiKeys: map<Id, ApiKey>) {
    forall r | r in requests ::
      && (requests[r].device.Some? ==> requests[r].device.value in devices)
      && (requests[r].sessionKey.Some? ==> requests[r].sessionKey.value in apiKeys)
  }

  predicate ApprovalsReferTo(approvals: map<Id, Approval>, apiKeys: map<Id, ApiKey>) {
    forall a | a in approvals :: approvals[a].apiKey in apiKeys
  }

  predicate ChallengesReferTo(challenges: map<Id, Challenge>, devices: map<Id, Device>) {
    forall c | c in challenges :: challenges[c].device in devices
  }

  predicate ProposalsReferTo(proposals: map<Id, Proposal>, devices: map<Id, Device>) {
    forall p | p in proposals :: proposals[p].result.Some? ==> proposals[p].result.value in devices
  }

  predicate PolicyKeysReferTo(table: KeyTable, devices: map<Id, Device>) {
    forall row | row in table :: row.0 in devices
  }

  predicate RecipientsReferTo(recipients: map<Id, Recipient>, devices: map<Id, Device>) {
    forall r | r in recipients :: recipients[r].device in devices
  }

  predicate AllowedKeysReferTo(allowedKeys: set<(Id, string)>, apiKeys: map<Id, ApiKey>) {
    forall row | row in allowedKeys :: row.0 in apiKeys
  }

  predicate AuthRequestsReferTo(authRequests: map<Id, Option<Id>>, apiKeys: map<Id, ApiKey>) {
    forall r | r in authRequests :: authRequests[r].Some? ==> authRequests[r].value in apiKeys
  }

  /** Every reference of every table names an existing row. */
  predicate ForeignKeysHold(db: Db) {
    && KeysReferTo(db.apiKeys, db.devices)
    && RequestsReferTo(db.requests, db.devices, db.apiKeys)
    && ApprovalsReferTo(db.approvals, db.apiKeys)
    && ChallengesReferTo(db.challenges, db.devices)
    && ProposalsReferTo(db.proposals, db.devices)
    && PolicyKeysReferTo(db.policyKeys, db.devices)
    && RecipientsReferTo(db.recipients, db.devices)
    && AllowedKeysReferTo(db.allowedKeys, db.apiKeys)
    && AuthRequestsReferTo(db.authRequests, db.apiKeys)
    && db.policies.Keys <= db.devices.Keys
    && db.bans.Keys <= db.devices.Keys
  }

  // ---------------------------------------------------------------- deletion statements

  /** Deleting credentials takes their allowed names and approval requests along and clears the
      references of requests to them. */
  function DeleteApiKeys(db: Db, doomed: set<Id>): Db {
    db.(apiKeys := db.apiKeys - doomed,
        allowedKeys := (set row | row in db.allowedKeys && row.0 !in doomed),
        approvals := (map a | a in db.approvals && db.approvals[a].apiKey !in doomed :: db.approvals[a]),
        authRequests := (map r | r in db.authRequests ::
                           if db.authRequests[r].Some? && db.authRequests[r].value in doomed
                           then None else db.authRequests[r]),
        requests := map r | r in db.requests ::
                      if db.requests[r].sessionKey.Some? && db.requests[r].sessionKey.value in doomed
                      then db.requests[r].(sessionKey := None) else db.requests[r])
  }

  /** Rows that block the deletion of a device: their foreign key has no delete action. */
  predicate DeviceInUse(db: Db, device: Id) {
    || (exists k | k in db.apiKeys :: db.apiKeys[k].device == Some(device))
    || (exists r | r in db.requests :: db.requests[r].device == Some(device))
    || (exists c | c in db.challenges :: db.challenges[c].device == device)
    || (exists p | p in db.proposals :: db.proposals[p].result == Some(device))
  }

  /** Deleting a device row; its policy, ban and recipient rows go with it. */
  function DeleteDeviceRow(db: Db, device: Id): Option<Db> {
    if DeviceInUse(db, device) then None
    else Some(db.(devices := db.devices - {device},
                  policies := db.policies - {device},
                  policyKeys := WithoutDevice(db.policyKeys, device),
                  bans := db.bans - {device},
                  recipients := map r | r in db.recipients && db.recipients[r].device != device
                                :: db.recipients[r]))
  }

  lemma DeleteApiKeysKeepsForeignKeys(db: Db, doomed: set<Id>)
    requires ForeignKeysHold(db)
    ensures ForeignKeysHold(DeleteApiKeys(db, doomed))
  {
  }
}
