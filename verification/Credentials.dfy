/** Credentials: authentication, minting, revocation, approval, devices and proposals. Every
    function is one statement or one transaction on the tables. */
module Credentials {
  import opened Basics
  import opened Bans
  import opened Policy
  import opened Tables

  // ---------------------------------------------------------------- minting

  function InitialStatus(kind: KeyKind): KeyStatus { if kind.ApprovalRequired? then PendingApproval else Active }

  /** One credential insert. It fails on its foreign key when the device row is gone. */
  function MintKey(db: Db, name: string, kind: KeyKind, expiresAt: Option<int>, owner: string, device: Option<Id>)
    : Option<Db>
  {
    if device.Some? && device.value !in db.devices then None
    else Some(db.(nextId := db.nextId + 2,
                  apiKeys := db.apiKeys[db.nextId :=
                    ApiKey(Digest(db.nextId + 1), name, kind, InitialStatus(kind), expiresAt, owner, device)]))
  }

  /** The inserts of a key's allowed names. */
  function Allow(db: Db, k: Id, names: set<string>): Db {
    db.(allowedKeys := db.allowedKeys + set name | name in names :: (k, name))
  }

  // ---------------------------------------------------------------- authentication

  predicate KeyMatches(db: Db, k: Id, secret: Secret) {
    k in db.apiKeys && db.apiKeys[k].keyHash == Digest(secret)
  }

  /** `AdminAuth`, for the row `k` that the lookup by hash finds. */
  function AdminAuth(db: Db, k: Id, secret: Secret): Result<Claims, AppError> {
    if !KeyMatches(db, k, secret) then Err(Unauthorized)
    else
      var row := db.apiKeys[k];
      if !(row.kind.Session? || row.kind.ApprovalToken?) || row.status != Active then Err(Unauthorized)
      else if !Unexpired(row.expiresAt, db.now) then Err(SessionExpired)
      else if row.device.Some? && Banned(db.bans, row.device.value, db.now) then Err(DeviceBanned)
      else Ok(Claims(row.owner, row.device, k))
  }

  /** `auth_session_bearer`, for the row `k` that the lookup by hash finds. */
  function AuthBearer(db: Db, k: Id, secret: Secret): Result<Claims, AppError> {
    if !KeyMatches(db, k, secret) || !db.apiKeys[k].kind.Session? then Err(Unauthorized)
    else
      var row := db.apiKeys[k];
      if row.status == Revoked || row.status == Used then Err(Unauthorized)
      else if !Unexpired(row.expiresAt, db.now) then Err(SessionExpired)
      else if row.device.Some? && Banned(db.bans, row.device.value, db.now) then Err(DeviceBanned)
      else Ok(Claims(row.owner, row.device, k))
  }

  /** The lookup and the status checks of `auth_manual_key`. */
  function LookupManual(db: Db, k: Id, secret: Secret): Result<ApiKey, AppError> {
    if !KeyMatches(db, k, secret) || db.apiKeys[k].kind.Session? then Err(Unauthorized)
    else
      var row := db.apiKeys[k];
      if row.status == Revoked || row.status == Used then Err(Unauthorized)
      else if !Unexpired(row.expiresAt, db.now) then Err(Unauthorized)
      else if row.status != Active then
        if row.kind.ApprovalRequired? then Err(AwaitingApproval) else Err(Unauthorized)
      else Ok(row)
  }

  predicate Consumable(db: Db, k: Id) {
    k in db.apiKeys && db.apiKeys[k].status == Active && db.apiKeys[k].kind == OneTime
  }

  /** The guarded update that consumes a one-time key. */
  function ConsumeKey(db: Db, k: Id): Db {
    if Consumable(db, k) then db.(apiKeys := db.apiKeys[k := db.apiKeys[k].(status := Used)]) else db
  }

  /** The whole of `auth_manual_key` when nothing runs in between. */
  function AuthManual(db: Db, k: Id, secret: Secret): (Result<Claims, AppError>, Db) {
    match LookupManual(db, k, secret)
    case Err(e) => (Err(e), db)
    case Ok(row) =>
      if row.device.Some? && Banned(db.bans, row.device.value, db.now) then (Err(DeviceBanned), db)
      else (Ok(Claims(row.owner, row.device, k)), ConsumeKey(db, k))
  }

  /** A one-time key is used up exactly when it is accepted. */
  lemma AcceptedOneTimeKeyIsUsed(db: Db, k: Id, secret: Secret)
    ensures var (r, after) := AuthManual(db, k, secret);
            && (r.Ok? ==> k in db.apiKeys)
            && (r.Ok? && db.apiKeys[k].kind == OneTime ==>
                  k in after.apiKeys && after.apiKeys[k].status == Used && LookupManual(after, k, secret).Err?)
            && (r.Err? || db.apiKeys[k].kind != OneTime ==> after == db)
  {
    hide Banned, Unexpired, ConsumeKey;
    if LookupManual(db, k, secret).Ok? && db.apiKeys[k].kind == OneTime {
      ConsumedIsUsed(db, k);
    } else {
      OnlyOneTimeIsConsumed(db, k);
    }
  }

  lemma ConsumedIsUsed(db: Db, k: Id)
    requires Consumable(db, k)
    ensures k in ConsumeKey(db, k).apiKeys && ConsumeKey(db, k).apiKeys[k] == db.apiKeys[k].(status := Used)
  {
  }

  lemma OnlyOneTimeIsConsumed(db: Db, k: Id)
    ensures k in db.apiKeys && db.apiKeys[k].kind != OneTime ==> ConsumeKey(db, k) == db
  {
  }

  // ---------------------------------------------------------------- revoking and deleting

  predicate ActiveSession(row: ApiKey, owner: string, name: Option<string>) {
    row.owner == owner && row.kind.Session? && row.status == Active && (name.None? || name == Some(row.name))
  }

  /** Revokes the owner's active sessions, all of them or those with one label. */
  function RevokeSessions(db: Db, owner: string, name: Option<string>): Db {
    db.(apiKeys := map k | k in db.apiKeys ::
          if ActiveSession(db.apiKeys[k], owner, name) then db.apiKeys[k].(status := Revoked) else db.apiKeys[k])
  }

  predicate Revocable(db: Db, owner: string, k: Id) {
    k in db.apiKeys && db.apiKeys[k].owner == owner
    && (db.apiKeys[k].status == Active || db.apiKeys[k].status == PendingApproval)
  }

  function RevokeKey(db: Db, owner: string, k: Id): Db {
    if Revocable(db, owner, k) then db.(apiKeys := db.apiKeys[k := db.apiKeys[k].(status := Revoked)]) else db
  }

  predicate Deletable(db: Db, owner: string, k: Id) {
    k in db.apiKeys && db.apiKeys[k].owner == owner
    && (db.apiKeys[k].status == Revoked || db.apiKeys[k].status == Used)
  }

  function DeleteKey(db: Db, owner: string, k: Id): Db {
    if Deletable(db, owner, k) then DeleteApiKeys(db, {k}) else db
  }

  function RevokedSessions(db: Db, owner: string): set<Id> {
    set k | k in db.apiKeys && db.apiKeys[k].owner == owner && db.apiKeys[k].kind.Session?
            && db.apiKeys[k].status == Revoked
  }

  // ---------------------------------------------------------------- approval of keys

  const APPROVAL_SECS: nat := 10 * 60

  predicate AwaitsApproval(db: Db, k: Id) {
    k in db.apiKeys && db.apiKeys[k].kind.ApprovalRequired? && db.apiKeys[k].status == PendingApproval
  }

  /** `request_access` and `request_approval`: a new approval request; the former first lapses
      the open ones for the same key. */
  function RequestApproval(db: Db, k: Id, supersede: bool): Option<Db> {
    if !AwaitsApproval(db, k) then None
    else
      var lapsed := if supersede then LapseApprovals(db.approvals, k) else db.approvals;
      Some(db.(nextId := db.nextId + 2,
               approvals := lapsed[db.nextId := Approval(k, Digest(db.nextId + 1), Open, db.now + APPROVAL_SECS)]))
  }

  function LapseApprovals(approvals: map<Id, Approval>, k: Id): map<Id, Approval> {
    map a | a in approvals ::
      if approvals[a].apiKey == k && approvals[a].status == Open then approvals[a].(status := Lapsed)
      else approvals[a]
  }

  /** The read of `approve_request`: the key that the open request names, if the owner owns it and
      the confirmation matches. */
  function ChooseApproval(db: Db, owner: string, a: Id, confirm: Secret): Result<Id, AppError> {
    if a !in db.approvals || db.approvals[a].status != Open || db.approvals[a].expiresAt <= db.now
       || db.approvals[a].apiKey !in db.apiKeys || db.apiKeys[db.approvals[a].apiKey].owner != owner
    then Err(NotFound)
    else if Digest(confirm) != db.approvals[a].confirm then Err(Forbidden)
    else Ok(db.approvals[a].apiKey)
  }

  /** The transaction of `approve_request`: neither update is guarded. */
  function GrantApproval(db: Db, a: Id, k: Id): Db {
    db.(approvals := if a in db.approvals then db.approvals[a := db.approvals[a].(status := Granted)] else db.approvals,
        apiKeys := if k in db.apiKeys then db.apiKeys[k := db.apiKeys[k].(status := Active)] else db.apiKeys)
  }

  function DeclineApproval(db: Db, owner: string, a: Id): Db {
    if a in db.approvals && db.approvals[a].status == Open
       && db.approvals[a].apiKey in db.apiKeys && db.apiKeys[db.approvals[a].apiKey].owner == owner
    then db.(approvals := db.approvals[a := db.approvals[a].(status := Declined)]) else db
  }

  // ---------------------------------------------------------------- devices and proposals

  predicate NameTaken(db: Db, owner: string, name: string) {
    exists d | d in db.devices :: db.devices[d].owner == owner && db.devices[d].name == name
  }

  /** The insert of `register_finish`, after the ceremony. */
  function EnrolDevice(db: Db, owner: string, name: string, publicKey: string, keyType: string): Option<Db> {
    if NameTaken(db, owner, name) then None
    else Some(db.(nextId := db.nextId + 1,
                  devices := db.devices[db.nextId := Device(owner, name, publicKey, keyType, None)]))
  }

  function Touch(db: Db, device: Id): Db {
    if device in db.devices then db.(devices := db.devices[device := db.devices[device].(lastSeen := Some(db.now))])
    else db
  }

  const PROPOSAL_SECS: nat := 30 * 60

  /** `propose`: unauthenticated; the token is the secret after the new id. */
  function Propose(db: Db, name: string, publicKey: string, keyType: string): Db {
    db.(nextId := db.nextId + 2,
        proposals := db.proposals[db.nextId :=
          Proposal(name, publicKey, keyType, Proposed, None, Digest(db.nextId + 1), db.now + PROPOSAL_SECS, None)])
  }

  /** `link_proposal`: the device must be the confirming owner's and carry the proposed key. */
  function LinkProposal(db: Db, owner: string, p: Id, token: Secret, device: Id): (Result<(), AppError>, Db) {
    if p !in db.proposals || Digest(token) != db.proposals[p].confirmToken then (Err(NotFound), db)
    else if device !in db.devices then (Err(NotFound), db)
    else if db.devices[device].owner != owner || db.devices[device].publicKey != db.proposals[p].publicKey
            || db.devices[device].keyType != db.proposals[p].keyType then (Err(NotFound), db)
    else if db.proposals[p].status != Proposed then (Err(NotFound), db)
    else (Ok(()),
          db.(proposals := db.proposals[p :=
                db.proposals[p].(status := Confirmed, result := Some(device), confirmedBy := Some(owner))]))
  }

  function DismissProposal(db: Db, p: Id): Db {
    if p in db.proposals && db.proposals[p].status == Proposed
    then db.(proposals := db.proposals[p := db.proposals[p].(status := Dismissed)]) else db
  }

  // ---------------------------------------------------------------- cleanup

  function LapseOld(db: Db): Db {
    db.(approvals := map a | a in db.approvals ::
          if db.approvals[a].status == Open && db.approvals[a].expiresAt <= db.now
          then db.approvals[a].(status := Lapsed) else db.approvals[a])
  }

  function ExpireRequests(db: Db): Db {
    db.(requests := map r | r in db.requests ::
          if db.requests[r].status == Waiting && db.requests[r].expiresAt <= db.now
          then db.requests[r].(status := Expired) else db.requests[r])
  }

  function DropChallenges(db: Db): Db {
    db.(challenges := map c | c in db.challenges && db.challenges[c].expiresAt > db.now :: db.challenges[c])
  }

  function TimeOutProposals(db: Db): Db {
    db.(proposals := map p | p in db.proposals ::
          if db.proposals[p].status == Proposed && db.proposals[p].expiresAt <= db.now
          then db.proposals[p].(status := TimedOut) else db.proposals[p])
  }

  function DropKvEntries(db: Db): Db {
    db.(kv := map k | k in db.kv && Unexpired(db.kv[k].expiresAt, db.now) :: db.kv[k])
  }
}
