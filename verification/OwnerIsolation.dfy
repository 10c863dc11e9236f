/** Owners are isolated: nobody's request changes what belongs to another owner. */
module OwnerIsolation {
  import opened Basics
  import opened Policy
  import opened Bans
  import opened Tables
  import opened DeviceDeletion
  import opened Sessions
  import opened Credentials
  import opened Integrity
  import opened Audit
  import opened AuditInvariant
  import opened Runs
  import opened Entries
  import opened Handlers

  // ---------------------------------------------------------------- what belongs to the others

  function KeysOfOtherOwners(db: Db, o: string): map<Id, ApiKey> {
    map k | k in db.apiKeys && db.apiKeys[k].owner != o :: db.apiKeys[k]
  }

  function OtherDevices(db: Db, o: string): map<Id, Device> {
    map d | d in db.devices && db.devices[d].owner != o :: db.devices[d]
  }

  predicate Foreign(db: Db, o: string, d: Id) { d in db.devices && db.devices[d].owner != o }

  function OtherPolicies(db: Db, o: string): map<Id, PolicyRow> {
    map d | d in db.policies && Foreign(db, o, d) :: db.policies[d]
  }

  function OtherBans(db: Db, o: string): BanTable { map d | d in db.bans && Foreign(db, o, d) :: db.bans[d] }

  function OtherRequests(db: Db, o: string): map<Id, SessionRequest> {
    map r | r in db.requests && db.requests[r].device.Some? && Foreign(db, o, db.requests[r].device.value)
    :: db.requests[r]
  }

  function OtherChallenges(db: Db, o: string): map<Id, Challenge> {
    map c | c in db.challenges && Foreign(db, o, db.challenges[c].device) :: db.challenges[c]
  }

  function OtherApprovals(db: Db, o: string): map<Id, Approval> {
    map a | a in db.approvals && db.approvals[a].apiKey in db.apiKeys
            && db.apiKeys[db.approvals[a].apiKey].owner != o
    :: db.approvals[a]
  }

  /** Proposals that somebody else has confirmed; a proposal nobody has confirmed has no owner. */
  function OtherProposals(db: Db, o: string): map<Id, Proposal> {
    map p | p in db.proposals && db.proposals[p].status == Confirmed && db.proposals[p].confirmedBy != Some(o)
    :: db.proposals[p]
  }

  function OtherEntries(db: Db, o: string): map<EntryKey, KvEntry> {
    map e | e in db.kv && e.1 != o :: db.kv[e]
  }

  function OtherBodies(db: Db, o: string): map<EntryKey, string> {
    map e | e in db.bodies && e.1 != o :: db.bodies[e]
  }

  /** What hangs on credentials. */
  ghost predicate KeysIsolated(db: Db, after: Db, o: string) {
    KeysOfOtherOwners(after, o) == KeysOfOtherOwners(db, o) && OtherApprovals(after, o) == OtherApprovals(db, o)
  }

  /** What hangs on devices. */
  ghost predicate DevicesIsolated(db: Db, after: Db, o: string) {
    && OtherDevices(after, o) == OtherDevices(db, o)
    && OtherRequests(after, o) == OtherRequests(db, o)
    && OtherChallenges(after, o) == OtherChallenges(db, o)
    && OtherProposals(after, o) == OtherProposals(db, o)
  }

  ghost predicate PoliciesIsolated(db: Db, after: Db, o: string) {
    && OtherPolicies(after, o) == OtherPolicies(db, o)
    && (forall d | Foreign(db, o, d) :: KeysOf(after.policyKeys, d) == KeysOf(db.policyKeys, d))
    && OtherBans(after, o) == OtherBans(db, o)
  }

  ghost predicate EntriesIsolated(db: Db, after: Db, o: string) {
    OtherEntries(after, o) == OtherEntries(db, o) && OtherBodies(after, o) == OtherBodies(db, o)
  }

  ghost predicate Isolated(db: Db, after: Db, o: string) {
    KeysIsolated(db, after, o) && DevicesIsolated(db, after, o) && PoliciesIsolated(db, after, o)
    && EntriesIsolated(db, after, o)
  }

  lemma SameKeys(db: Db, after: Db, o: string)
    requires after.apiKeys == db.apiKeys && after.approvals == db.approvals
    ensures KeysIsolated(db, after, o)
  {
  }

  lemma SameDevices(db: Db, after: Db, o: string)
    requires after.devices == db.devices && after.requests == db.requests
    requires after.challenges == db.challenges && after.proposals == db.proposals
    ensures DevicesIsolated(db, after, o)
  {
  }

  lemma SamePolicies(db: Db, after: Db, o: string)
    requires after.policies == db.policies && after.policyKeys == db.policyKeys && after.bans == db.bans
    requires OtherDevices(after, o) == OtherDevices(db, o)
    ensures PoliciesIsolated(db, after, o)
  {
    SameForeign(db, after, o);
  }

  lemma SameForeign(db: Db, after: Db, o: string)
    requires OtherDevices(after, o) == OtherDevices(db, o)
    ensures forall d :: Foreign(after, o, d) <==> Foreign(db, o, d)
  {
    forall d ensures Foreign(after, o, d) <==> Foreign(db, o, d) {
      assert d in OtherDevices(after, o) <==> d in OtherDevices(db, o);
    }
  }

  lemma SameEntries(db: Db, after: Db, o: string)
    requires after.kv == db.kv && after.bodies == db.bodies
    ensures EntriesIsolated(db, after, o)
  {
  }

  // ---------------------------------------------------------------- steps on credentials

  /** Changing own credentials and the approvals of own credentials, and nothing else that counts. */
  lemma OwnKeysIsolated(db: Db, after: Db, o: string)
    requires KeysIsolated(db, after, o) && after.devices == db.devices && after.challenges == db.challenges
    requires after.proposals == db.proposals && after.policies == db.policies && after.policyKeys == db.policyKeys
    requires after.bans == db.bans && after.kv == db.kv && after.bodies == db.bodies
    requires OtherRequests(after, o) == OtherRequests(db, o)
    ensures Isolated(db, after, o)
  {
    hide KeysIsolated, OtherRequests, PoliciesIsolated, EntriesIsolated;
    SamePolicies(db, after, o);
    SameEntries(db, after, o);
  }

  lemma MintIsolated(db: Db, name: string, kind: KeyKind, expiresAt: Option<int>, o: string, device: Option<Id>)
    requires Intact(db) && MintKey(db, name, kind, expiresAt, o, device).Some?
    ensures Isolated(db, MintKey(db, name, kind, expiresAt, o, device).value, o)
  {
    var after := MintKey(db, name, kind, expiresAt, o, device).value;
    assert KeysOfOtherOwners(after, o) == KeysOfOtherOwners(db, o);
    FreshKeyApprovals(db, after, o);
    OwnKeysIsolated(db, after, o);
    hide Isolated, Intact;
  }

  lemma FreshKeyApprovals(db: Db, after: Db, o: string)
    requires Intact(db) && after.approvals == db.approvals && db.nextId in after.apiKeys
    requires after.apiKeys == db.apiKeys[db.nextId := after.apiKeys[db.nextId]]
    ensures OtherApprovals(after, o) == OtherApprovals(db, o)
  {
  }

  /** Other rows of the key table are equal, and own rows are still own rows. */
  lemma StatusIsolated(db: Db, after: Db, o: string)
    requires after == db.(apiKeys := after.apiKeys) && after.apiKeys.Keys == db.apiKeys.Keys
    requires forall k | k in db.apiKeys :: after.apiKeys[k].owner == db.apiKeys[k].owner
    requires forall k | k in db.apiKeys && db.apiKeys[k].owner != o :: after.apiKeys[k] == db.apiKeys[k]
    ensures Isolated(db, after, o)
  {
    assert KeysIsolated(db, after, o);
    OwnKeysIsolated(db, after, o);
    hide Isolated, KeysIsolated;
  }

  lemma OwnStatusIsolated(db: Db, o: string, k: Id, status: KeyStatus)
    requires k in db.apiKeys && db.apiKeys[k].owner == o
    ensures Isolated(db, db.(apiKeys := db.apiKeys[k := db.apiKeys[k].(status := status)]), o)
  {
    hide Isolated;
    StatusIsolated(db, db.(apiKeys := db.apiKeys[k := db.apiKeys[k].(status := status)]), o);
  }

  lemma DeletionIsolated(db: Db, o: string, doomed: set<Id>)
    requires Intact(db) && forall k | k in doomed && k in db.apiKeys :: db.apiKeys[k].owner == o
    ensures Isolated(db, DeleteApiKeys(db, doomed), o)
  {
    hide Isolated;
    var after := DeleteApiKeys(db, doomed);
    DeletedKeysIsolated(db, o, doomed);
    DeletedKeysRequests(db, o, doomed);
    OwnKeysIsolated(db, after, o);
  }

  lemma DeletedKeysIsolated(db: Db, o: string, doomed: set<Id>)
    requires forall k | k in doomed && k in db.apiKeys :: db.apiKeys[k].owner == o
    ensures KeysIsolated(db, DeleteApiKeys(db, doomed), o)
  {
  }

  /** The session key of a foreign device's request is a foreign key. */
  lemma DeletedKeysRequests(db: Db, o: string, doomed: set<Id>)
    requires Intact(db) && forall k | k in doomed && k in db.apiKeys :: db.apiKeys[k].owner == o
    ensures OtherRequests(DeleteApiKeys(db, doomed), o) == OtherRequests(db, o)
  {
    hide Intact;
    var after := DeleteApiKeys(db, doomed);
    forall r | r in db.requests && db.requests[r].device.Some? && Foreign(db, o, db.requests[r].device.value)
      ensures after.requests[r] == db.requests[r]
    {
      ForeignRequestKey(db, o, r);
    }
  }

  lemma ForeignRequestKey(db: Db, o: string, r: Id)
    requires Intact(db) && r in db.requests
    requires db.requests[r].device.Some? && Foreign(db, o, db.requests[r].device.value)
    ensures db.requests[r].sessionKey.Some? ==>
              db.requests[r].sessionKey.value in db.apiKeys && db.apiKeys[db.requests[r].sessionKey.value].owner != o
  {
  }

  lemma GrantIsolated(db: Db, o: string, a: Id, k: Id)
    requires k in db.apiKeys && db.apiKeys[k].owner == o && a in db.approvals && db.approvals[a].apiKey == k
    ensures Isolated(db, GrantApproval(db, a, k), o)
  {
    hide Isolated;
    var after := GrantApproval(db, a, k);
    OwnKeysIsolated(db, after, o);
  }

  lemma DeclineIsolated(db: Db, o: string, a: Id)
    ensures Isolated(db, DeclineApproval(db, o, a), o)
  {
    hide Isolated;
    OwnKeysIsolated(db, DeclineApproval(db, o, a), o);
  }

  lemma NothingIsolated(db: Db, o: string)
    ensures Isolated(db, db, o)
  {
  }

  lemma AllowIsolated(db: Db, mid: Db, o: string, k: Id, names: set<string>)
    requires Isolated(db, mid, o)
    ensures Isolated(db, Allow(mid, k, names), o)
  {
  }

  lemma KeyRequestsIsolated(db: Db, c: Claims, request: KeyRequest)
    requires Intact(db)
    ensures Isolated(db, HandleKeys(db, c, request), c.owner)
  {
    hide Isolated, Intact, RestrictedCaller, MintKey, Allow, DeleteApiKeys, RevokedSessions, GrantApproval,
      DeclineApproval, RevokeSessions, CreateSessionKey, ChooseApproval, DeleteKey, RevokeKey, Revocable, Deletable;
    NothingIsolated(db, c.owner);
    match request
    case PostKey(name, kind, expiresAt, names) =>
      if MintKey(db, name, kind, expiresAt, c.owner, c.device).Some? {
        MintIsolated(db, name, kind, expiresAt, c.owner, c.device);
        AllowIsolated(db, MintKey(db, name, kind, expiresAt, c.owner, c.device).value, c.owner, db.nextId, names);
      }
    case PostSessionKey => SessionKeyIsolated(db, c);
    case PostCliToken(days) =>
      TokenIsolated(db, c, "kv-cli", CliDays(days) * DAY);
    case PostDeviceToken => TokenIsolated(db, c, "kv-approver device", 180 * DAY);
    case PostRevoke(k) => RevokeIsolated(db, c.owner, k);
    case DeleteKeyRow(k) => DeleteIsolated(db, c.owner, k);
    case DeleteRevokedRows => DeleteRevokedIsolated(db, c.owner);
    case PostLogout =>
      RevokeIsolated(db, c.owner, c.keyId);
      SessionsIsolated(db, c.owner, None);
    case PostApproval(a, confirm) =>
      if ChooseApproval(db, c.owner, a, confirm).Ok? { ChosenIsolated(db, c.owner, a, confirm); }
    case PostRejection(a) => DeclineIsolated(db, c.owner, a);
  }

  lemma TokenIsolated(db: Db, c: Claims, name: string, secs: int)
    requires Intact(db)
    ensures Isolated(db, CreateToken(db, c, name, secs).1, c.owner)
  {
    hide Isolated, Intact, RestrictedCaller, MintKey;
    NothingIsolated(db, c.owner);
    if MintKey(db, name, ApprovalToken, Some(db.now + secs), c.owner, c.device).Some? {
      MintIsolated(db, name, ApprovalToken, Some(db.now + secs), c.owner, c.device);
    }
  }

  lemma RevokeIsolated(db: Db, o: string, k: Id)
    ensures Isolated(db, RevokeKey(db, o, k), o)
  {
    hide Isolated;
    NothingIsolated(db, o);
    if Revocable(db, o, k) { OwnStatusIsolated(db, o, k, Revoked); }
  }

  lemma SessionsIsolated(db: Db, o: string, name: Option<string>)
    ensures Isolated(db, RevokeSessions(db, o, name), o)
  {
    hide Isolated;
    StatusIsolated(db, RevokeSessions(db, o, name), o);
  }

  lemma DeleteIsolated(db: Db, o: string, k: Id)
    requires Intact(db)
    ensures Isolated(db, DeleteKey(db, o, k), o)
  {
    hide Isolated, Intact, DeleteApiKeys;
    NothingIsolated(db, o);
    if Deletable(db, o, k) { DeletionIsolated(db, o, {k}); }
  }

  lemma DeleteRevokedIsolated(db: Db, o: string)
    requires Intact(db)
    ensures Isolated(db, DeleteApiKeys(db, RevokedSessions(db, o)), o)
  {
    hide Isolated, Intact, DeleteApiKeys;
    DeletionIsolated(db, o, RevokedSessions(db, o));
  }

  lemma ChosenIsolated(db: Db, o: string, a: Id, confirm: Secret)
    requires ChooseApproval(db, o, a, confirm).Ok?
    ensures Isolated(db, GrantApproval(db, a, ChooseApproval(db, o, a, confirm).value), o)
  {
    hide Isolated, GrantApproval;
    GrantIsolated(db, o, a, ChooseApproval(db, o, a, confirm).value);
  }

  lemma IsolatedTransitive(db: Db, mid: Db, after: Db, o: string)
    requires Isolated(db, mid, o) && Isolated(mid, after, o)
    ensures Isolated(db, after, o)
  {
    hide KeysOfOtherOwners, OtherApprovals, OtherDevices, OtherRequests, OtherChallenges, OtherProposals,
      OtherPolicies, OtherBans, OtherEntries, OtherBodies, Foreign, KeysOf;
    SameForeign(db, mid, o);
  }

  lemma SessionKeyIsolated(db: Db, c: Claims)
    requires Intact(db)
    ensures Isolated(db, CreateSessionKey(db, c).1, c.owner)
  {
    hide Isolated, Intact, RestrictedCaller, MintKey, RevokeSessions;
    NothingIsolated(db, c.owner);
    var revoked := RevokeSessions(db, c.owner, Some(CLI_SESSION));
    SessionsIsolated(db, c.owner, Some(CLI_SESSION));
    RevokeSessionsKeepsIntact(db, c.owner, Some(CLI_SESSION));
    var expiry := Some(db.now + 15 * 3600);
    if MintKey(revoked, CLI_SESSION, Session, expiry, c.owner, c.device).Some? {
      MintIsolated(revoked, CLI_SESSION, Session, expiry, c.owner, c.device);
      IsolatedTransitive(db, revoked, MintKey(revoked, CLI_SESSION, Session, expiry, c.owner, c.device).value, c.owner);
    }
  }

  // ---------------------------------------------------------------- session requests, devices, policies

  /** Changing only what hangs on devices. */
  lemma OwnDevicesIsolated(db: Db, after: Db, o: string)
    requires DevicesIsolated(db, after, o)
    requires after.apiKeys == db.apiKeys && after.approvals == db.approvals
    requires after.kv == db.kv && after.bodies == db.bodies
    requires after.policies == db.policies && after.policyKeys == db.policyKeys && after.bans == db.bans
    ensures Isolated(db, after, o)
  {
    hide KeysIsolated, EntriesIsolated, PoliciesIsolated, OtherDevices, OtherRequests, OtherChallenges, OtherProposals;
    SameKeys(db, after, o);
    SamePolicies(db, after, o);
    SameEntries(db, after, o);
  }

  lemma OwnRequestIsolated(db: Db, o: string, r: Id, row: SessionRequest)
    requires r in db.requests && row.device == db.requests[r].device
    requires row.device.Some? ==> !Foreign(db, o, row.device.value)
    ensures DevicesIsolated(db, db.(requests := db.requests[r := row]), o)
  {
  }

  lemma RejectionIsolated(db: Db, o: string, r: Id)
    ensures Isolated(db, Reject(db, o, r).1, o)
  {
    hide Isolated, DevicesIsolated;
    NothingIsolated(db, o);
    if Reject(db, o, r).0.Ok? {
      OwnRequestIsolated(db, o, r, db.requests[r].(status := Rejected));
      OwnDevicesIsolated(db, Reject(db, o, r).1, o);
    }
  }

  lemma ApprovalIsolated(db: Db, o: string, only: Option<Id>, r: Id, token: Secret, hours: int)
    requires Intact(db)
    ensures Isolated(db, Approve(db, o, only, r, token, hours).1, o)
  {
    hide Isolated, DevicesIsolated, Intact;
    NothingIsolated(db, o);
    if Approve(db, o, only, r, token, hours).0.Ok? {
      var d := db.requests[r].device.value;
      var minted := MintKey(db, "session", Session, HoursFromNow(db.now, hours), o, Some(d)).value;
      MintIsolated(db, "session", Session, HoursFromNow(db.now, hours), o, Some(d));
      var row := Approve(db, o, only, r, token, hours).1.requests[r];
      OwnRequestIsolated(minted, o, r, row);
      OwnDevicesIsolated(minted, minted.(requests := minted.requests[r := row]), o);
      IsolatedTransitive(db, minted, minted.(requests := minted.requests[r := row]), o);
      ApprovalIsMintAndFill(db, o, only, r, token, hours);
    }
  }

  lemma ApprovalIsMintAndFill(db: Db, o: string, only: Option<Id>, r: Id, token: Secret, hours: int)
    requires Approve(db, o, only, r, token, hours).0.Ok?
    ensures var after := Approve(db, o, only, r, token, hours).1;
            var minted := MintKey(db, "session", Session, HoursFromNow(db.now, hours), o, db.requests[r].device).value;
            after == minted.(requests := minted.requests[r := after.requests[r]])
  {
  }

  lemma EnrolIsolated(db: Db, o: string, name: string, publicKey: string, keyType: string)
    requires Intact(db) && EnrolDevice(db, o, name, publicKey, keyType).Some?
    ensures Isolated(db, EnrolDevice(db, o, name, publicKey, keyType).value, o)
  {
    hide Isolated, Intact;
    var after := EnrolDevice(db, o, name, publicKey, keyType).value;
    FreshDeviceIsolated(db, after, o);
    OwnDevicesIsolated(db, after, o);
  }

  lemma FreshDeviceIsolated(db: Db, after: Db, o: string)
    requires Intact(db) && db.nextId in after.devices && after.devices[db.nextId].owner == o
    requires after.devices == db.devices[db.nextId := after.devices[db.nextId]]
    requires after.requests == db.requests && after.challenges == db.challenges && after.proposals == db.proposals
    ensures DevicesIsolated(db, after, o)
  {
    assert OtherDevices(after, o) == OtherDevices(db, o);
    SameForeign(db, after, o);
    hide Intact, Foreign;
  }

  lemma LinkIsolated(db: Db, o: string, p: Id, token: Secret, device: Id)
    ensures Isolated(db, LinkProposal(db, o, p, token, device).1, o)
  {
    hide Isolated;
    NothingIsolated(db, o);
    if LinkProposal(db, o, p, token, device).0.Ok? {
      OwnDevicesIsolated(db, LinkProposal(db, o, p, token, device).1, o);
    }
  }

  lemma DismissalIsolated(db: Db, o: string, p: Id)
    ensures Isolated(db, DismissProposal(db, p), o)
  {
    hide Isolated;
    OwnDevicesIsolated(db, DismissProposal(db, p), o);
  }

  lemma TouchIsolated(db: Db, o: string, device: Id)
    requires device in db.devices && db.devices[device].owner == o
    ensures Isolated(db, Touch(db, device), o)
  {
    hide Isolated;
    var after := Touch(db, device);
    assert OtherDevices(after, o) == OtherDevices(db, o);
    SameForeign(db, after, o);
    OwnDevicesIsolated(db, after, o);
  }

  /** Removing an own device: its credentials, requests, proposals and rows were the owner's. */
  lemma PurgeIsolated(db: Db, o: string, device: Id)
    requires Intact(db) && device in db.devices && db.devices[device].owner == o
    ensures Isolated(db, Purged(db, device), o)
  {
    hide KeysIsolated, DevicesIsolated, PoliciesIsolated, EntriesIsolated, Intact, Purged;
    PurgedKeysIsolated(db, o, device);
    PurgedDevicesIsolated(db, o, device);
    PurgedPoliciesIsolated(db, o, device);
    PurgedEntries(db, device);
    SameEntries(db, Purged(db, device), o);
  }

  lemma PurgedEntries(db: Db, device: Id)
    ensures Purged(db, device).kv == db.kv && Purged(db, device).bodies == db.bodies
  {
  }

  lemma PurgedKeysIsolated(db: Db, o: string, device: Id)
    requires Intact(db) && device in db.devices && db.devices[device].owner == o
    ensures KeysIsolated(db, Purged(db, device), o)
  {
    hide Intact;
    DeviceKeysAreOwn(db, o, device);
  }

  lemma DeviceKeysAreOwn(db: Db, o: string, device: Id)
    requires Intact(db) && device in db.devices && db.devices[device].owner == o
    ensures forall k | k in KeysOfDevice(db, device) :: k in db.apiKeys && db.apiKeys[k].owner == o
  {
  }

  lemma PurgedDevicesIsolated(db: Db, o: string, device: Id)
    requires Intact(db) && device in db.devices && db.devices[device].owner == o
    ensures DevicesIsolated(db, Purged(db, device), o)
  {
    hide Intact, Purged, OtherRequests, OtherChallenges, OtherProposals;
    PurgedOtherDevices(db, o, device);
    PurgedOtherRequests(db, o, device);
    PurgedOtherProposals(db, o, device);
  }

  lemma PurgedOtherDevices(db: Db, o: string, device: Id)
    requires device in db.devices && db.devices[device].owner == o
    ensures OtherDevices(Purged(db, device), o) == OtherDevices(db, o)
  {
  }

  lemma PurgedOtherRequests(db: Db, o: string, device: Id)
    requires device in db.devices && db.devices[device].owner == o
    ensures OtherRequests(Purged(db, device), o) == OtherRequests(db, o)
    ensures OtherChallenges(Purged(db, device), o) == OtherChallenges(db, o)
  {
    PurgedOtherDevices(db, o, device);
    SameForeign(db, Purged(db, device), o);
    assert !Foreign(db, o, device);
    hide Foreign;
  }

  lemma PurgedOtherProposals(db: Db, o: string, device: Id)
    requires Intact(db) && device in db.devices && db.devices[device].owner == o
    ensures OtherProposals(Purged(db, device), o) == OtherProposals(db, o)
  {
  }

  lemma PurgedPoliciesIsolated(db: Db, o: string, device: Id)
    requires device in db.devices && db.devices[device].owner == o
    ensures PoliciesIsolated(db, Purged(db, device), o)
  {
    WithoutDeviceRows(db.policyKeys, device);
  }

  lemma RemovalIsolated(db: Db, o: string, device: Id)
    requires Intact(db)
    ensures Isolated(db, AfterDelete(db, o, device).1, o)
  {
    hide Isolated, Intact;
    NothingIsolated(db, o);
    if device in db.devices && db.devices[device].owner == o {
      DeletedIsPurged(db, o, device);
      PurgeIsolated(db, o, device);
    }
  }

  /** Changing only policies and bans. */
  lemma OwnPoliciesIsolated(db: Db, after: Db, o: string)
    requires PoliciesIsolated(db, after, o)
    requires after == db.(policies := after.policies, policyKeys := after.policyKeys, bans := after.bans)
    ensures Isolated(db, after, o)
  {
    hide KeysIsolated, DevicesIsolated, PoliciesIsolated, EntriesIsolated;
    SameKeys(db, after, o);
    SameDevices(db, after, o);
    SameEntries(db, after, o);
  }

  lemma SaveIsolated(db: Db, o: string, device: Id, n: Normalised)
    requires device in db.devices && db.devices[device].owner == o
    ensures Isolated(db, db.(policies := SavedPolicies(db.policies, o, device, n),
                             policyKeys := SavedKeys(db.policyKeys, device, n)), o)
  {
    hide Isolated;
    var after := db.(policies := SavedPolicies(db.policies, o, device, n),
                     policyKeys := SavedKeys(db.policyKeys, device, n));
    forall d | Foreign(db, o, d) ensures KeysOf(after.policyKeys, d) == KeysOf(db.policyKeys, d) {
      SavedKeysOfOthers(db.policyKeys, device, n, d);
    }
    OwnPoliciesIsolated(db, after, o);
  }

  lemma SavedKeysOfOthers(table: KeyTable, device: Id, n: Normalised, d: Id)
    requires d != device
    ensures KeysOf(SavedKeys(table, device, n), d) == KeysOf(table, d)
  {
    WithoutDeviceRows(table, device);
    KeysOfKeyRows(device, n.keys);
    KeysOfAppend(WithoutDevice(table, device), KeyRows(device, n.keys), d);
  }

  lemma PolicyUpdateIsolated(db: Db, c: Claims, device: Id, body: UpdateRequest)
    ensures Isolated(db, UpdatePolicy(db, c, device, body).1, c.owner)
  {
    hide Isolated, Validated, SavedPolicies, SavedKeys;
    NothingIsolated(db, c.owner);
    if UpdatePolicy(db, c, device, body).0.Ok? { SaveIsolated(db, c.owner, device, Validated(body).value); }
  }

  lemma BansIsolated(db: Db, bans: BanTable, o: string, device: Id)
    requires !Foreign(db, o, device) && bans - {device} == db.bans - {device}
    ensures Isolated(db, db.(bans := bans), o)
  {
    hide Isolated;
    var after := db.(bans := bans);
    forall d | d != device ensures (d in bans <==> d in db.bans) && (d in bans ==> bans[d] == db.bans[d]) {
      assert d in bans - {device} <==> d in db.bans - {device};
      assert d in bans - {device} ==> (bans - {device})[d] == (db.bans - {device})[d];
    }
    assert OtherBans(after, o) == OtherBans(db, o);
    OwnPoliciesIsolated(db, after, o);
  }

  lemma UnbanIsolated(db: Db, c: Claims, device: Id)
    ensures Isolated(db, Unban(db, c, device).1, c.owner)
  {
    hide Isolated;
    NothingIsolated(db, c.owner);
    if Unban(db, c, device).0.Ok? {
      var bans := Unban(db, c, device).1.bans;
      assert bans - {device} == db.bans - {device};
      BansIsolated(db, bans, c.owner, device);
    }
  }

  lemma DeviceRequestsIsolated(db: Db, c: Claims, request: DeviceRequest)
    requires Intact(db)
    ensures Isolated(db, HandleDevices(db, c, request), c.owner)
  {
    hide Isolated, Intact, RestrictedCaller, Approve, Reject, EnrolDevice, AfterDelete, LinkProposal, DismissProposal,
      UpdatePolicy, Unban;
    NothingIsolated(db, c.owner);
    match request
    case PostSessionApproval(r, token, hours) =>
      ApprovalIsolated(db, c.owner, RestrictedCaller(db, c), r, token, HoursGranted(hours));
    case PostSessionRejection(r) => RejectionIsolated(db, c.owner, r);
    case PostDevice(name, publicKey, keyType) =>
      if EnrolDevice(db, c.owner, name, publicKey, keyType).Some? {
        EnrolIsolated(db, c.owner, name, publicKey, keyType);
      }
    case DeleteDeviceById(device) => RemovalIsolated(db, c.owner, device);
    case PostLink(p, token, device) => LinkIsolated(db, c.owner, p, token, device);
    case PostDismissal(p) => DismissalIsolated(db, c.owner, p);
    case PutPolicy(device, body) => PolicyUpdateIsolated(db, c, device, body);
    case DeleteBan(device) => UnbanIsolated(db, c, device);
  }

  // ---------------------------------------------------------------- entries

  /** The device of a caller, if it still exists, is not somebody else's. */
  predicate OwnDevice(db: Db, c: Claims) { c.device.Some? ==> !Foreign(db, c.owner, c.device.value) }

  lemma CheckIsolated(db: Db, base: nat, c: Claims, key: string)
    requires OwnDevice(db, c)
    ensures Isolated(db, AuthorizeCaller(db, base, c, key).1, c.owner)
  {
    hide Isolated, KeyPermitted, Banned, Foreign;
    NothingIsolated(db, c.owner);
    if c.device.Some? {
      var bans := AfterViolation(db.bans, c.device.value, c.owner, base, db.now, key);
      assert bans - {c.device.value} == db.bans - {c.device.value};
      BansIsolated(db, bans, c.owner, c.device.value);
    }
  }

  /** Changing only own entries, bodies and any recipients. */
  lemma OwnEntriesIsolated(db: Db, after: Db, o: string)
    requires after == db.(kv := after.kv, bodies := after.bodies, recipients := after.recipients, nextId := after.nextId)
    requires EntriesIsolated(db, after, o)
    ensures Isolated(db, after, o)
  {
    hide KeysIsolated, DevicesIsolated, PoliciesIsolated, EntriesIsolated;
    SameKeys(db, after, o);
    SameDevices(db, after, o);
    SamePolicies(db, after, o);
  }

  lemma PutIsolated(db: Db, o: string, key: string, body: EntryBody)
    ensures Isolated(db, PutEntry(db, o, key, body), o)
  {
    hide Isolated;
    OwnEntriesIsolated(db, PutEntry(db, o, key, body), o);
  }

  lemma DropIsolated(db: Db, o: string, key: string)
    ensures Isolated(db, DropEntry(db, o, key), o)
  {
    hide Isolated;
    OwnEntriesIsolated(db, DropEntry(db, o, key), o);
  }

  lemma SlideIsolated(db: Db, o: string, key: string)
    requires (key, o) in db.kv
    ensures Isolated(db, Slide(db, o, key), o)
  {
    hide Isolated, Slide;
    SlideTouchesOne(db, o, key);
    OneRowIsolated(db, Slide(db, o, key), o, key);
    OwnEntriesIsolated(db, Slide(db, o, key), o);
  }

  lemma OneRowIsolated(db: Db, after: Db, o: string, key: string)
    requires after == db.(kv := after.kv) && after.kv - {(key, o)} == db.kv - {(key, o)}
    ensures EntriesIsolated(db, after, o)
  {
    forall e: EntryKey | e.1 != o
      ensures (e in after.kv <==> e in db.kv) && (e in db.kv ==> after.kv[e] == db.kv[e])
    {
      assert e in after.kv <==> e in after.kv - {(key, o)};
      assert e in db.kv <==> e in db.kv - {(key, o)};
      if e in db.kv { assert (after.kv - {(key, o)})[e] == (db.kv - {(key, o)})[e]; }
    }
  }

  lemma WriteIsolated(db: Db, base: nat, c: Claims, key: string, sealed: string, devices: seq<Id>)
    requires OwnDevice(db, c)
    ensures Isolated(db, WriteDeviceKv(db, base, c, key, sealed, devices).1, c.owner)
  {
    hide Isolated, AuthorizeCaller, Resealed, MarkEncrypted, RecipientsValid;
    NothingIsolated(db, c.owner);
    CheckIsolated(db, base, c, key);
    ResealIsolated(db, c.owner, key, sealed, devices);
    var resealed := Resealed(db, c.owner, key, sealed, devices);
    MarkIsolated(resealed, c.owner, key);
    IsolatedTransitive(db, resealed, MarkEncrypted(resealed, c.owner, key), c.owner);
  }

  lemma ResealIsolated(db: Db, o: string, key: string, sealed: string, devices: seq<Id>)
    ensures Isolated(db, Resealed(db, o, key, sealed, devices), o)
  {
    hide Isolated, NewRecipients, WithoutEntry;
    OwnEntriesIsolated(db, Resealed(db, o, key, sealed, devices), o);
  }

  lemma MarkIsolated(db: Db, o: string, key: string)
    ensures Isolated(db, MarkEncrypted(db, o, key), o)
  {
    hide Isolated, MarkEncrypted;
    MarkChangesOneRow(db, o, key);
    OneRowIsolated(db, MarkEncrypted(db, o, key), o, key);
    OwnEntriesIsolated(db, MarkEncrypted(db, o, key), o);
  }

  lemma {:induction false} PutAllIsolated(db: Db, o: string, options: EntryBody, entries: seq<(string, string)>)
    ensures Isolated(db, PutAll(db, o, options, entries), o)
  {
    hide Isolated;
    if entries == [] {
      NothingIsolated(db, o);
    } else {
      var n := |entries| - 1;
      PutAllIsolated(db, o, options, entries[..n]);
      var before := PutAll(db, o, options, entries[..n]);
      var (key, value) := entries[n];
      PutIsolated(before, o, key, ImportBody(before, o, key, value, options));
      IsolatedTransitive(db, before, PutAll(db, o, options, entries), o);
    }
  }

  lemma {:induction false} ChecksIsolated(db: Db, base: nat, c: Claims, entries: seq<(string, string)>)
    requires OwnDevice(db, c)
    ensures Isolated(db, AuthorizeAll(db, base, c, entries).1, c.owner)
  {
    hide Isolated, AuthorizeCaller, OwnDevice;
    if entries == [] {
      NothingIsolated(db, c.owner);
    } else {
      var n := |entries| - 1;
      ChecksIsolated(db, base, c, entries[..n]);
      PassedChecksChangeNothing(db, base, c, entries[..n]);
      CheckIsolated(db, base, c, entries[n].0);
    }
  }

  lemma ImportIsolated(db: Db, base: nat, c: Claims, prefix: string, options: EntryBody, lines: seq<string>)
    requires OwnDevice(db, c)
    ensures Isolated(db, Import(db, base, c, prefix, options, lines).1, c.owner)
  {
    hide Isolated, OwnDevice, ParseFile, AuthorizeAll, PutAll;
    NothingIsolated(db, c.owner);
    if ParseFile(prefix, lines).Ok? {
      ChecksIsolated(db, base, c, ParseFile(prefix, lines).value);
      PutAllIsolated(db, c.owner, options, ParseFile(prefix, lines).value);
    }
  }

  lemma EntryRequestsIsolated(db: Db, base: nat, c: Claims, request: EntryRequest)
    requires OwnDevice(db, c)
    ensures Isolated(db, HandleEntries(db, base, c, request), c.owner)
  {
    hide Isolated, OwnDevice, AuthorizeCaller, KeyPermitted, PutEntry, DropEntry, Slide, Touch, Import, WriteDeviceKv,
      Readable, MayAccess, Banned;
    NothingIsolated(db, c.owner);
    match request
    case GetDeviceKv(device, key) =>
      CheckIsolated(db, base, c, key);
      if device in db.devices && db.devices[device].owner == c.owner { TouchIsolated(db, c.owner, device); }
    case GetValue(key) => CheckIsolated(db, base, c, key);
    case PostValue(key, body) => StoreIsolated(db, base, c, key, body);
    case DeleteValue(key) => StoreIsolated(db, base, c, key, EntryBody("", None, false, false, None));
    case PostImport(prefix, options, lines) => ImportIsolated(db, base, c, prefix, options, lines);
    case PostDeviceKv(key, sealed, devices) => WriteIsolated(db, base, c, key, sealed, devices);
    case GetKv(_, key) => StoreIsolated(db, base, c, key, EntryBody("", None, false, false, None));
    case PutKv(_, _, key, body) => StoreIsolated(db, base, c, key, body);
    case DeleteKv(_, key) => StoreIsolated(db, base, c, key, EntryBody("", None, false, false, None));
  }

  lemma StoreIsolated(db: Db, base: nat, c: Claims, key: string, body: EntryBody)
    requires OwnDevice(db, c)
    ensures Isolated(db, AuthorizeCaller(db, base, c, key).1, c.owner)
    ensures Isolated(db, PutEntry(db, c.owner, key, body), c.owner)
    ensures Isolated(db, DropEntry(db, c.owner, key), c.owner)
    ensures (key, c.owner) in db.kv ==> Isolated(db, Slide(db, c.owner, key), c.owner)
  {
    hide Isolated, OwnDevice, AuthorizeCaller;
    CheckIsolated(db, base, c, key);
    PutIsolated(db, c.owner, key, body);
    DropIsolated(db, c.owner, key);
    if (key, c.owner) in db.kv { SlideIsolated(db, c.owner, key); }
  }

  // ---------------------------------------------------------------- recipients

  /** Another owner's recipient row is kept, or its device was an own one that is gone; no row is made in
      another owner's name. */
  ghost predicate RecipientsIsolated(db: Db, after: Db, o: string) {
    && (forall r | r in db.recipients && db.recipients[r].owner != o ::
          || (r in after.recipients && after.recipients[r] == db.recipients[r])
          || (db.recipients[r].device in db.devices && db.devices[db.recipients[r].device].owner == o
              && db.recipients[r].device !in after.devices))
    && (forall r | r in after.recipients && after.recipients[r].owner != o ::
          r in db.recipients && db.recipients[r] == after.recipients[r])
  }

  lemma SameRecipients(db: Db, after: Db, o: string)
    requires after.recipients == db.recipients
    ensures RecipientsIsolated(db, after, o)
  {
  }

  /** Recipients and policies are the same. */
  predicate SameReach(db: Db, after: Db) {
    after.recipients == db.recipients && after.policies == db.policies && after.policyKeys == db.policyKeys
  }

  lemma MintKeepsReach(db: Db, name: string, kind: KeyKind, expiresAt: Option<int>, o: string, device: Option<Id>)
    requires MintKey(db, name, kind, expiresAt, o, device).Some?
    ensures SameReach(db, MintKey(db, name, kind, expiresAt, o, device).value)
  {
  }

  lemma RevokeKeepsReach(db: Db, o: string, name: Option<string>, k: Id)
    ensures SameReach(db, RevokeSessions(db, o, name)) && SameReach(db, RevokeKey(db, o, k))
  {
  }

  lemma DeleteKeepsReach(db: Db, o: string, k: Id, a: Id)
    ensures SameReach(db, DeleteApiKeys(db, RevokedSessions(db, o))) && SameReach(db, DeleteKey(db, o, k))
    ensures SameReach(db, GrantApproval(db, a, k)) && SameReach(db, DeclineApproval(db, o, a))
  {
    hide RevokedSessions;
    hide DeleteApiKeys, GrantApproval, DeclineApproval;
    DeletionKeepsReach(db, RevokedSessions(db, o));
    DeletionKeepsReach(db, {k});
    GrantKeepsReach(db, o, a, k);
  }

  lemma DeletionKeepsReach(db: Db, doomed: set<Id>)
    ensures SameReach(db, DeleteApiKeys(db, doomed))
  {
  }

  lemma GrantKeepsReach(db: Db, o: string, a: Id, k: Id)
    ensures SameReach(db, GrantApproval(db, a, k)) && SameReach(db, DeclineApproval(db, o, a))
  {
  }

  lemma KeyRequestsKeepReach(db: Db, c: Claims, request: KeyRequest)
    ensures SameReach(db, HandleKeys(db, c, request))
  {
    hide RestrictedCaller, ChooseApproval, MintKey, RevokeSessions, RevokeKey, DeleteApiKeys, DeleteKey, GrantApproval,
      DeclineApproval, RevokedSessions, Revocable, Deletable;
    match request
    case PostKey(name, kind, expiresAt, names) =>
      if MintKey(db, name, kind, expiresAt, c.owner, c.device).Some? {
        MintKeepsReach(db, name, kind, expiresAt, c.owner, c.device);
      }
    case PostSessionKey =>
      RevokeKeepsReach(db, c.owner, Some(CLI_SESSION), 0);
      var revoked := RevokeSessions(db, c.owner, Some(CLI_SESSION));
      if MintKey(revoked, CLI_SESSION, Session, Some(db.now + 15 * 3600), c.owner, c.device).Some? {
        MintKeepsReach(revoked, CLI_SESSION, Session, Some(db.now + 15 * 3600), c.owner, c.device);
      }
    case PostCliToken(days) => TokenKeepsReach(db, c, "kv-cli", CliDays(days) * DAY);
    case PostDeviceToken => TokenKeepsReach(db, c, "kv-approver device", 180 * DAY);
    case PostRevoke(k) => RevokeKeepsReach(db, c.owner, None, k);
    case DeleteKeyRow(k) => DeleteKeepsReach(db, c.owner, k, 0);
    case DeleteRevokedRows => DeleteKeepsReach(db, c.owner, 0, 0);
    case PostLogout => RevokeKeepsReach(db, c.owner, None, c.keyId);
    case PostApproval(a, confirm) =>
      if ChooseApproval(db, c.owner, a, confirm).Ok? {
        DeleteKeepsReach(db, c.owner, ChooseApproval(db, c.owner, a, confirm).value, a);
      }
    case PostRejection(a) => DeleteKeepsReach(db, c.owner, 0, a);
  }

  lemma TokenKeepsReach(db: Db, c: Claims, name: string, secs: int)
    ensures SameReach(db, CreateToken(db, c, name, secs).1)
  {
    hide RestrictedCaller, MintKey;
    if MintKey(db, name, ApprovalToken, Some(db.now + secs), c.owner, c.device).Some? {
      MintKeepsReach(db, name, ApprovalToken, Some(db.now + secs), c.owner, c.device);
    }
  }

  lemma DeviceRequestsKeepRecipients(db: Db, c: Claims, request: DeviceRequest)
    requires !request.DeleteDeviceById?
    ensures HandleDevices(db, c, request).recipients == db.recipients
  {
    hide RestrictedCaller, Validated, SavedPolicies, SavedKeys, LiftBan, Approve, LinkProposal, EnrolDevice, Reject,
      DismissProposal, UpdatePolicy, Unban;
    match request
    case PostSessionApproval(r, token, hours) =>
      var only := RestrictedCaller(db, c);
      if Approve(db, c.owner, only, r, token, HoursGranted(hours)).0.Ok? {
        ApproveKeepsRecipients(db, c.owner, only, r, token, HoursGranted(hours));
      } else {
        FailedApproveKeepsRecipients(db, c.owner, only, r, token, HoursGranted(hours));
      }
    case PostLink(p, token, device) => LinkKeepsRecipients(db, c.owner, p, token, device);
    case PostDevice(name, publicKey, keyType) => EnrolKeepsRecipients(db, c.owner, name, publicKey, keyType);
    case PostSessionRejection(r) => RejectKeepsRecipients(db, c.owner, r);
    case PostDismissal(p) => DismissKeepsRecipients(db, p);
    case PutPolicy(device, body) => PolicyKeepsRecipients(db, c, device, body);
    case DeleteBan(device) => UnbanKeepsRecipients(db, c, device);
  }

  lemma ApproveKeepsRecipients(db: Db, o: string, only: Option<Id>, r: Id, token: Secret, hours: int)
    requires Approve(db, o, only, r, token, hours).0.Ok?
    ensures Approve(db, o, only, r, token, hours).1.recipients == db.recipients
  {
    hide Banned, WrapForDevice, ColumnsOf, HoursFromNow, RequestOpen;
  }

  lemma FailedApproveKeepsRecipients(db: Db, o: string, only: Option<Id>, r: Id, token: Secret, hours: int)
    requires Approve(db, o, only, r, token, hours).0.Err?
    ensures Approve(db, o, only, r, token, hours).1 == db
  {
    hide Banned, WrapForDevice, ColumnsOf, HoursFromNow, RequestOpen;
  }

  lemma RejectKeepsRecipients(db: Db, o: string, r: Id)
    ensures Reject(db, o, r).1.recipients == db.recipients
  {
    hide MarkRejected;
    MarkKeepsRecipients(db, r);
  }

  lemma MarkKeepsRecipients(db: Db, r: Id)
    ensures MarkRejected(db, r).recipients == db.recipients
  {
  }

  lemma DismissKeepsRecipients(db: Db, p: Id)
    ensures DismissProposal(db, p).recipients == db.recipients
  {
  }

  lemma PolicyKeepsRecipients(db: Db, c: Claims, device: Id, body: UpdateRequest)
    ensures UpdatePolicy(db, c, device, body).1.recipients == db.recipients
  {
    hide UpdateOutcome, Validated, SavedPolicies, SavedKeys;
  }

  lemma UnbanKeepsRecipients(db: Db, c: Claims, device: Id)
    ensures Unban(db, c, device).1.recipients == db.recipients
  {
    hide LiftBan;
  }

  lemma LinkKeepsRecipients(db: Db, o: string, p: Id, token: Secret, device: Id)
    ensures LinkProposal(db, o, p, token, device).1.recipients == db.recipients
  {
  }

  lemma EnrolKeepsRecipients(db: Db, o: string, name: string, publicKey: string, keyType: string)
    ensures match EnrolDevice(db, o, name, publicKey, keyType)
            case None => true case Some(after) => after.recipients == db.recipients
  {
  }

  lemma RemovalRecipients(db: Db, o: string, device: Id)
    requires Intact(db)
    ensures RecipientsIsolated(db, AfterDelete(db, o, device).1, o)
  {
    hide Intact;
    if device in db.devices && db.devices[device].owner == o {
      DeletedIsPurged(db, o, device);
      PurgedRecipients(db, o, device);
    }
  }

  lemma PurgedRecipients(db: Db, o: string, device: Id)
    requires device in db.devices && db.devices[device].owner == o
    ensures RecipientsIsolated(db, Purged(db, device), o)
  {
  }

  lemma {:induction false} ImportKeepsRecipients(db: Db, o: string, options: EntryBody, entries: seq<(string, string)>)
    ensures PutAll(db, o, options, entries).recipients == db.recipients
  {
    if entries != [] { ImportKeepsRecipients(db, o, options, entries[..|entries| - 1]); }
  }

  lemma {:induction false} ChecksKeepRecipients(db: Db, base: nat, c: Claims, entries: seq<(string, string)>)
    ensures AuthorizeAll(db, base, c, entries).1.recipients == db.recipients
  {
    hide KeyPermitted;
    if entries != [] { ChecksKeepRecipients(db, base, c, entries[..|entries| - 1]); }
  }

  lemma CheckKeepsRecipients(db: Db, base: nat, c: Claims, key: string)
    ensures AuthorizeCaller(db, base, c, key).1.recipients == db.recipients
  {
    hide AuthorizeKey;
    if c.device.Some? { KeyCheckKeepsRecipients(db, base, c.device.value, c.owner, key); }
  }

  lemma KeyCheckKeepsRecipients(db: Db, base: nat, device: Id, owner: string, key: string)
    ensures AuthorizeKey(db, base, device, owner, key).1.recipients == db.recipients
  {
    hide KeyPermitted, Banned, AfterViolation;
    var bans := AfterViolation(db.bans, device, owner, base, db.now, key);
    assert db.(bans := bans).recipients == db.recipients;
  }

  lemma ImportRecipients(db: Db, base: nat, c: Claims, prefix: string, options: EntryBody, lines: seq<string>)
    ensures Import(db, base, c, prefix, options, lines).1.recipients == db.recipients
  {
    hide ParseFile, AuthorizeAll, PutAll;
    if ParseFile(prefix, lines).Ok? {
      ChecksKeepRecipients(db, base, c, ParseFile(prefix, lines).value);
      ImportKeepsRecipients(db, c.owner, options, ParseFile(prefix, lines).value);
    }
  }

  lemma EntryRequestsKeepRecipients(db: Db, base: nat, c: Claims, request: EntryRequest)
    requires !request.PostDeviceKv?
    ensures HandleEntries(db, base, c, request).recipients == db.recipients
  {
    hide AuthorizeCaller, KeyPermitted, Banned, Import, Readable, MayAccess, Unexpired;
    match request
    case PostImport(prefix, options, lines) => ImportRecipients(db, base, c, prefix, options, lines);
    case GetDeviceKv(_, key) => CheckKeepsRecipients(db, base, c, key);
    case GetValue(key) => CheckKeepsRecipients(db, base, c, key);
    case PostValue(key, _) => CheckKeepsRecipients(db, base, c, key);
    case DeleteValue(key) => CheckKeepsRecipients(db, base, c, key);
    case GetKv(_, key) => CheckKeepsRecipients(db, base, c, key);
    case PutKv(_, _, key, _) => CheckKeepsRecipients(db, base, c, key);
    case DeleteKv(_, key) => CheckKeepsRecipients(db, base, c, key);
  }

  /** A device-encrypted write replaces recipient rows of its own owner only. */
  lemma WriteRecipients(db: Db, base: nat, c: Claims, key: string, sealed: string, devices: seq<Id>)
    requires forall r | r in db.recipients :: r < db.nextId
    ensures RecipientsIsolated(db, WriteDeviceKv(db, base, c, key, sealed, devices).1, c.owner)
  {
    hide AuthorizeCaller, RecipientsValid, RecipientsIsolated, WithoutEntry, NewRecipients;
    CheckKeepsRecipients(db, base, c, key);
    var after := WriteDeviceKv(db, base, c, key, sealed, devices).1;
    if WriteDeviceKv(db, base, c, key, sealed, devices).0.Ok? {
      ReplacedRecipients(db, after, c.owner, key, devices);
    } else {
      SameRecipients(db, after, c.owner);
    }
  }

  lemma ReplacedRecipients(db: Db, after: Db, o: string, key: string, devices: seq<Id>)
    requires forall r | r in db.recipients :: r < db.nextId
    requires after.recipients == WithoutEntry(db.recipients, o, key) + NewRecipients(db.nextId, o, key, devices)
    ensures RecipientsIsolated(db, after, o)
  {
    NewRecipientsAre(db.nextId, o, key, devices);
    forall r | r in db.recipients && db.recipients[r].owner != o
      ensures r in after.recipients && after.recipients[r] == db.recipients[r]
    {
      assert r !in NewRecipients(db.nextId, o, key, devices);
      assert r in WithoutEntry(db.recipients, o, key);
    }
  }

  /** In every run a request makes another owner's recipient row disappear only together with an own
      device, and makes none in another owner's name. */
  lemma OthersRecipientsGoOnlyWithADevice(now: int, actions: seq<Action>, base: nat, c: Claims, request: Request)
    ensures var db := Exec(now, actions).db; RecipientsIsolated(db, Handle(db, base, c, request), c.owner)
  {
    hide Exec, Intact, Traced, RecipientsIsolated, HandleKeys, HandleDevices, HandleEntries;
    var w := Exec(now, actions);
    RunIsSound(now, actions);
    match request
    case ForKeys(q) =>
      KeyRequestsKeepReach(w.db, c, q);
      SameRecipients(w.db, HandleKeys(w.db, c, q), c.owner);
    case ForDevices(q) => DeviceRequestsRecipients(w.db, c, q);
    case ForEntries(q) => EntryRequestsRecipients(w.db, base, c, q);
  }

  lemma DeviceRequestsRecipients(db: Db, c: Claims, request: DeviceRequest)
    requires Intact(db)
    ensures RecipientsIsolated(db, HandleDevices(db, c, request), c.owner)
  {
    if request.DeleteDeviceById? {
      hide Intact, RecipientsIsolated, AfterDelete, RestrictedCaller;
      SameRecipients(db, db, c.owner);
      RemovalRecipients(db, c.owner, request.device);
    } else {
      hide Intact, RecipientsIsolated, HandleDevices;
      DeviceRequestsKeepRecipients(db, c, request);
      SameRecipients(db, HandleDevices(db, c, request), c.owner);
    }
  }

  lemma EntryRequestsRecipients(db: Db, base: nat, c: Claims, request: EntryRequest)
    requires Intact(db)
    ensures RecipientsIsolated(db, HandleEntries(db, base, c, request), c.owner)
  {
    if request.PostDeviceKv? {
      WriteRecipients(db, base, c, request.key, request.sealed, request.devices);
    } else {
      EntryRequestsKeepRecipients(db, base, c, request);
      SameRecipients(db, HandleEntries(db, base, c, request), c.owner);
    }
    hide Intact, RecipientsIsolated, HandleEntries;
  }

  // ---------------------------------------------------------------- in every run

  /** In every run no request changes a credential, approval, device, session request, challenge,
      confirmed proposal, policy, ban or entry of another owner, and a recipient row of another owner
      disappears only together with an own device. */
  lemma OwnersAreIsolated(now: int, actions: seq<Action>, base: nat, c: Claims, request: Request)
    requires c in Exec(now, actions).claims || (request.ForEntries? && OwnDevice(Exec(now, actions).db, c))
    ensures Isolated(Exec(now, actions).db, Handle(Exec(now, actions).db, base, c, request), c.owner)
    ensures RecipientsIsolated(Exec(now, actions).db, Handle(Exec(now, actions).db, base, c, request), c.owner)
  {
    hide Exec, Isolated, RecipientsIsolated, Intact, Traced, HandleKeys, HandleDevices, HandleEntries;
    var w := Exec(now, actions);
    RunIsSound(now, actions);
    OthersRecipientsGoOnlyWithADevice(now, actions, base, c, request);
    if c in w.claims { CallerOwnsDevice(w, c); }
    match request
    case ForKeys(q) => KeyRequestsIsolated(w.db, c, q);
    case ForDevices(q) => DeviceRequestsIsolated(w.db, c, q);
    case ForEntries(q) => EntryRequestsIsolated(w.db, base, c, q);
  }
}
