/** What holds in every run of the server, for any number of requests in any interleaving. */
module Runs {
  import opened Basics
  import opened Policy
  import opened Bans
  import opened Tables
  import opened DeviceDeletion
  import opened Sessions
  import opened Credentials
  import opened Entries
  import opened Integrity
  import opened Audit
  import opened AuditInvariant

  // ---------------------------------------------------------------- every step keeps the invariant

  lemma EnrolIntact(w: World, owner: string, name: string, publicKey: string, keyType: string)
    requires Sound(w)
    ensures Intact(EnrolStep(w, owner, name, publicKey, keyType).db)
  {
    hide Intact, Traced;
    if EnrolDevice(w.db, owner, name, publicKey, keyType).Some? {
      EnrolKeepsIntact(w.db, owner, name, publicKey, keyType);
    }
  }

  lemma MintIntact(w: World, name: string, kind: KeyKind, expiresAt: Option<int>, owner: string,
                   device: Option<Id>, minter: Minter)
    requires Sound(w)
    requires device.Some? && device.value in w.db.devices ==> w.db.devices[device.value].owner == owner
    ensures Intact(MintStep(w, name, kind, expiresAt, owner, device, minter).db)
  {
    hide Intact, Traced;
    if MintKey(w.db, name, kind, expiresAt, owner, device).Some? {
      MintKeepsIntact(w.db, name, kind, expiresAt, owner, device);
    }
  }

  lemma CallerMintIntact(w: World, c: Claims, name: string, kind: KeyKind, expiresAt: Option<int>)
    requires Sound(w)
    ensures Intact(CallerMintStep(w, c, name, kind, expiresAt).db)
  {
    if c in w.claims {
      CallerOwnsDevice(w, c);
      MintIntact(w, name, kind, expiresAt, c.owner, c.device, ByCredential(c.keyId));
    }
  }

  lemma ApprovalsIntact(w: World, a: Id, k: Id, owner: string, supersede: bool)
    requires Sound(w)
    ensures Intact(AskStep(w, k, supersede).db) && Intact(GrantStep(w, a, k).db)
    ensures Intact(DeleteKey(w.db, owner, k))
  {
    if RequestApproval(w.db, k, supersede).Some? { RequestApprovalKeepsIntact(w.db, k, supersede); }
    if (a, k) in w.chosen {
      ChosenKind(w, a, k);
      GrantKeepsIntact(w.db, a, k);
    }
    DeleteKeysKeepsIntact(w.db, {k});
    hide Intact, Traced, RequestApproval, GrantApproval, DeleteApiKeys;
  }

  lemma ProtocolIntact(w: World, device: Id, challenge: Id, nonce: Secret)
    requires Sound(w)
    ensures Intact(IssueStep(w, device).db) && Intact(OpenStep(w, challenge, nonce).db)
  {
    hide Intact, Traced, CreateChallenge, CreateRequest;
    ChallengeKeepsIntact(w.db, device);
    RequestKeepsIntact(w.db, challenge, nonce);
  }

  lemma ApproveIntact(w: World, c: Claims, only: Option<Id>, r: Id, token: Secret, hours: int)
    requires Sound(w)
    ensures Intact(ApproveStep(w, c, only, r, token, hours).db)
  {
    hide Intact, Traced;
    ApproveKeepsIntact(w.db, c.owner, only, r, token, hours);
  }

  lemma CallsIntact(w: World, p: nat, m: nat)
    requires Sound(w)
    ensures Intact(PollClaimStep(w, p).db) && Intact(ManualConsumeStep(w, m).db)
  {
    hide Intact, Traced, MarkDelivered, ConsumeKey;
    if p in w.polls { DeliverKeepsIntact(w.db, w.polls[p].request); }
    if m in w.manuals { ConsumeKeepsIntact(w.db, w.manuals[m].key); }
  }

  lemma PolicyIntact(w: World, owner: string, device: Id, n: Normalised, bans: BanTable)
    requires Sound(w)
    ensures Intact(PolicyStep(w, owner, device, n).db) && Intact(BansStep(w, bans).db)
  {
    hide Intact, Traced;
    if device in w.db.devices { PolicyKeepsIntact(w.db, owner, device, n); }
    if bans.Keys <= w.db.devices.Keys { BansKeepIntact(w.db, bans); }
  }

  /** Steps that only note what a request has read. */
  lemma ReadsIntact(w: World, owner: string, a: Id, r: Id, secret: Secret, p: nat)
    requires Sound(w)
    ensures Intact(AuthenticateStep(w, a, secret).db) && Intact(ReadApprovalStep(w, owner, a, secret).db)
    ensures Intact(PollReadStep(w, p, r, secret).db) && Intact(PollCheckStep(w, p).db)
    ensures Intact(ManualLookupStep(w, p, a, secret).db) && Intact(ManualCheckStep(w, p).db)
  {
    hide Intact, Traced;
  }

  lemma KeyStepIntact(w: World, a: KeyAction)
    requires Sound(w)
    ensures Intact(KeyStep(w, a).db)
  {
    hide Intact, Traced, LoginStep, AuthenticateStep, CallerMintStep, RevokeSessions, RevokeKey, DeleteKey,
      DeleteApiKeys, RevokedSessions;
    match a
    case Login(owner, email, secs) => LoginIntact(w, owner, email, secs);
    case Authenticate(k, secret) => ReadsIntact(w, "", k, 0, secret, 0);
    case Mint(c, name, kind, expiresAt) => CallerMintIntact(w, c, name, kind, expiresAt);
    case RevokeOwned(owner, name) => RevokeSessionsKeepsIntact(w.db, owner, name);
    case RevokeOne(owner, k) => RevokeKeepsIntact(w.db, owner, k);
    case DeleteOne(owner, k) => ApprovalsIntact(w, k, k, owner, false);
    case DeleteRevoked(owner) => DeleteKeysKeepsIntact(w.db, RevokedSessions(w.db, owner));
  }

  lemma ApprovalStepIntact(w: World, a: ApprovalAction)
    requires Sound(w)
    ensures Intact(ApprovalStep(w, a).db)
  {
    hide Intact, Traced, AskStep, ReadApprovalStep, GrantStep, DeclineApproval;
    match a
    case AskApproval(k, supersede) => ApprovalsIntact(w, k, k, "", supersede);
    case ReadApproval(owner, x, confirm) => ReadsIntact(w, owner, x, 0, confirm, 0);
    case Grant(x, k) => ApprovalsIntact(w, x, k, "", false);
    case Decline(owner, x) => DeclineKeepsIntact(w.db, owner, x);
  }

  lemma ProtocolStepIntact(w: World, a: ProtocolAction)
    requires Sound(w)
    ensures Intact(ProtocolStep(w, a).db)
  {
    hide Intact, Traced, IssueStep, OpenStep, ApproveStep, MarkRejected, PollReadStep, PollCheckStep, PollClaimStep;
    match a
    case IssueChallenge(device) => ProtocolIntact(w, device, 0, 0);
    case OpenRequest(challenge, nonce) => ProtocolIntact(w, 0, challenge, nonce);
    case ApproveRequest(c, only, r, token, hours) => ApproveIntact(w, c, only, r, token, hours);
    case RejectRequest(r) => RejectKeepsIntact(w.db, r);
    case PollRead(p, r, secret) => ReadsIntact(w, "", 0, r, secret, p);
    case PollCheck(p) => ReadsIntact(w, "", 0, 0, 0, p);
    case PollClaim(p) => CallsIntact(w, p, 0);
  }

  lemma ManualActionStepIntact(w: World, a: ManualAction)
    requires Sound(w)
    ensures Intact(ManualActionStep(w, a).db)
  {
    hide Intact, Traced, ManualLookupStep, ManualCheckStep, ManualConsumeStep;
    match a
    case ManualLookup(m, k, secret) => ReadsIntact(w, "", k, 0, secret, m);
    case ManualCheck(m) => ReadsIntact(w, "", 0, 0, 0, m);
    case ManualConsume(m) => CallsIntact(w, 0, m);
  }

  lemma DeviceStepIntact(w: World, a: DeviceAction)
    requires Sound(w)
    ensures Intact(DeviceStep(w, a).db)
  {
    hide Intact, Traced, EnrolStep, Propose, LinkProposal, DismissProposal, AfterDelete, PolicyStep;
    match a
    case Enrol(owner, name, publicKey, keyType) => EnrolIntact(w, owner, name, publicKey, keyType);
    case ProposeDevice(name, publicKey, keyType) => ProposeKeepsIntact(w.db, name, publicKey, keyType);
    case LinkDevice(owner, p, token, device) => LinkKeepsIntact(w.db, owner, p, token, device);
    case DismissDevice(p) => DismissKeepsIntact(w.db, p);
    case DeleteDevice(owner, device) => DeleteDeviceKeepsIntact(w.db, owner, device);
    case SavePolicy(owner, device, n) => PolicyIntact(w, owner, device, n, map[]);
  }

  lemma TableStepIntact(w: World, a: TableAction)
    requires Sound(w)
    ensures Intact(TableStep(w, a).db)
  {
    hide Intact, Traced, BansStep, EntriesStep, AllowStep, LiftBan, AfterViolation, WriteResult, Touch, LapseOld, ExpireRequests, DropChallenges,
      TimeOutProposals;
    match a
    case LiftOne(owner, device) =>
      BansIntact(w, LiftBan(w.db.bans, OwnersOf(w.db.devices), owner, device, w.db.now));
    case Violate(device, owner, base, name) =>
      BansIntact(w, AfterViolation(w.db.bans, device, owner, base, w.db.now, name));
    case WriteEntries(e) =>
      var after := WriteResult(w.db, e);
      EntriesIntact(w, after.kv, after.bodies, after.recipients, after.nextId - w.db.nextId);
    case ChangeBans(bans) => BansIntact(w, bans);
    case ChangeEntries(kv, bodies, recipients, ids) => EntriesIntact(w, kv, bodies, recipients, ids);
    case AllowNames(k, names) => AllowIntact(w, k, names);
    case TouchDevice(device) => TouchKeepsIntact(w.db, device);
    case CleanApprovals => LapseKeepsIntact(w.db);
    case CleanRequests => ExpireKeepsIntact(w.db);
    case CleanChallenges => DropKeepsIntact(w.db);
    case CleanProposals => TimeOutKeepsIntact(w.db);
    case Tick(secs) => TimeKeepsIntact(w.db, secs);
  }

  lemma StepKeepsIntact(w: World, a: Action)
    requires Sound(w)
    ensures Intact(Step(w, a).db)
  {
    hide Intact, Traced, KeyStep, ApprovalStep, ProtocolStep, ManualActionStep, DeviceStep, TableStep;
    match a
    case OnKeys(x) => KeyStepIntact(w, x);
    case OnApprovals(x) => ApprovalStepIntact(w, x);
    case OnProtocol(x) => ProtocolStepIntact(w, x);
    case OnManual(x) => ManualActionStepIntact(w, x);
    case OnDevices(x) => DeviceStepIntact(w, x);
    case OnTables(x) => TableStepIntact(w, x);
  }

  lemma LoginIntact(w: World, owner: string, email: string, secs: nat)
    requires Sound(w)
    ensures Intact(LoginStep(w, owner, email, secs).db)
  {
    hide Intact, Traced;
    MintIntact(w, email, Session, Some(w.db.now + secs), owner, None, ByLogin);
  }

  lemma BansIntact(w: World, bans: BanTable)
    requires Sound(w)
    ensures Intact(BansStep(w, bans).db)
  {
    hide Intact, Traced;
    if bans.Keys <= w.db.devices.Keys { BansKeepIntact(w.db, bans); }
  }

  lemma BansKeepIntact(db: Db, bans: BanTable)
    requires Intact(db) && bans.Keys <= db.devices.Keys
    ensures Intact(db.(bans := bans))
  {
  }

  lemma EntriesIntact(w: World, kv: map<EntryKey, KvEntry>, bodies: map<EntryKey, string>,
                      recipients: map<Id, Recipient>, ids: nat)
    requires Sound(w)
    ensures Intact(EntriesStep(w, kv, bodies, recipients, ids).db)
  {
    hide Traced;
  }

  lemma AllowIntact(w: World, k: Id, names: set<string>)
    requires Sound(w)
    ensures Intact(AllowStep(w, k, names).db)
  {
    hide Traced;
  }

  lemma TouchKeepsIntact(db: Db, device: Id)
    requires Intact(db)
    ensures Intact(Touch(db, device))
  {
  }

  lemma TimeKeepsIntact(db: Db, secs: nat)
    requires Intact(db)
    ensures Intact(db.(now := db.now + secs))
  {
  }

  /** A caller's device, as long as it exists, belongs to the caller's owner. */
  lemma CallerOwnsDevice(w: World, c: Claims)
    requires Sound(w) && c in w.claims
    ensures c.device.Some? && c.device.value in w.db.devices ==> w.db.devices[c.device.value].owner == c.owner
  {
    MintTraced(w, "", Session, None, c.owner, c.device, ByCredential(c.keyId));
  }

  lemma ChosenKind(w: World, a: Id, k: Id)
    requires Traced(w) && (a, k) in w.chosen
    ensures k in w.db.apiKeys ==> w.db.apiKeys[k].kind.ApprovalRequired?
  {
  }

  /** Steps that leave the traced tables as they are. */
  lemma UntracedStep(w: World, db: Db)
    requires Traced(w) && w.db.nextId <= db.nextId
    requires db.devices == w.db.devices && db.apiKeys == w.db.apiKeys && db.requests == w.db.requests
    requires forall c | c in db.challenges :: c in w.db.challenges && db.challenges[c] == w.db.challenges[c]
    ensures Traced(w.(db := db))
  {
    hide LogSound, KeysLogged, RequestsLogged, PollsSound, EventBelow;
    forall e | e in w.log ensures EventBelow(e, db.nextId) {
      assert EventBelow(e, w.db.nextId);
      BelowGrows(e, w.db.nextId, db.nextId);
    }
  }

  lemma EnrolStepTraced(w: World, owner: string, name: string, publicKey: string, keyType: string)
    requires Sound(w)
    ensures Traced(EnrolStep(w, owner, name, publicKey, keyType))
  {
    hide Intact, Traced;
    if EnrolDevice(w.db, owner, name, publicKey, keyType).Some? { EnrolTraced(w, owner, name, publicKey, keyType); }
  }

  lemma CallerMintTraced(w: World, c: Claims, name: string, kind: KeyKind, expiresAt: Option<int>)
    requires Sound(w)
    ensures Traced(CallerMintStep(w, c, name, kind, expiresAt))
  {
    hide Intact, Traced;
    if c in w.claims {
      CallerOriginated(w, c);
      MintTraced(w, name, kind, expiresAt, c.owner, c.device, ByCredential(c.keyId));
    }
  }

  lemma ReadsTraced(w: World, owner: string, a: Id, k: Id, secret: Secret)
    requires Sound(w)
    ensures Traced(AuthenticateStep(w, k, secret)) && Traced(ReadApprovalStep(w, owner, a, secret))
  {
    hide Intact, Traced, AdminAuth, ChooseApproval;
    if AdminAuth(w.db, k, secret).Ok? { AuthenticateTraced(w, k, secret); }
    if ChooseApproval(w.db, owner, a, secret).Ok? { ReadApprovalTraced(w, owner, a, secret); }
  }

  lemma KeysTraced(w: World, owner: string, a: Id, k: Id)
    requires Sound(w)
    ensures Traced(GrantStep(w, a, k)) && Traced(w.(db := DeleteKey(w.db, owner, k)))
  {
    hide Intact, Traced, GrantApproval, DeleteApiKeys;
    if (a, k) in w.chosen { GrantTraced(w, a, k); }
    DeleteKeysTraced(w, {k});
    assert w.(db := w.db) == w;
  }

  lemma AsksTraced(w: World, k: Id, supersede: bool, owner: string, a: Id)
    requires Sound(w)
    ensures Traced(AskStep(w, k, supersede)) && Traced(w.(db := DeclineApproval(w.db, owner, a)))
    ensures Traced(w.(db := LapseOld(w.db)))
  {
    hide Traced;
    assert w.(db := w.db) == w;
    if RequestApproval(w.db, k, supersede).Some? { UntracedStep(w, RequestApproval(w.db, k, supersede).value); }
    UntracedStep(w, DeclineApproval(w.db, owner, a));
    UntracedStep(w, LapseOld(w.db));
  }

  lemma ProposeTraced(w: World, name: string, publicKey: string, keyType: string)
    requires Traced(w)
    ensures Traced(w.(db := Propose(w.db, name, publicKey, keyType)))
  {
    hide Traced;
    UntracedStep(w, Propose(w.db, name, publicKey, keyType));
  }

  lemma LinkTraced(w: World, owner: string, p: Id, token: Secret, device: Id)
    requires Traced(w)
    ensures Traced(w.(db := LinkProposal(w.db, owner, p, token, device).1))
  {
    hide Traced;
    UntracedStep(w, LinkProposal(w.db, owner, p, token, device).1);
  }

  lemma DismissTraced(w: World, p: Id)
    requires Traced(w)
    ensures Traced(w.(db := DismissProposal(w.db, p))) && Traced(w.(db := TimeOutProposals(w.db)))
  {
    hide Traced;
    UntracedStep(w, DismissProposal(w.db, p));
    UntracedStep(w, TimeOutProposals(w.db));
  }

  lemma PoliciesTraced(w: World, owner: string, device: Id, n: Normalised, bans: BanTable)
    requires Sound(w)
    ensures Traced(PolicyStep(w, owner, device, n)) && Traced(BansStep(w, bans))
  {
    hide Traced;
    UntracedStep(w, PolicyStep(w, owner, device, n).db);
    UntracedStep(w, BansStep(w, bans).db);
    assert PolicyStep(w, owner, device, n) == w.(db := PolicyStep(w, owner, device, n).db);
    assert BansStep(w, bans) == w.(db := BansStep(w, bans).db);
  }

  lemma EntriesTraced(w: World, kv: map<EntryKey, KvEntry>, bodies: map<EntryKey, string>,
                      recipients: map<Id, Recipient>, ids: nat)
    requires Sound(w)
    ensures Traced(EntriesStep(w, kv, bodies, recipients, ids))
  {
    hide Intact, Traced, RecipientsReferTo;
    var after := EntriesStep(w, kv, bodies, recipients, ids);
    UntracedStep(w, after.db);
    assert after == w.(db := after.db);
  }

  lemma AllowTraced(w: World, k: Id, names: set<string>)
    requires Sound(w)
    ensures Traced(AllowStep(w, k, names))
  {
    hide Intact, Traced;
    var after := AllowStep(w, k, names);
    UntracedStep(w, after.db);
    assert after == w.(db := after.db);
  }

  lemma TouchTraced(w: World, device: Id)
    requires Sound(w)
    ensures Traced(w.(db := Touch(w.db, device)))
  {
    hide Intact, LogSound, LogBelow, ClaimsLogged, PollsSound, ManualsSound, KeysLogged, RequestsLogged,
      ChallengesLogged, ConsumedAreUsed, ChosenKinds;
  }

  lemma ClockTraced(w: World, secs: nat)
    requires Sound(w)
    ensures Traced(w.(db := w.db.(now := w.db.now + secs))) && Traced(w.(db := DropChallenges(w.db)))
  {
    hide Traced;
    UntracedStep(w, w.db.(now := w.db.now + secs));
    UntracedStep(w, DropChallenges(w.db));
  }

  lemma KeyStepTraced(w: World, a: KeyAction)
    requires Sound(w)
    ensures Traced(KeyStep(w, a))
  {
    hide Intact, Traced, LoginStep, AuthenticateStep, CallerMintStep, RevokeSessions, RevokeKey, DeleteKey,
      DeleteApiKeys, RevokedSessions;
    match a
    case Login(owner, email, secs) => LoginTraced(w, owner, email, secs);
    case Authenticate(k, secret) => ReadsTraced(w, "", 0, k, secret);
    case Mint(c, name, kind, expiresAt) => CallerMintTraced(w, c, name, kind, expiresAt);
    case RevokeOwned(owner, name) => RevokeSessionsTraced(w, owner, name);
    case RevokeOne(owner, k) => RevokeTraced(w, owner, k);
    case DeleteOne(owner, k) => KeysTraced(w, owner, 0, k);
    case DeleteRevoked(owner) => DeleteKeysTraced(w, RevokedSessions(w.db, owner));
  }

  lemma ApprovalStepTraced(w: World, a: ApprovalAction)
    requires Sound(w)
    ensures Traced(ApprovalStep(w, a))
  {
    hide Intact, Traced, AskStep, ReadApprovalStep, GrantStep, DeclineApproval;
    match a
    case AskApproval(k, supersede) => AsksTraced(w, k, supersede, "", 0);
    case ReadApproval(owner, x, confirm) => ReadsTraced(w, owner, x, 0, confirm);
    case Grant(x, k) => KeysTraced(w, "", x, k);
    case Decline(owner, x) => AsksTraced(w, 0, false, owner, x);
  }

  lemma ProtocolStepTraced(w: World, a: ProtocolAction)
    requires Sound(w)
    ensures Traced(ProtocolStep(w, a))
  {
    hide Intact, Traced, IssueStep, OpenStep, ApproveStep, MarkRejected, PollReadStep, PollCheckStep, PollClaimStep;
    match a
    case IssueChallenge(device) => IssueTraced(w, device);
    case OpenRequest(challenge, nonce) => OpenTraced(w, challenge, nonce);
    case ApproveRequest(c, only, r, token, hours) => ApproveTraced(w, c, only, r, token, hours);
    case RejectRequest(r) => RejectTraced(w, r);
    case PollRead(p, r, secret) => PollReadTraced(w, p, r, secret);
    case PollCheck(p) => PollCheckTraced(w, p);
    case PollClaim(p) => PollClaimTraced(w, p);
  }

  lemma ManualActionStepTraced(w: World, a: ManualAction)
    requires Sound(w)
    ensures Traced(ManualActionStep(w, a))
  {
    hide Intact, Traced, ManualLookupStep, ManualCheckStep, ManualConsumeStep;
    match a
    case ManualLookup(m, k, secret) => LookupTraced(w, m, k, secret);
    case ManualCheck(m) => CheckTraced(w, m);
    case ManualConsume(m) => ConsumeTraced(w, m);
  }

  lemma DeviceStepTraced(w: World, a: DeviceAction)
    requires Sound(w)
    ensures Traced(DeviceStep(w, a))
  {
    hide Intact, Traced, EnrolStep, Propose, LinkProposal, DismissProposal, AfterDelete, PolicyStep;
    match a
    case Enrol(owner, name, publicKey, keyType) => EnrolStepTraced(w, owner, name, publicKey, keyType);
    case ProposeDevice(name, publicKey, keyType) => ProposeTraced(w, name, publicKey, keyType);
    case LinkDevice(owner, p, token, device) => LinkTraced(w, owner, p, token, device);
    case DismissDevice(p) => DismissTraced(w, p);
    case DeleteDevice(owner, device) => DeleteDeviceTraced(w, owner, device);
    case SavePolicy(owner, device, n) => PoliciesTraced(w, owner, device, n, map[]);
  }

  lemma TableStepTraced(w: World, a: TableAction)
    requires Sound(w)
    ensures Traced(TableStep(w, a))
  {
    hide Intact, Traced, BansStep, EntriesStep, AllowStep, LiftBan, AfterViolation, WriteResult, Touch, LapseOld, ExpireRequests, DropChallenges,
      TimeOutProposals;
    match a
    case LiftOne(owner, device) =>
      PoliciesTraced(w, "", 0, Normalised(AllowAll, [], None),
                     LiftBan(w.db.bans, OwnersOf(w.db.devices), owner, device, w.db.now));
    case Violate(device, owner, base, name) =>
      PoliciesTraced(w, "", 0, Normalised(AllowAll, [], None),
                     AfterViolation(w.db.bans, device, owner, base, w.db.now, name));
    case WriteEntries(e) =>
      var after := WriteResult(w.db, e);
      EntriesTraced(w, after.kv, after.bodies, after.recipients, after.nextId - w.db.nextId);
    case ChangeBans(bans) => PoliciesTraced(w, "", 0, Normalised(AllowAll, [], None), bans);
    case ChangeEntries(kv, bodies, recipients, ids) => EntriesTraced(w, kv, bodies, recipients, ids);
    case AllowNames(k, names) => AllowTraced(w, k, names);
    case TouchDevice(device) => TouchTraced(w, device);
    case CleanApprovals => AsksTraced(w, 0, false, "", 0);
    case CleanRequests => ExpireTraced(w);
    case CleanChallenges => ClockTraced(w, 0);
    case CleanProposals => DismissTraced(w, 0);
    case Tick(secs) => ClockTraced(w, secs);
  }

  lemma StepKeepsTraced(w: World, a: Action)
    requires Sound(w)
    ensures Traced(Step(w, a))
  {
    hide Intact, Traced, KeyStep, ApprovalStep, ProtocolStep, ManualActionStep, DeviceStep, TableStep;
    match a
    case OnKeys(x) => KeyStepTraced(w, x);
    case OnApprovals(x) => ApprovalStepTraced(w, x);
    case OnProtocol(x) => ProtocolStepTraced(w, x);
    case OnManual(x) => ManualActionStepTraced(w, x);
    case OnDevices(x) => DeviceStepTraced(w, x);
    case OnTables(x) => TableStepTraced(w, x);
  }

  lemma LoginTraced(w: World, owner: string, email: string, secs: nat)
    requires Sound(w)
    ensures Traced(LoginStep(w, owner, email, secs))
  {
    hide Intact, Traced;
    MintTraced(w, email, Session, Some(w.db.now + secs), owner, None, ByLogin);
  }

  lemma RejectTraced(w: World, r: Id)
    requires Traced(w)
    ensures Traced(w.(db := MarkRejected(w.db, r)))
  {
    RequestStatusTraced(w, r);
  }

  lemma ExpireTraced(w: World)
    requires Traced(w)
    ensures Traced(w.(db := ExpireRequests(w.db)))
  {
    RequestStatusTraced(w, 0);
  }

  lemma CallerOriginated(w: World, c: Claims)
    requires Traced(w) && c in w.claims
    ensures Originated(w.log, c.keyId, c.owner, c.device)
  {
  }

  /** The invariant of every run. */
  lemma {:induction false} RunIsSound(now: int, actions: seq<Action>)
    ensures Sound(Exec(now, actions))
  {
    if actions != [] {
      hide Step, Sound;
      RunIsSound(now, actions[..|actions| - 1]);
      StepIsSound(Exec(now, actions[..|actions| - 1]), actions[|actions| - 1]);
    }
  }

  lemma StepIsSound(w: World, a: Action)
    requires Sound(w)
    ensures Sound(Step(w, a))
  {
    hide Intact, Traced;
    StepKeepsIntact(w, a);
    StepKeepsTraced(w, a);
  }

  // ---------------------------------------------------------------- continuing a run

  function Steps(w: World, actions: seq<Action>): World {
    if actions == [] then w else Step(Steps(w, actions[..|actions| - 1]), actions[|actions| - 1])
  }

  lemma {:induction false} ExecThenSteps(now: int, first: seq<Action>, next: seq<Action>)
    ensures Exec(now, first + next) == Steps(Exec(now, first), next)
  {
    hide Step;
    if next == [] {
      assert first + next == first;
    } else {
      var n := |next| - 1;
      ExecThenSteps(now, first, next[..n]);
      assert (first + next)[..|first| + n] == first + next[..n];
    }
  }

  lemma OneStep(w: World, a: Action)
    ensures Steps(w, [a]) == Step(w, a)
  {
    hide Step;
    assert [a][..0] == [];
  }

  lemma TwoSteps(w: World, a: Action, b: Action)
    ensures Steps(w, [a, b]) == Step(Step(w, a), b)
  {
    hide Step;
    assert [a, b][..1] == [a];
    OneStep(w, a);
  }
}
