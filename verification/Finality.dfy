/** What is settled stays settled: which statuses a run can leave again, and when. */
module Finality {
  import opened Basics
  import opened Policy
  import opened Bans
  import opened Tables
  import opened DeviceDeletion
  import opened Sessions
  import opened Credentials
  import opened Entries
  import opened Integrity
  import opened Audit
  import opened AuditInvariant
  import opened Runs
  import opened Guarantees
  import Handlers
  import HandlerRuns

  // ---------------------------------------------------------------- what a statement may change

  /** No statement closes an approval and opens it again; a new one is for a key that awaits approval. */
  ghost predicate ApprovalsEvolve(db: Db, after: Db) {
    forall a | a in after.approvals ::
      || (a in db.approvals && after.approvals[a].apiKey == db.approvals[a].apiKey
          && after.approvals[a].expiresAt == db.approvals[a].expiresAt
          && (after.approvals[a].status == Open ==> db.approvals[a].status == Open))
      || (a >= db.nextId && AwaitsApproval(db, after.approvals[a].apiKey))
  }

  predicate Closed(status: RequestStatus) { status == Rejected || status == Expired }

  ghost predicate RequestsEvolve(db: Db, after: Db) {
    forall r | r in after.requests && r < db.nextId ::
      r in db.requests && (Closed(db.requests[r].status) ==> after.requests[r].status == db.requests[r].status)
  }

  ghost predicate ProposalsEvolve(db: Db, after: Db) {
    forall p | p in after.proposals && p < db.nextId ::
      p in db.proposals && (db.proposals[p].status != Proposed ==> after.proposals[p] == db.proposals[p])
  }

  /** Keys keep their hash; revoked ones stay revoked, and deleted ones gone. */
  ghost predicate KeysEvolve(db: Db, after: Db) {
    forall k | k in after.apiKeys && k < db.nextId ::
      k in db.apiKeys && after.apiKeys[k].keyHash == db.apiKeys[k].keyHash
      && (db.apiKeys[k].status == Revoked ==> after.apiKeys[k].status == Revoked)
  }

  ghost predicate TablesEvolve(db: Db, after: Db) {
    && db.nextId <= after.nextId && db.now <= after.now
    && ApprovalsEvolve(db, after) && RequestsEvolve(db, after) && ProposalsEvolve(db, after)
  }

  ghost predicate Evolves(db: Db, after: Db) { TablesEvolve(db, after) && KeysEvolve(db, after) }

  lemma QuietEvolves(db: Db, after: Db)
    requires db.nextId <= after.nextId && db.now <= after.now
    requires after.apiKeys == db.apiKeys && after.approvals == db.approvals
    requires after.requests == db.requests && after.proposals == db.proposals
    ensures Evolves(db, after)
  {
  }

  // ---------------------------------------------------------------- statement by statement

  lemma KeysChangeEvolves(db: Db, after: Db)
    requires db.nextId <= after.nextId && db.now == after.now && KeysEvolve(db, after)
    requires after.approvals == db.approvals && after.requests == db.requests && after.proposals == db.proposals
    ensures Evolves(db, after)
  {
    hide KeysEvolve;
  }

  lemma ApprovalsChangeEvolves(db: Db, after: Db)
    requires db.nextId <= after.nextId && db.now == after.now && ApprovalsEvolve(db, after)
    requires after.apiKeys == db.apiKeys && after.requests == db.requests && after.proposals == db.proposals
    ensures Evolves(db, after)
  {
    hide ApprovalsEvolve;
  }

  lemma RequestsChangeEvolves(db: Db, after: Db)
    requires db.nextId <= after.nextId && db.now == after.now && RequestsEvolve(db, after) && KeysEvolve(db, after)
    requires after.approvals == db.approvals && after.proposals == db.proposals
    ensures Evolves(db, after)
  {
    hide RequestsEvolve, KeysEvolve;
  }

  lemma SameKeysEvolve(db: Db, after: Db)
    requires after.apiKeys == db.apiKeys
    ensures KeysEvolve(db, after)
  {
  }

  lemma ProposalsChangeEvolves(db: Db, after: Db)
    requires db.nextId <= after.nextId && db.now == after.now && ProposalsEvolve(db, after)
    requires after.apiKeys == db.apiKeys && after.approvals == db.approvals && after.requests == db.requests
    ensures Evolves(db, after)
  {
    hide ProposalsEvolve;
  }

  lemma MintEvolves(db: Db, name: string, kind: KeyKind, expiresAt: Option<int>, owner: string, device: Option<Id>)
    requires MintKey(db, name, kind, expiresAt, owner, device).Some?
    ensures Evolves(db, MintKey(db, name, kind, expiresAt, owner, device).value)
  {
    hide Evolves;
    KeysChangeEvolves(db, MintKey(db, name, kind, expiresAt, owner, device).value);
  }

  lemma RevokeSessionsEvolves(db: Db, owner: string, name: Option<string>)
    ensures Evolves(db, RevokeSessions(db, owner, name))
  {
    hide Evolves, ActiveSession;
    KeysChangeEvolves(db, RevokeSessions(db, owner, name));
  }

  lemma RevokeKeyEvolves(db: Db, owner: string, k: Id)
    ensures Evolves(db, RevokeKey(db, owner, k))
  {
    hide Evolves;
    KeysChangeEvolves(db, RevokeKey(db, owner, k));
  }

  lemma ConsumeEvolves(db: Db, k: Id)
    ensures Evolves(db, ConsumeKey(db, k))
  {
    hide Evolves;
    KeysChangeEvolves(db, ConsumeKey(db, k));
  }

  lemma DeleteKeysEvolves(db: Db, doomed: set<Id>)
    ensures Evolves(db, DeleteApiKeys(db, doomed))
  {
  }

  lemma AskEvolves(db: Db, k: Id, supersede: bool)
    requires RequestApproval(db, k, supersede).Some?
    ensures Evolves(db, RequestApproval(db, k, supersede).value)
  {
  }

  lemma DeclineEvolves(db: Db, owner: string, a: Id)
    ensures Evolves(db, DeclineApproval(db, owner, a))
  {
    hide Evolves;
    ApprovalsChangeEvolves(db, DeclineApproval(db, owner, a));
  }

  lemma LapseEvolves(db: Db)
    ensures Evolves(db, LapseOld(db))
  {
    hide Evolves;
    ApprovalsChangeEvolves(db, LapseOld(db));
  }

  lemma GrantEvolves(db: Db, a: Id, k: Id)
    ensures TablesEvolve(db, GrantApproval(db, a, k))
  {
  }

  lemma RequestEvolves(db: Db, device: Id, challenge: Id, nonce: Secret)
    ensures Evolves(db, CreateChallenge(db, device).1)
    ensures Evolves(db, CreateRequest(db, challenge, nonce).1)
  {
    hide Banned, WrapForDevice;
  }

  /** An approval adds one credential and changes one waiting request. */
  ghost predicate AddsAndFills(db: Db, after: Db, r: Id) {
    && r in db.requests && db.requests[r].status == Waiting && r in after.requests && db.nextId in after.apiKeys
    && after.nextId == db.nextId + 2 && after.now == db.now
    && after.apiKeys == db.apiKeys[db.nextId := after.apiKeys[db.nextId]]
    && after.requests == db.requests[r := after.requests[r]]
    && after.approvals == db.approvals && after.proposals == db.proposals
  }

  lemma ApproveAddsAndFills(db: Db, owner: string, only: Option<Id>, r: Id, token: Secret, hours: int)
    requires Approve(db, owner, only, r, token, hours).0.Ok?
    ensures AddsAndFills(db, Approve(db, owner, only, r, token, hours).1, r)
  {
    hide Banned, WrapForDevice, ColumnsOf, HoursFromNow;
  }

  lemma FailedApproveChangesNothing(db: Db, owner: string, only: Option<Id>, r: Id, token: Secret, hours: int)
    requires Approve(db, owner, only, r, token, hours).0.Err?
    ensures Approve(db, owner, only, r, token, hours).1 == db
  {
    hide Banned, WrapForDevice, ColumnsOf, HoursFromNow;
  }

  lemma AddAndFillEvolves(db: Db, after: Db, r: Id)
    requires AddsAndFills(db, after, r)
    ensures Evolves(db, after)
  {
    hide Evolves;
    RequestsChangeEvolves(db, after);
  }

  lemma ApproveEvolves(db: Db, owner: string, only: Option<Id>, r: Id, token: Secret, hours: int)
    ensures Evolves(db, Approve(db, owner, only, r, token, hours).1)
  {
    hide Approve, Evolves;
    if Approve(db, owner, only, r, token, hours).0.Ok? {
      ApproveAddsAndFills(db, owner, only, r, token, hours);
      AddAndFillEvolves(db, Approve(db, owner, only, r, token, hours).1, r);
    } else {
      FailedApproveChangesNothing(db, owner, only, r, token, hours);
      QuietEvolves(db, db);
    }
  }

  lemma RejectEvolves(db: Db, r: Id)
    ensures Evolves(db, MarkRejected(db, r))
  {
    hide Evolves, KeysEvolve;
    SameKeysEvolve(db, MarkRejected(db, r));
    RequestsChangeEvolves(db, MarkRejected(db, r));
  }

  lemma DeliverEvolves(db: Db, r: Id)
    ensures Evolves(db, MarkDelivered(db, r))
  {
    hide Evolves, KeysEvolve;
    SameKeysEvolve(db, MarkDelivered(db, r));
    RequestsChangeEvolves(db, MarkDelivered(db, r));
  }

  lemma ExpireEvolves(db: Db)
    ensures Evolves(db, ExpireRequests(db))
  {
    hide Evolves, KeysEvolve;
    SameKeysEvolve(db, ExpireRequests(db));
    RequestsChangeEvolves(db, ExpireRequests(db));
  }

  lemma ProposeEvolves(db: Db, name: string, publicKey: string, keyType: string)
    ensures Evolves(db, Propose(db, name, publicKey, keyType))
  {
    hide Evolves;
    ProposalsChangeEvolves(db, Propose(db, name, publicKey, keyType));
  }

  lemma DismissEvolves(db: Db, p: Id)
    ensures Evolves(db, DismissProposal(db, p))
  {
    hide Evolves;
    ProposalsChangeEvolves(db, DismissProposal(db, p));
  }

  lemma TimeOutEvolves(db: Db)
    ensures Evolves(db, TimeOutProposals(db))
  {
    hide Evolves;
    ProposalsChangeEvolves(db, TimeOutProposals(db));
  }

  lemma LinkEvolves(db: Db, owner: string, p: Id, token: Secret, device: Id)
    ensures Evolves(db, LinkProposal(db, owner, p, token, device).1)
  {
    hide Evolves;
    ProposalsChangeEvolves(db, LinkProposal(db, owner, p, token, device).1);
  }

  lemma PurgeEvolves(db: Db, device: Id)
    ensures Evolves(db, Purged(db, device))
  {
  }

  lemma DeletionEvolves(db: Db, owner: string, device: Id)
    requires Intact(db)
    ensures Evolves(db, AfterDelete(db, owner, device).1)
  {
    hide Evolves, Intact;
    QuietEvolves(db, db);
    if device in db.devices && db.devices[device].owner == owner {
      DeletedIsPurged(db, owner, device);
      PurgeEvolves(db, device);
    }
  }

  // ---------------------------------------------------------------- step by step

  /** An approval of `k` that could still be read. */
  predicate Readable(db: Db, a: Id, k: Id) {
    a in db.approvals && db.approvals[a].apiKey == k && db.approvals[a].status == Open && db.approvals[a].expiresAt > db.now
  }

  /** The envelope of an approval opens to the secret of the credential that it minted. */
  predicate SealsItsKey(db: Db, x: Event)
    requires x.SessionApproved?
  {
    x.key in db.apiKeys && db.apiKeys[x.key].keyHash == Digest(Opened(x.envelope).1)
  }

  /** What one step may do: evolve the tables, except that a grant activates the key that was read; read
      an approval that can be read; approve a request that is open. */
  ghost predicate StepEvolves(w: World, v: World) {
    && TablesEvolve(w.db, v.db)
    && (forall k | k in v.db.apiKeys && k < w.db.nextId ::
          && k in w.db.apiKeys && v.db.apiKeys[k].keyHash == w.db.apiKeys[k].keyHash
          && (w.db.apiKeys[k].status == Revoked ==> v.db.apiKeys[k].status == Revoked || Ungranted(w, k)))
    && (forall choice | choice in v.chosen :: choice in w.chosen || Readable(w.db, choice.0, choice.1))
    && (forall x, r | x in v.log && Approves(x, r) :: x in w.log || (RequestOpen(w.db, r) && SealsItsKey(v.db, x)))
  }

  /** Some request has read an approval of `k` and not granted it yet. */
  ghost predicate Ungranted(w: World, k: Id) { exists a :: (a, k) in w.chosen }

  lemma DbStepEvolves(w: World, v: World)
    requires Evolves(w.db, v.db) && v.chosen == w.chosen
    requires forall x, r | x in v.log && Approves(x, r) ::
               x in w.log || (RequestOpen(w.db, r) && SealsItsKey(v.db, x))
    ensures StepEvolves(w, v)
  {
    hide TablesEvolve;
  }

  lemma QuietStepEvolves(w: World, v: World)
    requires v.db == w.db && v.chosen == w.chosen && v.log == w.log
    ensures StepEvolves(w, v)
  {
    hide Evolves, StepEvolves;
    QuietEvolves(w.db, v.db);
    DbStepEvolves(w, v);
  }

  lemma MintStepEvolves(w: World, name: string, kind: KeyKind, expiresAt: Option<int>, owner: string,
                        device: Option<Id>, minter: Minter)
    ensures StepEvolves(w, MintStep(w, name, kind, expiresAt, owner, device, minter))
  {
    hide Evolves, StepEvolves, MintKey;
    QuietStepEvolves(w, w);
    if MintKey(w.db, name, kind, expiresAt, owner, device).Some? {
      MintEvolves(w.db, name, kind, expiresAt, owner, device);
      DbStepEvolves(w, MintStep(w, name, kind, expiresAt, owner, device, minter));
    }
  }

  lemma KeyStepEvolves(w: World, a: KeyAction)
    ensures StepEvolves(w, KeyStep(w, a))
  {
    hide Evolves, StepEvolves, MintStep, RevokeSessions, RevokeKey, DeleteApiKeys, RevokedSessions, AdminAuth;
    QuietStepEvolves(w, w);
    match a
    case Login(owner, email, secs) =>
      MintStepEvolves(w, email, Session, Some(w.db.now + secs), owner, None, ByLogin);
    case Authenticate(k, secret) => QuietStepEvolves(w, AuthenticateStep(w, k, secret));
    case Mint(c, name, kind, expiresAt) =>
      MintStepEvolves(w, name, kind, expiresAt, c.owner, c.device, ByCredential(c.keyId));
    case RevokeOwned(owner, name) =>
      RevokeSessionsEvolves(w.db, owner, name);
      DbStepEvolves(w, KeyStep(w, a));
    case RevokeOne(owner, k) =>
      RevokeKeyEvolves(w.db, owner, k);
      DbStepEvolves(w, KeyStep(w, a));
    case DeleteOne(owner, k) =>
      QuietEvolves(w.db, w.db);
      DeleteKeysEvolves(w.db, {k});
      DbStepEvolves(w, KeyStep(w, a));
    case DeleteRevoked(owner) =>
      DeleteKeysEvolves(w.db, RevokedSessions(w.db, owner));
      DbStepEvolves(w, KeyStep(w, a));
  }

  lemma GrantStepEvolves(w: World, a: Id, k: Id)
    ensures StepEvolves(w, GrantStep(w, a, k))
  {
    hide TablesEvolve;
    GrantEvolves(w.db, a, k);
    if (a, k) !in w.chosen { QuietStepEvolves(w, w); }
  }

  lemma ReadStepEvolves(w: World, owner: string, a: Id, confirm: Secret)
    ensures StepEvolves(w, ReadApprovalStep(w, owner, a, confirm))
  {
    hide TablesEvolve;
    QuietStepEvolves(w, w);
  }

  lemma ApprovalStepEvolves(w: World, a: ApprovalAction)
    ensures StepEvolves(w, ApprovalStep(w, a))
  {
    hide Evolves, StepEvolves, RequestApproval, DeclineApproval, ReadApprovalStep, GrantStep;
    QuietStepEvolves(w, w);
    match a
    case AskApproval(k, supersede) =>
      if RequestApproval(w.db, k, supersede).Some? {
        AskEvolves(w.db, k, supersede);
        DbStepEvolves(w, AskStep(w, k, supersede));
      }
    case ReadApproval(owner, x, confirm) => ReadStepEvolves(w, owner, x, confirm);
    case Grant(x, k) => GrantStepEvolves(w, x, k);
    case Decline(owner, x) =>
      DeclineEvolves(w.db, owner, x);
      DbStepEvolves(w, ApprovalStep(w, a));
  }

  lemma ApproveStepEvolves(w: World, c: Claims, only: Option<Id>, r: Id, token: Secret, hours: int)
    ensures StepEvolves(w, ApproveStep(w, c, only, r, token, hours))
  {
    hide Evolves, StepEvolves, EnvelopeOf, Banned, WrapForDevice;
    QuietStepEvolves(w, w);
    ApproveEvolves(w.db, c.owner, only, r, token, hours);
    if c in w.claims && Approve(w.db, c.owner, only, r, token, hours).0.Ok? {
      ApprovalSealsTheMintedKey(w.db, c.owner, only, r, token, hours);
      DbStepEvolves(w, ApproveStep(w, c, only, r, token, hours));
    }
  }

  lemma ProtocolStepEvolves(w: World, a: ProtocolAction)
    ensures StepEvolves(w, ProtocolStep(w, a))
  {
    hide Evolves, StepEvolves, IssueStep, OpenStep, ApproveStep, PollReadStep, PollCheckStep, PollClaimStep, MarkRejected;
    match a
    case IssueChallenge(device) => IssueStepEvolves(w, device);
    case OpenRequest(challenge, nonce) => OpenStepEvolves(w, challenge, nonce);
    case ApproveRequest(c, only, r, token, hours) => ApproveStepEvolves(w, c, only, r, token, hours);
    case RejectRequest(r) =>
      RejectEvolves(w.db, r);
      DbStepEvolves(w, ProtocolStep(w, a));
    case PollRead(p, r, secret) => PollReadEvolves(w, p, r, secret);
    case PollCheck(p) => PollCheckEvolves(w, p);
    case PollClaim(p) => PollClaimEvolves(w, p);
  }

  lemma IssueStepEvolves(w: World, device: Id)
    ensures StepEvolves(w, IssueStep(w, device))
  {
    hide Evolves, StepEvolves, CreateChallenge;
    QuietStepEvolves(w, w);
    RequestEvolves(w.db, device, 0, 0);
    if CreateChallenge(w.db, device).0.Ok? { DbStepEvolves(w, IssueStep(w, device)); }
  }

  lemma OpenStepEvolves(w: World, challenge: Id, nonce: Secret)
    ensures StepEvolves(w, OpenStep(w, challenge, nonce))
  {
    hide Evolves, StepEvolves, Banned;
    QuietStepEvolves(w, w);
    RequestEvolves(w.db, 0, challenge, nonce);
    if CreateRequest(w.db, challenge, nonce).0.Ok? { DbStepEvolves(w, OpenStep(w, challenge, nonce)); }
  }

  lemma PollReadEvolves(w: World, p: nat, r: Id, secret: Secret)
    ensures StepEvolves(w, PollReadStep(w, p, r, secret))
  {
    hide StepEvolves, ReadForPoll;
    QuietStepEvolves(w, PollReadStep(w, p, r, secret));
  }

  lemma PollCheckEvolves(w: World, p: nat)
    ensures StepEvolves(w, PollCheckStep(w, p))
  {
    hide StepEvolves, CheckForPoll, AnswerPoll;
    QuietStepEvolves(w, PollCheckStep(w, p));
  }

  lemma PollClaimEvolves(w: World, p: nat)
    ensures StepEvolves(w, PollClaimStep(w, p))
  {
    hide Evolves, StepEvolves, AnswerPoll, MarkDelivered;
    QuietStepEvolves(w, w);
    if p in w.polls && w.polls[p].stage.BanChecked? {
      DeliverEvolves(w.db, w.polls[p].request);
      DbStepEvolves(w, PollClaimStep(w, p));
    }
  }

  lemma ManualStepEvolves(w: World, a: ManualAction)
    ensures StepEvolves(w, ManualActionStep(w, a))
  {
    hide StepEvolves, ManualLookupStep, ManualCheckStep, ManualConsumeStep;
    match a
    case ManualLookup(m, k, secret) => LookupStepEvolves(w, m, k, secret);
    case ManualCheck(m) => CheckStepEvolves(w, m);
    case ManualConsume(m) => ConsumeStepEvolves(w, m);
  }

  lemma LookupStepEvolves(w: World, m: nat, k: Id, secret: Secret)
    ensures StepEvolves(w, ManualLookupStep(w, m, k, secret))
  {
    hide StepEvolves, LookupManual;
    QuietStepEvolves(w, ManualLookupStep(w, m, k, secret));
  }

  lemma CheckStepEvolves(w: World, m: nat)
    ensures StepEvolves(w, ManualCheckStep(w, m))
  {
    hide StepEvolves, Banned;
    QuietStepEvolves(w, ManualCheckStep(w, m));
  }

  lemma ConsumeStepEvolves(w: World, m: nat)
    ensures StepEvolves(w, ManualConsumeStep(w, m))
  {
    hide Evolves, StepEvolves, ConsumeKey, Consumable;
    var v := ManualConsumeStep(w, m);
    if v.db == w.db && v.log == w.log {
      QuietStepEvolves(w, v);
    } else {
      ConsumeEvolves(w.db, w.manuals[m].key);
      DbStepEvolves(w, v);
    }
  }

  lemma DeviceStepEvolves(w: World, a: DeviceAction)
    requires Intact(w.db)
    ensures StepEvolves(w, DeviceStep(w, a))
  {
    hide Evolves, StepEvolves, Intact, AfterDelete, Propose, LinkProposal, DismissProposal, SavedPolicies, SavedKeys;
    match a
    case Enrol(owner, name, publicKey, keyType) => EnrolStepEvolves(w, owner, name, publicKey, keyType);
    case ProposeDevice(name, publicKey, keyType) =>
      ProposeEvolves(w.db, name, publicKey, keyType);
      DbStepEvolves(w, DeviceStep(w, a));
    case LinkDevice(owner, p, token, device) =>
      LinkEvolves(w.db, owner, p, token, device);
      DbStepEvolves(w, DeviceStep(w, a));
    case DismissDevice(p) =>
      DismissEvolves(w.db, p);
      DbStepEvolves(w, DeviceStep(w, a));
    case DeleteDevice(owner, device) =>
      DeletionEvolves(w.db, owner, device);
      DbStepEvolves(w, DeviceStep(w, a));
    case SavePolicy(owner, device, n) =>
      QuietEvolves(w.db, PolicyStep(w, owner, device, n).db);
      DbStepEvolves(w, DeviceStep(w, a));
  }

  lemma EnrolStepEvolves(w: World, owner: string, name: string, publicKey: string, keyType: string)
    ensures StepEvolves(w, EnrolStep(w, owner, name, publicKey, keyType))
  {
    hide Evolves, StepEvolves;
    QuietEvolves(w.db, EnrolStep(w, owner, name, publicKey, keyType).db);
    DbStepEvolves(w, EnrolStep(w, owner, name, publicKey, keyType));
  }

  lemma QuietTableStepEvolves(w: World, a: TableAction)
    requires !a.CleanApprovals? && !a.CleanRequests? && !a.CleanProposals?
    ensures Evolves(w.db, TableStep(w, a).db)
  {
    hide Evolves, RecipientsReferTo, LapseOld, ExpireRequests, TimeOutProposals, BansStep, EntriesStep, Allow,
      DropChallenges, Touch, LiftBan, AfterViolation, WriteResult;
    match a
    case LiftOne(owner, device) =>
      BansStepIsQuiet(w, LiftBan(w.db.bans, OwnersOf(w.db.devices), owner, device, w.db.now));
    case Violate(device, owner, base, name) =>
      BansStepIsQuiet(w, AfterViolation(w.db.bans, device, owner, base, w.db.now, name));
    case WriteEntries(e) =>
      var after := WriteResult(w.db, e);
      EntriesStepIsQuiet(w, after.kv, after.bodies, after.recipients, after.nextId - w.db.nextId);
    case ChangeBans(bans) => BansStepIsQuiet(w, bans);
    case ChangeEntries(kv, bodies, recipients, ids) => EntriesStepIsQuiet(w, kv, bodies, recipients, ids);
    case AllowNames(k, names) => AllowIsQuiet(w.db, k, names);
    case TouchDevice(device) => TouchIsQuiet(w.db, device);
    case CleanChallenges => DropIsQuiet(w.db);
    case Tick(secs) => QuietEvolves(w.db, TableStep(w, a).db);
  }

  lemma BansStepIsQuiet(w: World, bans: BanTable)
    ensures Evolves(w.db, BansStep(w, bans).db)
  {
    hide Evolves;
    QuietEvolves(w.db, BansStep(w, bans).db);
  }

  lemma EntriesStepIsQuiet(w: World, kv: map<EntryKey, KvEntry>, bodies: map<EntryKey, string>,
                           recipients: map<Id, Recipient>, ids: nat)
    ensures Evolves(w.db, EntriesStep(w, kv, bodies, recipients, ids).db)
  {
    hide Evolves, RecipientsReferTo;
    QuietEvolves(w.db, EntriesStep(w, kv, bodies, recipients, ids).db);
  }

  lemma AllowIsQuiet(db: Db, k: Id, names: set<string>)
    ensures Evolves(db, Allow(db, k, names)) && Evolves(db, db)
  {
    hide Evolves;
    QuietEvolves(db, Allow(db, k, names));
    QuietEvolves(db, db);
  }

  lemma TouchIsQuiet(db: Db, device: Id)
    ensures Evolves(db, Touch(db, device))
  {
    hide Evolves;
    QuietEvolves(db, Touch(db, device));
  }

  lemma DropIsQuiet(db: Db)
    ensures Evolves(db, DropChallenges(db))
  {
    hide Evolves;
    QuietEvolves(db, DropChallenges(db));
  }

  lemma TableStepEvolves(w: World, a: TableAction)
    ensures StepEvolves(w, TableStep(w, a))
  {
    hide Evolves, StepEvolves, RecipientsReferTo, LapseOld, ExpireRequests, TimeOutProposals, DropChallenges, Touch;
    if a.CleanApprovals? {
      LapseEvolves(w.db);
    } else if a.CleanRequests? {
      ExpireEvolves(w.db);
    } else if a.CleanProposals? {
      TimeOutEvolves(w.db);
    } else {
      QuietTableStepEvolves(w, a);
    }
    DbStepEvolves(w, TableStep(w, a));
  }

  lemma EveryStepEvolves(w: World, a: Action)
    requires Sound(w)
    ensures StepEvolves(w, Step(w, a))
  {
    hide StepEvolves, Intact, Traced, KeyStep, ApprovalStep, ProtocolStep, ManualActionStep, DeviceStep, TableStep;
    match a
    case OnKeys(x) => KeyStepEvolves(w, x);
    case OnApprovals(x) => ApprovalStepEvolves(w, x);
    case OnProtocol(x) => ProtocolStepEvolves(w, x);
    case OnManual(x) => ManualStepEvolves(w, x);
    case OnDevices(x) => DeviceStepEvolves(w, x);
    case OnTables(x) => TableStepEvolves(w, x);
  }

  // ---------------------------------------------------------------- approvals, requests and proposals

  ghost predicate ApprovalClosed(w: World, a: Id) {
    a < w.db.nextId && (a in w.db.approvals ==> w.db.approvals[a].status != Open)
  }

  ghost predicate RequestClosed(w: World, r: Id, status: RequestStatus) {
    && r < w.db.nextId && Closed(status) && (r in w.db.requests ==> w.db.requests[r].status == status)
    && forall x | x in w.log :: !Approves(x, r)
  }

  ghost predicate ProposalSettled(w: World, p: Id, row: Proposal) {
    p < w.db.nextId && row.status != Proposed && (p in w.db.proposals ==> w.db.proposals[p] == row)
  }

  lemma SettledStays(w: World, v: World, a: Id, r: Id, status: RequestStatus, p: Id, row: Proposal)
    requires StepEvolves(w, v)
    ensures ApprovalClosed(w, a) ==> ApprovalClosed(v, a)
    ensures RequestClosed(w, r, status) ==> RequestClosed(v, r, status)
    ensures ProposalSettled(w, p, row) ==> ProposalSettled(v, p, row)
  {
  }

  lemma {:induction false} SettledInRun(now: int, actions: seq<Action>, more: seq<Action>, a: Id, r: Id,
                                        status: RequestStatus, p: Id, row: Proposal)
    ensures ApprovalClosed(Exec(now, actions), a) ==> ApprovalClosed(Exec(now, actions + more), a)
    ensures RequestClosed(Exec(now, actions), r, status) ==> RequestClosed(Exec(now, actions + more), r, status)
    ensures ProposalSettled(Exec(now, actions), p, row) ==> ProposalSettled(Exec(now, actions + more), p, row)
  {
    hide Step, Sound, StepEvolves, ApprovalClosed, RequestClosed, ProposalSettled;
    if more == [] {
      assert actions + more == actions;
    } else {
      var n := |more| - 1;
      SettledInRun(now, actions, more[..n], a, r, status, p, row);
      assert (actions + more)[..|actions| + n] == actions + more[..n];
      RunIsSound(now, actions + more[..n]);
      EveryStepEvolves(Exec(now, actions + more[..n]), more[n]);
      SettledStays(Exec(now, actions + more[..n]), Exec(now, actions + more), a, r, status, p, row);
    }
  }

  /** An approval request that is declined, granted or lapsed can never be chosen again. */
  lemma ClosedApprovalsAreNeverChosen(now: int, actions: seq<Action>, more: seq<Action>, a: Id, owner: string,
                                      confirm: Secret)
    requires a in Exec(now, actions).db.approvals && Exec(now, actions).db.approvals[a].status != Open
    ensures ChooseApproval(Exec(now, actions + more).db, owner, a, confirm) == Err(NotFound)
  {
    hide Exec;
    RunIsSound(now, actions);
    SettledInRun(now, actions, more, a, 0, Waiting, 0, NO_PROPOSAL);
  }

  const NO_PROPOSAL: Proposal := Proposal("", "", "", Proposed, None, Digest(0), 0, None)

  /** A rejected or expired session request keeps that status, is never approved, and no poll ever hands
      out an envelope for it. */
  lemma RejectedRequestsNeverDeliver(now: int, actions: seq<Action>, more: seq<Action>, r: Id, p: nat)
    requires r in Exec(now, actions).db.requests && Closed(Exec(now, actions).db.requests[r].status)
    ensures var (row, late) := (Exec(now, actions).db.requests[r], Exec(now, actions + more));
            && (r in late.db.requests ==> late.db.requests[r].status == row.status)
            && (forall x | x in late.log :: !Approves(x, r))
            && !(HandsOut(late, p) && late.polls[p].request == r)
  {
    hide Exec, AuditSound, Intact, KeysLogged, ClaimsLogged, ChallengesLogged, ConsumedAreUsed, ManualsSound;
    RunIsSound(now, actions);
    RunIsSound(now, actions + more);
    var (w, late) := (Exec(now, actions), Exec(now, actions + more));
    assert RequestLogged(w.log, r, w.db.requests[r]);
    SettledInRun(now, actions, more, 0, r, w.db.requests[r].status, 0, NO_PROPOSAL);
    if HandsOut(late, p) && late.polls[p].request == r {
      DeliveredIsWhatWasApproved(now, actions + more, p);
    }
  }

  /** A proposal is decided once: a confirmed, dismissed or timed-out one keeps its row for as long as it
      exists, and is never linked again. */
  lemma ProposalsAreDecidedOnce(now: int, actions: seq<Action>, more: seq<Action>, p: Id, owner: string, token: Secret,
                                device: Id)
    requires p in Exec(now, actions).db.proposals && Exec(now, actions).db.proposals[p].status != Proposed
    ensures var (row, late) := (Exec(now, actions).db.proposals[p], Exec(now, actions + more).db);
            && (p in late.proposals ==> late.proposals[p] == row)
            && LinkProposal(late, owner, p, token, device) == (Err(NotFound), late)
            && DismissProposal(late, p) == late
  {
    hide Exec;
    RunIsSound(now, actions);
    SettledInRun(now, actions, more, 0, 0, Waiting, p, Exec(now, actions).db.proposals[p]);
  }

  /** The run after a handler has been served. */
  function Served(now: int, actions: seq<Action>, base: nat, c: Claims, request: Handlers.Request): seq<Action> {
    actions + HandlerRuns.ActionsOf(Exec(now, actions).db, base, c, request)
  }

  lemma DeclineCloses(db: Db, c: Claims, a: Id)
    requires Handlers.RejectKey(db, c, a).0.Ok?
    ensures a in Handlers.RejectKey(db, c, a).1.approvals && Handlers.RejectKey(db, c, a).1.approvals[a].status == Declined
  {
    hide Handlers.RestrictedCaller;
  }

  /** Once the owner has declined an approval request, nobody can choose it, however the run goes on. */
  lemma DeclinedApprovalIsNeverChosen(now: int, actions: seq<Action>, base: nat, c: Claims, a: Id, more: seq<Action>,
                                      owner: string, confirm: Secret)
    requires c in Exec(now, actions).claims && Handlers.RejectKey(Exec(now, actions).db, c, a).0.Ok?
    ensures var request := Handlers.ForKeys(Handlers.PostRejection(a));
            ChooseApproval(Exec(now, Served(now, actions, base, c, request) + more).db, owner, a, confirm) == Err(NotFound)
  {
    hide Exec, HandlerRuns.ActionsOf, Handlers.RejectKey, ChooseApproval;
    var request := Handlers.ForKeys(Handlers.PostRejection(a));
    HandlerRuns.HandlersAreRuns(now, actions, base, c, request);
    DeclineCloses(Exec(now, actions).db, c, a);
    ClosedApprovalsAreNeverChosen(now, Served(now, actions, base, c, request), more, a, owner, confirm);
  }

  lemma RejectionCloses(db: Db, c: Claims, r: Id)
    requires Handlers.RejectSession(db, c, r).0.Ok?
    ensures var after := Handlers.RejectSession(db, c, r).1;
            r in after.requests && after.requests[r].status == Rejected
  {
    hide Handlers.RestrictedCaller;
  }

  /** Once the owner has rejected a session request, it is never approved and no poll ever hands out an
      envelope for it, however the run goes on. */
  lemma RejectedSessionIsNeverDelivered(now: int, actions: seq<Action>, base: nat, c: Claims, r: Id, more: seq<Action>,
                                        p: nat)
    requires c in Exec(now, actions).claims && Handlers.RejectSession(Exec(now, actions).db, c, r).0.Ok?
    ensures var request := Handlers.ForDevices(Handlers.PostSessionRejection(r));
            var late := Exec(now, Served(now, actions, base, c, request) + more);
            && (forall x | x in late.log :: !Approves(x, r))
            && !(HandsOut(late, p) && late.polls[p].request == r)
  {
    hide Exec, HandlerRuns.ActionsOf, Handlers.RejectSession, HandsOut;
    var request := Handlers.ForDevices(Handlers.PostSessionRejection(r));
    HandlerRuns.HandlersAreRuns(now, actions, base, c, request);
    RejectionCloses(Exec(now, actions).db, c, r);
    RejectedRequestsNeverDeliver(now, Served(now, actions, base, c, request), more, r, p);
  }

  lemma DismissalDecides(db: Db, c: Claims, p: Id)
    requires Handlers.RejectProposed(db, c, p).0.Ok?
    ensures var after := Handlers.RejectProposed(db, c, p).1;
            p in after.proposals && after.proposals[p].status == Dismissed
  {
    hide Handlers.RestrictedCaller;
  }

  /** Once a proposal is rejected, it is never linked to a device, however the run goes on. */
  lemma DismissedProposalIsNeverLinked(now: int, actions: seq<Action>, base: nat, c: Claims, p: Id, more: seq<Action>,
                                       owner: string, token: Secret, device: Id)
    requires c in Exec(now, actions).claims && Handlers.RejectProposed(Exec(now, actions).db, c, p).0.Ok?
    ensures var request := Handlers.ForDevices(Handlers.PostDismissal(p));
            var late := Exec(now, Served(now, actions, base, c, request) + more).db;
            && LinkProposal(late, owner, p, token, device) == (Err(NotFound), late)
            && (p in late.proposals ==> late.proposals[p].status == Dismissed)
  {
    hide Exec, HandlerRuns.ActionsOf, Handlers.RejectProposed, LinkProposal;
    var request := Handlers.ForDevices(Handlers.PostDismissal(p));
    HandlerRuns.HandlersAreRuns(now, actions, base, c, request);
    DismissalDecides(Exec(now, actions).db, c, p);
    ProposalsAreDecidedOnce(now, Served(now, actions, base, c, request), more, p, owner, token, device);
  }

  // ---------------------------------------------------------------- revocation

  /** Revocation can be undone: an approval of the key is open and unexpired, or was read and is not
      granted yet. */
  ghost predicate Revivable(w: World, k: Id) { (exists a :: Readable(w.db, a, k)) || Ungranted(w, k) }

  ghost predicate Dead(w: World, k: Id) {
    k < w.db.nextId && (k in w.db.apiKeys ==> w.db.apiKeys[k].status == Revoked) && !Revivable(w, k)
  }

  /** Nothing that could revive a revoked key comes up by itself. */
  lemma RevivableBefore(w: World, v: World, k: Id)
    requires StepEvolves(w, v) && k < w.db.nextId && Revivable(v, k)
    requires k in w.db.apiKeys ==> w.db.apiKeys[k].status == Revoked
    ensures Revivable(w, k)
  {
    if Ungranted(v, k) {
      var a :| (a, k) in v.chosen;
      assert (a, k) in w.chosen || Readable(w.db, a, k);
    } else {
      var a :| Readable(v.db, a, k);
      assert Readable(w.db, a, k);
    }
  }

  lemma DeadStays(w: World, v: World, k: Id)
    requires StepEvolves(w, v) && Dead(w, k)
    ensures Dead(v, k)
  {
    hide Revivable;
    if Revivable(v, k) { RevivableBefore(w, v, k); }
    NotUngranted(w, k);
  }

  lemma NotUngranted(w: World, k: Id)
    requires !Revivable(w, k)
    ensures !Ungranted(w, k)
  {
  }

  lemma {:induction false} DeadInRun(now: int, actions: seq<Action>, more: seq<Action>, k: Id)
    requires Dead(Exec(now, actions), k)
    ensures Dead(Exec(now, actions + more), k)
  {
    hide Step, Sound, StepEvolves, Dead;
    if more == [] {
      assert actions + more == actions;
    } else {
      var n := |more| - 1;
      DeadInRun(now, actions, more[..n], k);
      assert (actions + more)[..|actions| + n] == actions + more[..n];
      RunIsSound(now, actions + more[..n]);
      EveryStepEvolves(Exec(now, actions + more[..n]), more[n]);
      DeadStays(Exec(now, actions + more[..n]), Exec(now, actions + more), k);
    }
  }

  predicate InUse(db: Db, k: Id) { k in db.apiKeys && db.apiKeys[k].status == Active }

  lemma GrantRevives(w: World, a: Id, k: Id)
    requires (a, k) in w.chosen && k in w.db.apiKeys
    ensures InUse(Step(w, OnApprovals(Grant(a, k))).db, k)
  {
  }

  lemma OpenApprovalIsRead(w: World, a: Id, k: Id)
    requires Readable(w.db, a, k) && k in w.db.apiKeys
    ensures var v := Step(w, OnApprovals(ReadApproval(w.db.apiKeys[k].owner, a, w.db.approvals[a].confirm.secret)));
            (a, k) in v.chosen && v.db == w.db
  {
  }

  /** Revocation is final exactly when nothing is left to approve: a revoked key comes back in some
      continuation of the run if and only if an approval of it is open and unexpired, or has been read
      and not yet granted. */
  lemma RevocationIsUndoneExactlyIfAnApprovalIsLeft(now: int, actions: seq<Action>, k: Id)
    requires IsRevoked(Exec(now, actions).db, k)
    ensures (exists more :: InUse(Exec(now, actions + more).db, k)) <==> Revivable(Exec(now, actions), k)
  {
    hide Exec, Step, Readable, InUse;
    var w := Exec(now, actions);
    if Revivable(w, k) {
      var more := RevivingRun(now, actions, k);
    } else {
      RunIsSound(now, actions);
      KeyIsBelow(w.db, k);
      forall more ensures !InUse(Exec(now, actions + more).db, k) {
        DeadInRun(now, actions, more, k);
        DeadIsNotInUse(Exec(now, actions + more), k);
      }
    }
  }

  lemma DeadIsNotInUse(w: World, k: Id)
    requires Dead(w, k)
    ensures !InUse(w.db, k)
  {
  }

  lemma RevivingRun(now: int, actions: seq<Action>, k: Id) returns (more: seq<Action>)
    requires IsRevoked(Exec(now, actions).db, k) && Revivable(Exec(now, actions), k)
    ensures InUse(Exec(now, actions + more).db, k)
  {
    hide Exec, Step, Readable, InUse;
    var w := Exec(now, actions);
    if Ungranted(w, k) {
      var a :| (a, k) in w.chosen;
      more := [OnApprovals(Grant(a, k))];
      ExecOneMore(now, actions, OnApprovals(Grant(a, k)));
      GrantRevives(w, a, k);
    } else {
      var a :| Readable(w.db, a, k);
      var read := ReadingOf(w, a, k);
      more := [read] + [OnApprovals(Grant(a, k))];
      assert actions + more == actions + [read] + [OnApprovals(Grant(a, k))];
      ExecOneMore(now, actions, read);
      ExecOneMore(now, actions + [read], OnApprovals(Grant(a, k)));
      GrantRevives(Exec(now, actions + [read]), a, k);
    }
  }

  lemma ReadingOf(w: World, a: Id, k: Id) returns (read: Action)
    requires Readable(w.db, a, k) && k in w.db.apiKeys
    ensures (a, k) in Step(w, read).chosen && Step(w, read).db == w.db
  {
    read := OnApprovals(ReadApproval(w.db.apiKeys[k].owner, a, w.db.approvals[a].confirm.secret));
    OpenApprovalIsRead(w, a, k);
  }

  /** A run in which the key is revoked first, and its open approval is read and granted afterwards. */
  function RevokeFirst(): seq<Action> {
    MintPending() + [OnApprovals(AskApproval(2, false))] + [OnKeys(RevokeOne("owner", 2))]
  }

  function ApproveLater(): seq<Action> {
    RevokeFirst() + [OnApprovals(ReadApproval("owner", 4, 5))] + [OnApprovals(Grant(4, 2))]
  }

  lemma AskingOpensApproval(w: World)
    requires w.db.now == 0 && w.db.nextId == 4 && w.db.approvals == map[] && 2 in w.db.apiKeys
    requires w.db.apiKeys[2] == ApiKey(Digest(3), "label", ApprovalRequired, PendingApproval, None, "owner", None)
    ensures var after := Step(w, OnApprovals(AskApproval(2, false)));
            after.db.apiKeys == w.db.apiKeys && Readable(after.db, 4, 2) && after.db.approvals[4].confirm == Digest(5)
  {
  }

  lemma RevocationKeepsApproval(w: World)
    requires Readable(w.db, 4, 2) && 2 in w.db.apiKeys
    requires w.db.apiKeys[2].owner == "owner" && w.db.apiKeys[2].status == PendingApproval
    ensures var after := Step(w, OnKeys(RevokeOne("owner", 2)));
            && IsRevoked(after.db, 2) && after.db.apiKeys[2].owner == "owner"
            && Readable(after.db, 4, 2) && after.db.approvals == w.db.approvals
  {
  }

  lemma KeyRevokedBeforeTheReadingComesBack()
    ensures IsRevoked(Exec(0, RevokeFirst()).db, 2) && InUse(Exec(0, ApproveLater()).db, 2)
  {
    hide Exec, MintPending, Step, Readable;
    PendingKeyIsMinted();
    var ask := OnApprovals(AskApproval(2, false));
    ExecOneMore(0, MintPending(), ask);
    ExecOneMore(0, MintPending() + [ask], OnKeys(RevokeOne("owner", 2)));
    AskingOpensApproval(Exec(0, MintPending()));
    RevocationKeepsApproval(Exec(0, MintPending() + [ask]));
    ExecOneMore(0, RevokeFirst(), OnApprovals(ReadApproval("owner", 4, 5)));
    OpenApprovalIsRead(Exec(0, RevokeFirst()), 4, 2);
    ExecOneMore(0, RevokeFirst() + [OnApprovals(ReadApproval("owner", 4, 5))], OnApprovals(Grant(4, 2)));
    GrantRevives(Exec(0, RevokeFirst() + [OnApprovals(ReadApproval("owner", 4, 5))]), 4, 2);
  }
}
