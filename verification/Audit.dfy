/** Whole runs of the server: every statement of every handler, in any order, with an audit log
    of what was issued, approved, delivered and consumed. */
module Audit {
  import opened Basics
  import opened Policy
  import opened Bans
  import opened Tables
  import opened DeviceDeletion
  import opened Sessions
  import opened Credentials
  import opened Entries

  datatype Minter = ByLogin | ByCredential(key: Id)

  datatype Event =
    | DeviceEnrolled(device: Id, owner: string)
    | Minted(key: Id, owner: string, mintedFor: Option<Id>, kind: KeyKind, minter: Minter)
    | ChallengeIssued(challenge: Id, device: Id, nonce: Secret)
    | RequestOpened(request: Id, challenge: Id, device: Id, nonce: Secret, token: Secret)
    | SessionApproved(request: Id, key: Id, device: Id, owner: string, approver: Id, token: Secret, envelope: Envelope)
    | EnvelopeDelivered(request: Id, envelope: Envelope, poll: nat)
    | OneTimeConsumed(key: Id, manual: nat)

  type Log = seq<Event>

  /** A poll under way: the row it has read, or its answer. */
  datatype PollStage =
    | RowRead(row: SessionRequest)
    | BanChecked(row: SessionRequest)
    | Answered(answer: Result<PollAnswer, AppError>)

  datatype PollCall = PollCall(request: Id, stage: PollStage)

  /** An `X-Api-Key` authentication under way. */
  datatype ManualStage =
    | KeyFound(row: ApiKey)
    | KeyUnbanned(row: ApiKey)
    | Concluded(accepted: bool)

  datatype ManualCall = ManualCall(key: Id, stage: ManualStage)

  /** The tables, what requests under way have read so far, and the log. A claim may be used at any
      later time, as a slow request would; so may an approval that was read, once for each reading. */
  datatype World = World(db: Db, claims: set<Claims>, chosen: multiset<(Id, Id)>,
                         polls: map<nat, PollCall>, manuals: map<nat, ManualCall>, log: Log)

  /** Credentials: minting, revoking and deleting. */
  datatype KeyAction =
    | Login(owner: string, email: string, secs: nat)
    | Authenticate(key: Id, secret: Secret)
    | Mint(caller: Claims, name: string, kind: KeyKind, expiresAt: Option<int>)
    | RevokeOwned(owner: string, named: Option<string>)
    | RevokeOne(owner: string, key: Id)
    | DeleteOne(owner: string, key: Id)
    | DeleteRevoked(owner: string)

  /** The approval of keys that need it. */
  datatype ApprovalAction =
    | AskApproval(key: Id, supersede: bool)
    | ReadApproval(owner: string, approval: Id, confirm: Secret)
    | Grant(approval: Id, key: Id)
    | Decline(owner: string, approval: Id)

  /** The session-request protocol; a poll is three statements. */
  datatype ProtocolAction =
    | IssueChallenge(device: Id)
    | OpenRequest(challenge: Id, nonce: Secret)
    | ApproveRequest(caller: Claims, only: Option<Id>, request: Id, token: Secret, hours: int)
    | RejectRequest(request: Id)
    | PollRead(poll: nat, request: Id, secret: Secret)
    | PollCheck(poll: nat)
    | PollClaim(poll: nat)

  /** The three statements of an `X-Api-Key` authentication. */
  datatype ManualAction =
    | ManualLookup(manual: nat, key: Id, secret: Secret)
    | ManualCheck(manual: nat)
    | ManualConsume(manual: nat)

  datatype DeviceAction =
    | Enrol(owner: string, name: string, publicKey: string, keyType: string)
    | ProposeDevice(name: string, publicKey: string, keyType: string)
    | LinkDevice(owner: string, proposal: Id, token: Secret, device: Id)
    | DismissDevice(proposal: Id)
    | DeleteDevice(owner: string, device: Id)
    | SavePolicy(owner: string, device: Id, policy: Normalised)

  /** The statements that write bans and entries, and whatever else may happen to them; the background cleanup,
      and time passing. */
  datatype TableAction =
    | LiftOne(owner: string, device: Id)
    | Violate(device: Id, owner: string, base: nat, name: string)
    | WriteEntries(statement: EntryStatement)
    | ChangeBans(bans: BanTable)
    | ChangeEntries(kv: map<EntryKey, KvEntry>, bodies: map<EntryKey, string>, recipients: map<Id, Recipient>, ids: nat)
    | AllowNames(key: Id, names: set<string>)
    | TouchDevice(device: Id)
    | CleanApprovals
    | CleanRequests
    | CleanChallenges
    | CleanProposals
    | Tick(secs: nat)

  datatype Action =
    | OnKeys(onKeys: KeyAction)
    | OnApprovals(onApprovals: ApprovalAction)
    | OnProtocol(onProtocol: ProtocolAction)
    | OnManual(onManual: ManualAction)
    | OnDevices(onDevices: DeviceAction)
    | OnTables(onTables: TableAction)

  function Logging(w: World, db: Db, e: Event): World { w.(db := db, log := w.log + [e]) }

  function MintStep(w: World, name: string, kind: KeyKind, expiresAt: Option<int>, owner: string,
                    device: Option<Id>, minter: Minter): World
  {
    match MintKey(w.db, name, kind, expiresAt, owner, device)
    case None => w
    case Some(db) => Logging(w, db, Minted(w.db.nextId, owner, device, kind, minter))
  }

  function EnrolStep(w: World, owner: string, name: string, publicKey: string, keyType: string): World {
    match EnrolDevice(w.db, owner, name, publicKey, keyType)
    case None => w
    case Some(db) => Logging(w, db, DeviceEnrolled(w.db.nextId, owner))
  }

  function LoginStep(w: World, owner: string, email: string, secs: nat): World {
    MintStep(w, email, Session, Some(w.db.now + secs), owner, None, ByLogin)
  }

  function AuthenticateStep(w: World, k: Id, secret: Secret): World {
    match AdminAuth(w.db, k, secret)
    case Err(_) => w
    case Ok(c) => w.(claims := w.claims + {c})
  }

  function CallerMintStep(w: World, c: Claims, name: string, kind: KeyKind, expiresAt: Option<int>): World {
    if c !in w.claims then w else MintStep(w, name, kind, expiresAt, c.owner, c.device, ByCredential(c.keyId))
  }

  function AskStep(w: World, k: Id, supersede: bool): World {
    match RequestApproval(w.db, k, supersede)
    case None => w
    case Some(db) => w.(db := db)
  }

  function ReadApprovalStep(w: World, owner: string, a: Id, confirm: Secret): World {
    match ChooseApproval(w.db, owner, a, confirm)
    case Err(_) => w
    case Ok(k) => w.(chosen := w.chosen + multiset{(a, k)})
  }

  function GrantStep(w: World, a: Id, k: Id): World {
    if (a, k) !in w.chosen then w
    else w.(db := GrantApproval(w.db, a, k), chosen := w.chosen - multiset{(a, k)})
  }

  function PolicyStep(w: World, owner: string, device: Id, n: Normalised): World {
    if device !in w.db.devices then w
    else w.(db := w.db.(policies := SavedPolicies(w.db.policies, owner, device, n),
                        policyKeys := SavedKeys(w.db.policyKeys, device, n)))
  }

  function BansStep(w: World, bans: BanTable): World {
    if bans.Keys <= w.db.devices.Keys then w.(db := w.db.(bans := bans)) else w
  }

  function EntriesStep(w: World, kv: map<EntryKey, KvEntry>, bodies: map<EntryKey, string>,
                       recipients: map<Id, Recipient>, ids: nat): World
  {
    if !RecipientsReferTo(recipients, w.db.devices) || !(forall r | r in recipients :: r < w.db.nextId + ids) then w
    else w.(db := w.db.(kv := kv, bodies := bodies, recipients := recipients, nextId := w.db.nextId + ids))
  }

  function WriteStep(w: World, e: EntryStatement): World {
    var after := WriteResult(w.db, e);
    EntriesStep(w, after.kv, after.bodies, after.recipients, after.nextId - w.db.nextId)
  }

  function AllowStep(w: World, k: Id, names: set<string>): World {
    if k !in w.db.apiKeys then w else w.(db := Allow(w.db, k, names))
  }

  function IssueStep(w: World, device: Id): World {
    var (answer, db) := CreateChallenge(w.db, device);
    if answer.Err? then w else Logging(w, db, ChallengeIssued(w.db.nextId, device, w.db.nextId + 1))
  }

  function OpenStep(w: World, challenge: Id, nonce: Secret): World {
    var (answer, db) := CreateRequest(w.db, challenge, nonce);
    if answer.Err? then w
    else Logging(w, db, RequestOpened(answer.value.request, challenge, w.db.challenges[challenge].device, nonce,
                                      answer.value.approveToken))
  }

  function ApproveStep(w: World, caller: Claims, only: Option<Id>, r: Id, token: Secret, hours: int): World {
    if caller !in w.claims then w
    else
      var (answer, db) := Approve(w.db, caller.owner, only, r, token, hours);
      if answer.Err? then w
      else Logging(w, db, SessionApproved(r, answer.value, w.db.requests[r].device.value, caller.owner, caller.keyId,
                                          token, EnvelopeOf(db.requests[r].wrap).value))
  }

  function SetPoll(w: World, p: nat, request: Id, stage: PollStage): World {
    w.(polls := w.polls[p := PollCall(request, stage)])
  }

  function PollReadStep(w: World, p: nat, r: Id, secret: Secret): World {
    if p in w.polls then w
    else
      match ReadForPoll(w.db, r, secret)
      case Err(e) => SetPoll(w, p, r, Answered(Err(e)))
      case Ok(row) => SetPoll(w, p, r, RowRead(row))
  }

  function PollCheckStep(w: World, p: nat): World {
    if p !in w.polls || !w.polls[p].stage.RowRead? then w
    else
      var (r, row) := (w.polls[p].request, w.polls[p].stage.row);
      match CheckForPoll(w.db, row)
      case Err(e) => SetPoll(w, p, r, Answered(Err(e)))
      case Ok(_) =>
        if row.status == Approved then SetPoll(w, p, r, BanChecked(row))
        else SetPoll(w, p, r, Answered(AnswerPoll(row, false)))
  }

  function PollClaimStep(w: World, p: nat): World {
    if p !in w.polls || !w.polls[p].stage.BanChecked? then w
    else
      var (r, row) := (w.polls[p].request, w.polls[p].stage.row);
      var claimed := Claimable(w.db, r);
      var answer := AnswerPoll(row, claimed);
      var w' := SetPoll(w, p, r, Answered(answer)).(db := MarkDelivered(w.db, r));
      if answer.Ok? && answer.value.envelope.Some?
      then w'.(log := w.log + [EnvelopeDelivered(r, answer.value.envelope.value, p)]) else w'
  }

  function SetManual(w: World, m: nat, key: Id, stage: ManualStage): World {
    w.(manuals := w.manuals[m := ManualCall(key, stage)])
  }

  function ManualLookupStep(w: World, m: nat, k: Id, secret: Secret): World {
    if m in w.manuals then w
    else
      match LookupManual(w.db, k, secret)
      case Err(_) => SetManual(w, m, k, Concluded(false))
      case Ok(row) => SetManual(w, m, k, KeyFound(row))
  }

  function ManualCheckStep(w: World, m: nat): World {
    if m !in w.manuals || !w.manuals[m].stage.KeyFound? then w
    else
      var row := w.manuals[m].stage.row;
      var banned := row.device.Some? && Banned(w.db.bans, row.device.value, w.db.now);
      SetManual(w, m, w.manuals[m].key, if banned then Concluded(false) else KeyUnbanned(row))
  }

  function ManualConsumeStep(w: World, m: nat): World {
    if m !in w.manuals || !w.manuals[m].stage.KeyUnbanned? then w
    else
      var (k, row) := (w.manuals[m].key, w.manuals[m].stage.row);
      if row.kind != OneTime then SetManual(w, m, k, Concluded(true))
      else if !Consumable(w.db, k) then SetManual(w, m, k, Concluded(false))
      else Logging(SetManual(w, m, k, Concluded(true)), ConsumeKey(w.db, k), OneTimeConsumed(k, m))
  }

  function KeyStep(w: World, a: KeyAction): World {
    match a
    case Login(owner, email, secs) => LoginStep(w, owner, email, secs)
    case Authenticate(k, secret) => AuthenticateStep(w, k, secret)
    case Mint(c, name, kind, expiresAt) => CallerMintStep(w, c, name, kind, expiresAt)
    case RevokeOwned(owner, name) => w.(db := RevokeSessions(w.db, owner, name))
    case RevokeOne(owner, k) => w.(db := RevokeKey(w.db, owner, k))
    case DeleteOne(owner, k) => w.(db := DeleteKey(w.db, owner, k))
    case DeleteRevoked(owner) => w.(db := DeleteApiKeys(w.db, RevokedSessions(w.db, owner)))
  }

  function ApprovalStep(w: World, a: ApprovalAction): World {
    match a
    case AskApproval(k, supersede) => AskStep(w, k, supersede)
    case ReadApproval(owner, a, confirm) => ReadApprovalStep(w, owner, a, confirm)
    case Grant(a, k) => GrantStep(w, a, k)
    case Decline(owner, a) => w.(db := DeclineApproval(w.db, owner, a))
  }

  function ProtocolStep(w: World, a: ProtocolAction): World {
    match a
    case IssueChallenge(device) => IssueStep(w, device)
    case OpenRequest(challenge, nonce) => OpenStep(w, challenge, nonce)
    case ApproveRequest(c, only, r, token, hours) => ApproveStep(w, c, only, r, token, hours)
    case RejectRequest(r) => w.(db := MarkRejected(w.db, r))
    case PollRead(p, r, secret) => PollReadStep(w, p, r, secret)
    case PollCheck(p) => PollCheckStep(w, p)
    case PollClaim(p) => PollClaimStep(w, p)
  }

  function ManualActionStep(w: World, a: ManualAction): World {
    match a
    case ManualLookup(m, k, secret) => ManualLookupStep(w, m, k, secret)
    case ManualCheck(m) => ManualCheckStep(w, m)
    case ManualConsume(m) => ManualConsumeStep(w, m)
  }

  function DeviceStep(w: World, a: DeviceAction): World {
    match a
    case Enrol(owner, name, publicKey, keyType) => EnrolStep(w, owner, name, publicKey, keyType)
    case ProposeDevice(name, publicKey, keyType) => w.(db := Propose(w.db, name, publicKey, keyType))
    case LinkDevice(owner, p, token, device) => w.(db := LinkProposal(w.db, owner, p, token, device).1)
    case DismissDevice(p) => w.(db := DismissProposal(w.db, p))
    case DeleteDevice(owner, device) => w.(db := AfterDelete(w.db, owner, device).1)
    case SavePolicy(owner, device, n) => PolicyStep(w, owner, device, n)
  }

  function TableStep(w: World, a: TableAction): World {
    match a
    case LiftOne(owner, device) => BansStep(w, LiftBan(w.db.bans, OwnersOf(w.db.devices), owner, device, w.db.now))
    case Violate(device, owner, base, name) =>
      BansStep(w, AfterViolation(w.db.bans, device, owner, base, w.db.now, name))
    case WriteEntries(e) => WriteStep(w, e)
    case ChangeBans(bans) => BansStep(w, bans)
    case ChangeEntries(kv, bodies, recipients, ids) => EntriesStep(w, kv, bodies, recipients, ids)
    case AllowNames(k, names) => AllowStep(w, k, names)
    case TouchDevice(device) => w.(db := Touch(w.db, device))
    case CleanApprovals => w.(db := LapseOld(w.db))
    case CleanRequests => w.(db := ExpireRequests(w.db))
    case CleanChallenges => w.(db := DropChallenges(w.db))
    case CleanProposals => w.(db := TimeOutProposals(w.db))
    case Tick(secs) => w.(db := w.db.(now := w.db.now + secs))
  }

  function Step(w: World, a: Action): World {
    match a
    case OnKeys(x) => KeyStep(w, x)
    case OnApprovals(x) => ApprovalStep(w, x)
    case OnProtocol(x) => ProtocolStep(w, x)
    case OnManual(x) => ManualActionStep(w, x)
    case OnDevices(x) => DeviceStep(w, x)
    case OnTables(x) => TableStep(w, x)
  }

  function Start(now: int): World { World(EmptyDb(now), {}, multiset{}, map[], map[], []) }

  function Exec(now: int, actions: seq<Action>): World {
    if actions == [] then Start(now)
    else Step(Exec(now, actions[..|actions| - 1]), actions[|actions| - 1])
  }

  // ---------------------------------------------------------------- what each log entry must rest on

  predicate Enrols(e: Event, d: Id) { e.DeviceEnrolled? && e.device == d }
  predicate MintsKey(e: Event, k: Id) { (e.Minted? && e.key == k) || (e.SessionApproved? && e.key == k) }
  predicate Issues(e: Event, c: Id) { e.ChallengeIssued? && e.challenge == c }
  predicate Spends(e: Event, c: Id) { e.RequestOpened? && e.challenge == c }
  predicate Opens(e: Event, r: Id) { e.RequestOpened? && e.request == r }
  predicate Approves(e: Event, r: Id) { e.SessionApproved? && e.request == r }
  predicate Delivers(e: Event, r: Id) { e.EnvelopeDelivered? && e.request == r }
  predicate Consumes(e: Event, k: Id) { e.OneTimeConsumed? && e.key == k }

  /** The event put a credential with this owner and attribution into the world. */
  predicate CreatesCredential(e: Event, k: Id, owner: string, device: Option<Id>) {
    || (e.Minted? && e.key == k && e.owner == owner && e.mintedFor == device)
    || (e.SessionApproved? && e.key == k && e.owner == owner && Some(e.device) == device)
  }

  predicate Originated(past: Log, k: Id, owner: string, device: Option<Id>) {
    exists e | e in past :: CreatesCredential(e, k, owner, device)
  }

  /** What must have happened, and what must not have happened, before an event. */
  predicate Justified(past: Log, e: Event) {
    match e
    case DeviceEnrolled(d, _) => forall x | x in past :: !Enrols(x, d)
    case Minted(k, owner, device, kind, minter) =>
      && (forall x | x in past :: !MintsKey(x, k))
      && (match minter
          case ByLogin => device.None? && kind == Session
          case ByCredential(k0) => Originated(past, k0, owner, device))
      && (device.Some? ==> DeviceEnrolled(device.value, owner) in past)
    case ChallengeIssued(c, d, _) =>
      && (forall x | x in past :: !Issues(x, c))
      && (exists x | x in past :: Enrols(x, d))
    case RequestOpened(r, c, d, nonce, _) =>
      && (forall x | x in past :: !Opens(x, r) && !Spends(x, c))
      && ChallengeIssued(c, d, nonce) in past
    case SessionApproved(r, k, d, owner, approver, token, envelope) =>
      && (forall x | x in past :: !Approves(x, r) && !MintsKey(x, k))
      && (exists x | x in past :: x.RequestOpened? && x.request == r && x.device == d && x.token == token)
      && DeviceEnrolled(d, owner) in past
      && (exists x | x in past :: MintsKey(x, approver) && x.owner == owner)
      && envelope.aad.aad == r
    case EnvelopeDelivered(r, envelope, _) =>
      && (forall x | x in past :: !Delivers(x, r))
      && (exists x | x in past :: Approves(x, r) && x.envelope == envelope)
    case OneTimeConsumed(k, _) =>
      && (forall x | x in past :: !Consumes(x, k))
      && (exists x | x in past :: x.Minted? && x.key == k && x.kind == OneTime)
  }

  ghost predicate AuditSound(log: Log) {
    forall i | 0 <= i < |log| :: Justified(log[..i], log[i])
  }

  lemma AppendKeepsSound(log: Log, e: Event)
    requires AuditSound(log) && Justified(log, e)
    ensures AuditSound(log + [e])
  {
    var longer := log + [e];
    forall i | 0 <= i < |longer| ensures Justified(longer[..i], longer[i]) {
      if i < |log| { assert longer[..i] == log[..i]; } else { assert longer[..i] == log; }
    }
  }
}
