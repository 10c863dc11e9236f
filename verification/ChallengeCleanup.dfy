/** The deletion of expired challenges cannot be noticed: a run with a cleanup inserted anywhere
    issues, opens, approves, delivers and consumes exactly what the run without it does. */
module ChallengeCleanup {
  import opened Basics
  import opened Policy
  import opened Bans
  import opened Tables
  import opened DeviceDeletion
  import opened Sessions
  import opened Credentials
  import opened Entries
  import opened Integrity
  import opened Audit
  import opened AuditInvariant
  import opened Runs

  /** The challenges that can still be answered. */
  function Live(challenges: map<Id, Challenge>, now: int): map<Id, Challenge> {
    map c | c in challenges && challenges[c].expiresAt > now :: challenges[c]
  }

  function WithChallenges(w: World, challenges: map<Id, Challenge>): World {
    w.(db := w.db.(challenges := challenges))
  }

  /** Worlds that differ at most in challenges that have expired. */
  ghost predicate Alike(w: World, v: World) {
    v == WithChallenges(w, v.db.challenges) && Live(v.db.challenges, v.db.now) == Live(w.db.challenges, w.db.now)
  }

  /** A step that neither looks at challenges nor changes them or the clock. */
  lemma BlindStepAlike(w: World, v: World, w': World, v': World)
    requires Alike(w, v) && v' == WithChallenges(w', v.db.challenges)
    requires w'.db.challenges == w.db.challenges && w'.db.now == w.db.now
    ensures Alike(w', v')
  {
  }

  lemma MintIsBlind(w: World, challenges: map<Id, Challenge>, name: string, kind: KeyKind, expiresAt: Option<int>,
                    owner: string, device: Option<Id>, minter: Minter)
    ensures MintStep(WithChallenges(w, challenges), name, kind, expiresAt, owner, device, minter)
         == WithChallenges(MintStep(w, name, kind, expiresAt, owner, device, minter), challenges)
    ensures MintStep(w, name, kind, expiresAt, owner, device, minter).db.challenges == w.db.challenges
    ensures MintStep(w, name, kind, expiresAt, owner, device, minter).db.now == w.db.now
  {
  }

  lemma AuthenticateIsBlind(w: World, challenges: map<Id, Challenge>, k: Id, secret: Secret)
    ensures AuthenticateStep(WithChallenges(w, challenges), k, secret)
         == WithChallenges(AuthenticateStep(w, k, secret), challenges)
    ensures AuthenticateStep(w, k, secret).db == w.db
  {
    hide Unexpired, Banned;
  }

  lemma RevokeSessionsUnaware(db: Db, challenges: map<Id, Challenge>, owner: string, name: Option<string>)
    ensures Unaware(db, challenges, RevokeSessions(db, owner, name),
                    RevokeSessions(db.(challenges := challenges), owner, name))
  {
    assert RevokeSessions(db.(challenges := challenges), owner, name).apiKeys == RevokeSessions(db, owner, name).apiKeys;
  }

  lemma RevokeUnaware(db: Db, challenges: map<Id, Challenge>, owner: string, k: Id)
    ensures Unaware(db, challenges, RevokeKey(db, owner, k),
                    RevokeKey(db.(challenges := challenges), owner, k))
  {
  }

  lemma DeleteKeysUnaware(db: Db, challenges: map<Id, Challenge>, doomed: set<Id>)
    ensures Unaware(db, challenges, DeleteApiKeys(db, doomed),
                    DeleteApiKeys(db.(challenges := challenges), doomed))
  {
    var (p, q) := (DeleteApiKeys(db, doomed), DeleteApiKeys(db.(challenges := challenges), doomed));
    assert q.allowedKeys == p.allowedKeys;
    assert q.approvals == p.approvals;
    assert q.authRequests == p.authRequests;
    assert q.requests == p.requests;
  }

  lemma DeleteUnaware(db: Db, challenges: map<Id, Challenge>, owner: string, k: Id)
    ensures Unaware(db, challenges, DeleteKey(db, owner, k), DeleteKey(db.(challenges := challenges), owner, k))
  {
    hide DeleteApiKeys;
    DeleteKeysUnaware(db, challenges, {k});
  }

  lemma SameRevokedSessions(db: Db, challenges: map<Id, Challenge>, owner: string)
    ensures RevokedSessions(db.(challenges := challenges), owner) == RevokedSessions(db, owner)
  {
  }

  lemma KeyStepAlike(w: World, v: World, a: KeyAction)
    requires Alike(w, v)
    ensures Alike(KeyStep(w, a), KeyStep(v, a))
  {
    hide Live, Alike, Unaware, MintStep, AuthenticateStep, RevokeSessions, RevokeKey, DeleteKey, DeleteApiKeys,
      RevokedSessions;
    var challenges := v.db.challenges;
    AlikeDiffer(w, v);
    match a
    case Login(owner, email, secs) =>
      MintIsBlind(w, challenges, email, Session, Some(w.db.now + secs), owner, None, ByLogin);
      BlindStepAlike(w, v, KeyStep(w, a), KeyStep(v, a));
    case Authenticate(k, secret) =>
      AuthenticateIsBlind(w, challenges, k, secret);
      BlindStepAlike(w, v, KeyStep(w, a), KeyStep(v, a));
    case Mint(c, name, kind, expiresAt) =>
      MintIsBlind(w, challenges, name, kind, expiresAt, c.owner, c.device, ByCredential(c.keyId));
      BlindStepAlike(w, v, KeyStep(w, a), KeyStep(v, a));
    case RevokeOwned(owner, name) =>
      RevokeSessionsUnaware(w.db, challenges, owner, name);
      UnawareAlike(w, v, KeyStep(w, a).db, KeyStep(v, a).db);
    case RevokeOne(owner, k) =>
      RevokeUnaware(w.db, challenges, owner, k);
      UnawareAlike(w, v, KeyStep(w, a).db, KeyStep(v, a).db);
    case DeleteOne(owner, k) =>
      DeleteUnaware(w.db, challenges, owner, k);
      UnawareAlike(w, v, KeyStep(w, a).db, KeyStep(v, a).db);
    case DeleteRevoked(owner) =>
      SameRevokedSessions(w.db, challenges, owner);
      DeleteKeysUnaware(w.db, challenges, RevokedSessions(w.db, owner));
      UnawareAlike(w, v, KeyStep(w, a).db, KeyStep(v, a).db);
  }

  lemma AlikeDiffer(w: World, v: World)
    requires Alike(w, v)
    ensures v == WithChallenges(w, v.db.challenges)
  {
  }

  /** The same statement on tables with other challenges has the same effect on everything else. */
  predicate Unaware(db: Db, challenges: map<Id, Challenge>, after: Db, after': Db) {
    after' == after.(challenges := challenges) && after.challenges == db.challenges && after.now == db.now
  }

  lemma UnawareAlike(w: World, v: World, after: Db, after': Db)
    requires Alike(w, v) && Unaware(w.db, v.db.challenges, after, after')
    ensures Alike(w.(db := after), v.(db := after'))
  {
    hide Live;
  }

  lemma AskIsBlind(w: World, challenges: map<Id, Challenge>, k: Id, supersede: bool)
    ensures AskStep(WithChallenges(w, challenges), k, supersede) == WithChallenges(AskStep(w, k, supersede), challenges)
    ensures AskStep(w, k, supersede).db.challenges == w.db.challenges && AskStep(w, k, supersede).db.now == w.db.now
  {
    hide LapseApprovals;
  }

  lemma ReadIsBlind(w: World, challenges: map<Id, Challenge>, owner: string, a: Id, confirm: Secret)
    ensures ReadApprovalStep(WithChallenges(w, challenges), owner, a, confirm)
         == WithChallenges(ReadApprovalStep(w, owner, a, confirm), challenges)
    ensures ReadApprovalStep(w, owner, a, confirm).db == w.db
  {
  }

  lemma ActivationIsBlind(db: Db, challenges: map<Id, Challenge>, a: Id, k: Id)
    ensures GrantApproval(db.(challenges := challenges), a, k) == GrantApproval(db, a, k).(challenges := challenges)
    ensures GrantApproval(db, a, k).challenges == db.challenges && GrantApproval(db, a, k).now == db.now
  {
  }

  lemma GrantIsBlind(w: World, challenges: map<Id, Challenge>, a: Id, k: Id)
    ensures GrantStep(WithChallenges(w, challenges), a, k) == WithChallenges(GrantStep(w, a, k), challenges)
    ensures GrantStep(w, a, k).db.challenges == w.db.challenges && GrantStep(w, a, k).db.now == w.db.now
  {
    hide GrantApproval;
    ActivationIsBlind(w.db, challenges, a, k);
  }

  lemma DeclineUnaware(db: Db, challenges: map<Id, Challenge>, owner: string, a: Id)
    ensures Unaware(db, challenges, DeclineApproval(db, owner, a),
                    DeclineApproval(db.(challenges := challenges), owner, a))
  {
  }

  lemma ApprovalStepAlike(w: World, v: World, a: ApprovalAction)
    requires Alike(w, v)
    ensures Alike(ApprovalStep(w, a), ApprovalStep(v, a))
  {
    hide Live, Alike, Unaware, AskStep, ReadApprovalStep, GrantStep, DeclineApproval;
    var challenges := v.db.challenges;
    AlikeDiffer(w, v);
    match a
    case AskApproval(k, supersede) =>
      AskIsBlind(w, challenges, k, supersede);
      BlindStepAlike(w, v, ApprovalStep(w, a), ApprovalStep(v, a));
    case ReadApproval(owner, x, confirm) =>
      ReadIsBlind(w, challenges, owner, x, confirm);
      BlindStepAlike(w, v, ApprovalStep(w, a), ApprovalStep(v, a));
    case Grant(x, k) =>
      GrantIsBlind(w, challenges, x, k);
      BlindStepAlike(w, v, ApprovalStep(w, a), ApprovalStep(v, a));
    case Decline(owner, x) =>
      DeclineUnaware(w.db, challenges, owner, x);
      UnawareAlike(w, v, ApprovalStep(w, a).db, ApprovalStep(v, a).db);
  }

  lemma SameLookup(db: Db, challenges: map<Id, Challenge>, k: Id, secret: Secret)
    ensures LookupManual(db.(challenges := challenges), k, secret) == LookupManual(db, k, secret)
  {
  }

  lemma SameConsumption(db: Db, challenges: map<Id, Challenge>, k: Id)
    ensures Consumable(db.(challenges := challenges), k) == Consumable(db, k)
    ensures ConsumeKey(db.(challenges := challenges), k) == ConsumeKey(db, k).(challenges := challenges)
    ensures ConsumeKey(db, k).challenges == db.challenges && ConsumeKey(db, k).now == db.now
  {
  }

  lemma SamePoll(db: Db, challenges: map<Id, Challenge>, r: Id, secret: Secret)
    ensures ReadForPoll(db.(challenges := challenges), r, secret) == ReadForPoll(db, r, secret)
    ensures Claimable(db.(challenges := challenges), r) == Claimable(db, r)
    ensures MarkDelivered(db.(challenges := challenges), r) == MarkDelivered(db, r).(challenges := challenges)
    ensures MarkDelivered(db, r).challenges == db.challenges && MarkDelivered(db, r).now == db.now
  {
  }

  lemma SameCheck(db: Db, challenges: map<Id, Challenge>, row: SessionRequest)
    ensures CheckForPoll(db.(challenges := challenges), row) == CheckForPoll(db, row)
  {
  }

  lemma LookupAlike(w: World, v: World, m: nat, k: Id, secret: Secret)
    requires Alike(w, v)
    ensures Alike(ManualLookupStep(w, m, k, secret), ManualLookupStep(v, m, k, secret))
  {
    hide Live, LookupManual;
    SameLookup(w.db, v.db.challenges, k, secret);
  }

  lemma ManualCheckAlike(w: World, v: World, m: nat)
    requires Alike(w, v)
    ensures Alike(ManualCheckStep(w, m), ManualCheckStep(v, m))
  {
    hide Live, Banned;
  }

  lemma ManualConsumeIsBlind(w: World, challenges: map<Id, Challenge>, m: nat)
    ensures ManualConsumeStep(WithChallenges(w, challenges), m) == WithChallenges(ManualConsumeStep(w, m), challenges)
    ensures ManualConsumeStep(w, m).db.challenges == w.db.challenges && ManualConsumeStep(w, m).db.now == w.db.now
  {
    hide Consumable, ConsumeKey;
    if m in w.manuals { SameConsumption(w.db, challenges, w.manuals[m].key); }
  }

  lemma ManualConsumeAlike(w: World, v: World, m: nat)
    requires Alike(w, v)
    ensures Alike(ManualConsumeStep(w, m), ManualConsumeStep(v, m))
  {
    hide Live, ManualConsumeStep;
    ManualConsumeIsBlind(w, v.db.challenges, m);
    BlindStepAlike(w, v, ManualConsumeStep(w, m), ManualConsumeStep(v, m));
  }

  lemma ManualStepAlike(w: World, v: World, a: ManualAction)
    requires Alike(w, v)
    ensures Alike(ManualActionStep(w, a), ManualActionStep(v, a))
  {
    hide Alike, ManualLookupStep, ManualCheckStep, ManualConsumeStep;
    match a
    case ManualLookup(m, k, secret) => LookupAlike(w, v, m, k, secret);
    case ManualCheck(m) => ManualCheckAlike(w, v, m);
    case ManualConsume(m) => ManualConsumeAlike(w, v, m);
  }

  lemma LiveLookup(p: map<Id, Challenge>, q: map<Id, Challenge>, now: int, c: Id)
    requires Live(p, now) == Live(q, now)
    ensures c in p && p[c].expiresAt > now <==> c in q && q[c].expiresAt > now
    ensures c in p && p[c].expiresAt > now ==> p[c] == q[c]
  {
    assert c in Live(p, now) <==> c in Live(q, now);
    assert c in Live(p, now) ==> Live(p, now)[c] == Live(q, now)[c];
  }

  lemma LiveUpdate(p: map<Id, Challenge>, q: map<Id, Challenge>, now: int, c: Id, row: Challenge)
    requires Live(p, now) == Live(q, now)
    ensures Live(p[c := row], now) == Live(q[c := row], now)
  {
    forall x | x in p || x in q { LiveLookup(p, q, now, x); }
  }

  lemma LiveLater(p: map<Id, Challenge>, q: map<Id, Challenge>, now: int, later: int)
    requires Live(p, now) == Live(q, now) && now <= later
    ensures Live(p, later) == Live(q, later)
  {
    forall x | x in p || x in q { LiveLookup(p, q, now, x); }
  }

  lemma IssueAlike(w: World, v: World, device: Id)
    requires Alike(w, v)
    ensures Alike(IssueStep(w, device), IssueStep(v, device))
  {
    hide Live, WrapForDevice;
    var row := Challenge(device, Digest(w.db.nextId + 1), false, w.db.now + CHALLENGE_SECS);
    LiveUpdate(v.db.challenges, w.db.challenges, w.db.now, w.db.nextId, row);
  }

  lemma OpenAlike(w: World, v: World, challenge: Id, nonce: Secret)
    requires Alike(w, v)
    ensures Alike(OpenStep(w, challenge, nonce), OpenStep(v, challenge, nonce))
  {
    LiveLookup(v.db.challenges, w.db.challenges, w.db.now, challenge);
    if ChallengeUsable(w.db, challenge) {
      LiveUpdate(v.db.challenges, w.db.challenges, w.db.now, challenge, w.db.challenges[challenge].(consumed := true));
    }
    hide Live, Banned;
  }

  lemma ApproveIsBlind(w: World, challenges: map<Id, Challenge>, c: Claims, only: Option<Id>, r: Id, token: Secret,
                       hours: int)
    ensures ApproveStep(WithChallenges(w, challenges), c, only, r, token, hours)
         == WithChallenges(ApproveStep(w, c, only, r, token, hours), challenges)
    ensures ApproveStep(w, c, only, r, token, hours).db.challenges == w.db.challenges
    ensures ApproveStep(w, c, only, r, token, hours).db.now == w.db.now
  {
    hide Banned, WrapForDevice, EnvelopeOf, ColumnsOf;
  }

  lemma ApproveAlike(w: World, v: World, c: Claims, only: Option<Id>, r: Id, token: Secret, hours: int)
    requires Alike(w, v)
    ensures Alike(ApproveStep(w, c, only, r, token, hours), ApproveStep(v, c, only, r, token, hours))
  {
    hide Live, ApproveStep;
    ApproveIsBlind(w, v.db.challenges, c, only, r, token, hours);
    BlindStepAlike(w, v, ApproveStep(w, c, only, r, token, hours), ApproveStep(v, c, only, r, token, hours));
  }

  lemma PollReadAlike(w: World, v: World, p: nat, r: Id, secret: Secret)
    requires Alike(w, v)
    ensures Alike(PollReadStep(w, p, r, secret), PollReadStep(v, p, r, secret))
  {
    hide Live, ReadForPoll;
    SamePoll(w.db, v.db.challenges, r, secret);
  }

  lemma PollCheckIsBlind(w: World, challenges: map<Id, Challenge>, p: nat)
    ensures PollCheckStep(WithChallenges(w, challenges), p) == WithChallenges(PollCheckStep(w, p), challenges)
    ensures PollCheckStep(w, p).db == w.db
  {
    hide CheckForPoll, AnswerPoll;
    if p in w.polls && w.polls[p].stage.RowRead? { SameCheck(w.db, challenges, w.polls[p].stage.row); }
  }

  lemma PollCheckAlike(w: World, v: World, p: nat)
    requires Alike(w, v)
    ensures Alike(PollCheckStep(w, p), PollCheckStep(v, p))
  {
    hide Live, PollCheckStep;
    PollCheckIsBlind(w, v.db.challenges, p);
    BlindStepAlike(w, v, PollCheckStep(w, p), PollCheckStep(v, p));
  }

  lemma NoClaim(w: World, p: nat)
    requires p !in w.polls || !w.polls[p].stage.BanChecked?
    ensures PollClaimStep(w, p) == w
  {
  }

  lemma PollClaimIsBlind(w: World, challenges: map<Id, Challenge>, p: nat)
    ensures PollClaimStep(WithChallenges(w, challenges), p) == WithChallenges(PollClaimStep(w, p), challenges)
    ensures PollClaimStep(w, p).db.challenges == w.db.challenges && PollClaimStep(w, p).db.now == w.db.now
  {
    hide PollClaimStep;
    if p in w.polls && w.polls[p].stage.BanChecked? {
      ClaimIsBlind(w, challenges, p);
    } else {
      NoClaim(w, p);
      NoClaim(WithChallenges(w, challenges), p);
    }
  }

  lemma ClaimIsBlind(w: World, challenges: map<Id, Challenge>, p: nat)
    requires p in w.polls && w.polls[p].stage.BanChecked?
    ensures PollClaimStep(WithChallenges(w, challenges), p) == WithChallenges(PollClaimStep(w, p), challenges)
    ensures PollClaimStep(w, p).db.challenges == w.db.challenges && PollClaimStep(w, p).db.now == w.db.now
  {
    hide AnswerPoll, Claimable, MarkDelivered;
    SamePoll(w.db, challenges, w.polls[p].request, 0);
    var (blind, plain) := (PollClaimStep(WithChallenges(w, challenges), p), PollClaimStep(w, p));
    assert blind.db == plain.db.(challenges := challenges);
    assert blind.polls == plain.polls;
    assert blind.log == plain.log;
  }

  lemma PollClaimAlike(w: World, v: World, p: nat)
    requires Alike(w, v)
    ensures Alike(PollClaimStep(w, p), PollClaimStep(v, p))
  {
    hide Live, PollClaimStep;
    PollClaimIsBlind(w, v.db.challenges, p);
    BlindStepAlike(w, v, PollClaimStep(w, p), PollClaimStep(v, p));
  }

  lemma RejectAlike(w: World, v: World, r: Id)
    requires Alike(w, v)
    ensures Alike(w.(db := MarkRejected(w.db, r)), v.(db := MarkRejected(v.db, r)))
  {
    hide Live;
  }

  lemma ProtocolStepAlike(w: World, v: World, a: ProtocolAction)
    requires Alike(w, v)
    ensures Alike(ProtocolStep(w, a), ProtocolStep(v, a))
  {
    hide Alike, IssueStep, OpenStep, ApproveStep, PollReadStep, PollCheckStep, PollClaimStep, MarkRejected;
    match a
    case IssueChallenge(device) => IssueAlike(w, v, device);
    case OpenRequest(challenge, nonce) => OpenAlike(w, v, challenge, nonce);
    case ApproveRequest(c, only, r, token, hours) => ApproveAlike(w, v, c, only, r, token, hours);
    case RejectRequest(r) => RejectAlike(w, v, r);
    case PollRead(p, r, secret) => PollReadAlike(w, v, p, r, secret);
    case PollCheck(p) => PollCheckAlike(w, v, p);
    case PollClaim(p) => PollClaimAlike(w, v, p);
  }

  lemma DeletionAlike(w: World, v: World, owner: string, device: Id)
    requires Alike(w, v) && Intact(w.db) && Intact(v.db)
    ensures Alike(w.(db := AfterDelete(w.db, owner, device).1), v.(db := AfterDelete(v.db, owner, device).1))
  {
    hide Live, Intact;
    if device in w.db.devices && w.db.devices[device].owner == owner {
      DeletedIsPurged(w.db, owner, device);
      DeletedIsPurged(v.db, owner, device);
      PurgedAlike(w, v, device);
    }
  }

  lemma PurgedAlike(w: World, v: World, device: Id)
    requires Alike(w, v)
    ensures Alike(w.(db := Purged(w.db, device)), v.(db := Purged(v.db, device)))
  {
    forall x | x in w.db.challenges || x in v.db.challenges {
      LiveLookup(v.db.challenges, w.db.challenges, w.db.now, x);
    }
    assert Live(ChallengesOfOthers(v.db, device), w.db.now) == Live(ChallengesOfOthers(w.db, device), w.db.now);
    hide Live, KeysOfDevice, ChallengesOfOthers;
  }

  lemma EnrolIsBlind(w: World, challenges: map<Id, Challenge>, owner: string, name: string, publicKey: string,
                     keyType: string)
    ensures EnrolStep(WithChallenges(w, challenges), owner, name, publicKey, keyType)
         == WithChallenges(EnrolStep(w, owner, name, publicKey, keyType), challenges)
    ensures EnrolStep(w, owner, name, publicKey, keyType).db.challenges == w.db.challenges
    ensures EnrolStep(w, owner, name, publicKey, keyType).db.now == w.db.now
  {
  }

  lemma LinkUnaware(db: Db, challenges: map<Id, Challenge>, owner: string, p: Id, token: Secret, device: Id)
    ensures Unaware(db, challenges, LinkProposal(db, owner, p, token, device).1,
                    LinkProposal(db.(challenges := challenges), owner, p, token, device).1)
  {
    hide Unaware;
    SameLinkAnswer(db, challenges, owner, p, token, device);
    UnawareOfItself(db, challenges);
    if LinkProposal(db, owner, p, token, device).0.Ok? {
      LinkedUnaware(db, challenges, db.proposals[p := db.proposals[p].(status := Confirmed, result := Some(device),
                                                                       confirmedBy := Some(owner))]);
    }
  }

  lemma SameLinkAnswer(db: Db, challenges: map<Id, Challenge>, owner: string, p: Id, token: Secret, device: Id)
    ensures LinkProposal(db.(challenges := challenges), owner, p, token, device).0
         == LinkProposal(db, owner, p, token, device).0
  {
  }

  lemma UnawareOfItself(db: Db, challenges: map<Id, Challenge>)
    ensures Unaware(db, challenges, db, db.(challenges := challenges))
  {
  }

  lemma LinkedUnaware(db: Db, challenges: map<Id, Challenge>, proposals: map<Id, Proposal>)
    ensures Unaware(db, challenges, db.(proposals := proposals),
                    db.(challenges := challenges).(proposals := proposals))
  {
  }

  lemma ProposeUnaware(db: Db, challenges: map<Id, Challenge>, name: string, publicKey: string, keyType: string)
    ensures Unaware(db, challenges, Propose(db, name, publicKey, keyType),
                    Propose(db.(challenges := challenges), name, publicKey, keyType))
  {
  }

  lemma DismissUnaware(db: Db, challenges: map<Id, Challenge>, p: Id)
    ensures Unaware(db, challenges, DismissProposal(db, p),
                    DismissProposal(db.(challenges := challenges), p))
  {
  }

  lemma PolicyIsBlind(w: World, challenges: map<Id, Challenge>, owner: string, device: Id, n: Normalised)
    ensures PolicyStep(WithChallenges(w, challenges), owner, device, n)
         == WithChallenges(PolicyStep(w, owner, device, n), challenges)
    ensures PolicyStep(w, owner, device, n).db.challenges == w.db.challenges
    ensures PolicyStep(w, owner, device, n).db.now == w.db.now
  {
    hide SavedPolicies, SavedKeys;
  }

  lemma DeviceStepAlike(w: World, v: World, a: DeviceAction)
    requires Alike(w, v) && Intact(w.db) && Intact(v.db)
    ensures Alike(DeviceStep(w, a), DeviceStep(v, a))
  {
    hide Alike, Live, Unaware, Intact, AfterDelete, EnrolStep, Propose, LinkProposal, DismissProposal, PolicyStep;
    var challenges := v.db.challenges;
    AlikeDiffer(w, v);
    match a
    case DeleteDevice(owner, device) => DeletionAlike(w, v, owner, device);
    case Enrol(owner, name, publicKey, keyType) =>
      EnrolIsBlind(w, challenges, owner, name, publicKey, keyType);
      BlindStepAlike(w, v, DeviceStep(w, a), DeviceStep(v, a));
    case ProposeDevice(name, publicKey, keyType) =>
      ProposeUnaware(w.db, challenges, name, publicKey, keyType);
      UnawareAlike(w, v, DeviceStep(w, a).db, DeviceStep(v, a).db);
    case LinkDevice(owner, p, token, device) =>
      LinkUnaware(w.db, challenges, owner, p, token, device);
      UnawareAlike(w, v, DeviceStep(w, a).db, DeviceStep(v, a).db);
    case DismissDevice(p) =>
      DismissUnaware(w.db, challenges, p);
      UnawareAlike(w, v, DeviceStep(w, a).db, DeviceStep(v, a).db);
    case SavePolicy(owner, device, n) =>
      PolicyIsBlind(w, challenges, owner, device, n);
      BlindStepAlike(w, v, DeviceStep(w, a), DeviceStep(v, a));
  }

  lemma EntriesIsBlind(w: World, challenges: map<Id, Challenge>, kv: map<EntryKey, KvEntry>,
                       bodies: map<EntryKey, string>, recipients: map<Id, Recipient>, ids: nat)
    ensures EntriesStep(WithChallenges(w, challenges), kv, bodies, recipients, ids)
         == WithChallenges(EntriesStep(w, kv, bodies, recipients, ids), challenges)
    ensures EntriesStep(w, kv, bodies, recipients, ids).db.challenges == w.db.challenges
    ensures EntriesStep(w, kv, bodies, recipients, ids).db.now == w.db.now
  {
    hide RecipientsReferTo;
  }

  lemma AllowUnaware(db: Db, challenges: map<Id, Challenge>, k: Id, names: set<string>)
    ensures Unaware(db, challenges, Allow(db, k, names),
                    Allow(db.(challenges := challenges), k, names))
  {
  }

  lemma TouchUnaware(db: Db, challenges: map<Id, Challenge>, device: Id)
    ensures Unaware(db, challenges, Touch(db, device),
                    Touch(db.(challenges := challenges), device))
  {
  }

  lemma LapseUnaware(db: Db, challenges: map<Id, Challenge>)
    ensures Unaware(db, challenges, LapseOld(db),
                    LapseOld(db.(challenges := challenges)))
  {
    assert LapseOld(db.(challenges := challenges)).approvals == LapseOld(db).approvals;
  }

  lemma ExpireUnaware(db: Db, challenges: map<Id, Challenge>)
    ensures Unaware(db, challenges, ExpireRequests(db),
                    ExpireRequests(db.(challenges := challenges)))
  {
    assert ExpireRequests(db.(challenges := challenges)).requests == ExpireRequests(db).requests;
  }

  lemma TimeOutUnaware(db: Db, challenges: map<Id, Challenge>)
    ensures Unaware(db, challenges, TimeOutProposals(db),
                    TimeOutProposals(db.(challenges := challenges)))
  {
    assert TimeOutProposals(db.(challenges := challenges)).proposals == TimeOutProposals(db).proposals;
  }

  lemma BansAreBlind(w: World, challenges: map<Id, Challenge>, bans: BanTable)
    ensures BansStep(WithChallenges(w, challenges), bans) == WithChallenges(BansStep(w, bans), challenges)
    ensures BansStep(w, bans).db.challenges == w.db.challenges && BansStep(w, bans).db.now == w.db.now
  {
  }

  lemma AllowAlike(w: World, v: World, k: Id, names: set<string>)
    requires Alike(w, v)
    ensures Alike(AllowStep(w, k, names), AllowStep(v, k, names))
  {
    hide Live, Alike, Unaware, Allow;
    AlikeDiffer(w, v);
    AllowUnaware(w.db, v.db.challenges, k, names);
    UnawareAlike(w, v, Allow(w.db, k, names), Allow(v.db, k, names));
  }

  lemma PutIsBlind(db: Db, challenges: map<Id, Challenge>, owner: string, key: string, body: EntryBody)
    ensures PutEntry(db.(challenges := challenges), owner, key, body)
         == PutEntry(db, owner, key, body).(challenges := challenges)
  {
    hide ExpiresAt;
  }

  lemma ExtendIsBlind(db: Db, challenges: map<Id, Challenge>, owner: string, key: string)
    requires (key, owner) in db.kv
    ensures Slide(db.(challenges := challenges), owner, key) == Slide(db, owner, key).(challenges := challenges)
  {
    hide ExpiresAt;
  }

  lemma MarkIsBlind(db: Db, challenges: map<Id, Challenge>, owner: string, key: string)
    ensures MarkEncrypted(db.(challenges := challenges), owner, key)
         == MarkEncrypted(db, owner, key).(challenges := challenges)
  {
  }

  lemma WriteIsBlind(db: Db, challenges: map<Id, Challenge>, e: EntryStatement)
    ensures WriteResult(db.(challenges := challenges), e) == WriteResult(db, e).(challenges := challenges)
  {
    hide RecipientsValid, WithoutEntry, NewRecipients, PutEntry, Slide, MarkEncrypted;
    match e
    case Put(owner, key, body) => PutIsBlind(db, challenges, owner, key, body);
    case ImportRow(owner, key, value, options) =>
      PutIsBlind(db, challenges, owner, key, ImportBody(db, owner, key, value, options));
    case Extend(owner, key) => if (key, owner) in db.kv { ExtendIsBlind(db, challenges, owner, key); }
    case Seal(owner, key, sealed, devices) =>
      MarkIsBlind(Resealed(db, owner, key, sealed, devices), challenges, owner, key);
    case _ =>
  }

  lemma TableStepAlike(w: World, v: World, a: TableAction)
    requires Alike(w, v)
    ensures Alike(TableStep(w, a), TableStep(v, a))
  {
    hide Alike, Live, Unaware, BansStep, EntriesStep, AllowStep, Touch, LapseOld, ExpireRequests, TimeOutProposals,
      DropChallenges, LiftBan, AfterViolation, WriteResult;
    var challenges := v.db.challenges;
    AlikeDiffer(w, v);
    match a
    case LiftOne(owner, device) =>
      BansAreBlind(w, challenges, LiftBan(w.db.bans, OwnersOf(w.db.devices), owner, device, w.db.now));
      BlindStepAlike(w, v, TableStep(w, a), TableStep(v, a));
    case Violate(device, owner, base, name) =>
      BansAreBlind(w, challenges, AfterViolation(w.db.bans, device, owner, base, w.db.now, name));
      BlindStepAlike(w, v, TableStep(w, a), TableStep(v, a));
    case WriteEntries(e) =>
      var after := WriteResult(w.db, e);
      WriteIsBlind(w.db, challenges, e);
      EntriesIsBlind(w, challenges, after.kv, after.bodies, after.recipients, after.nextId - w.db.nextId);
      BlindStepAlike(w, v, TableStep(w, a), TableStep(v, a));
    case ChangeBans(bans) =>
      BansAreBlind(w, challenges, bans);
      BlindStepAlike(w, v, TableStep(w, a), TableStep(v, a));
    case ChangeEntries(kv, bodies, recipients, ids) =>
      EntriesIsBlind(w, challenges, kv, bodies, recipients, ids);
      BlindStepAlike(w, v, TableStep(w, a), TableStep(v, a));
    case AllowNames(k, names) => AllowAlike(w, v, k, names);
    case TouchDevice(device) =>
      TouchUnaware(w.db, challenges, device);
      UnawareAlike(w, v, TableStep(w, a).db, TableStep(v, a).db);
    case CleanApprovals =>
      LapseUnaware(w.db, challenges);
      UnawareAlike(w, v, TableStep(w, a).db, TableStep(v, a).db);
    case CleanRequests =>
      ExpireUnaware(w.db, challenges);
      UnawareAlike(w, v, TableStep(w, a).db, TableStep(v, a).db);
    case CleanProposals =>
      TimeOutUnaware(w.db, challenges);
      UnawareAlike(w, v, TableStep(w, a).db, TableStep(v, a).db);
    case CleanChallenges => CleanAlike(w, v);
    case Tick(secs) => TickAlike(w, v, secs);
  }

  lemma TickAlike(w: World, v: World, secs: nat)
    requires Alike(w, v)
    ensures Alike(w.(db := w.db.(now := w.db.now + secs)), v.(db := v.db.(now := v.db.now + secs)))
  {
    hide Live;
    LiveLater(v.db.challenges, w.db.challenges, w.db.now, w.db.now + secs);
  }

  lemma CleanAlike(w: World, v: World)
    requires Alike(w, v)
    ensures Alike(w.(db := DropChallenges(w.db)), v.(db := DropChallenges(v.db)))
  {
    assert DropChallenges(w.db).challenges == Live(w.db.challenges, w.db.now);
    assert DropChallenges(v.db).challenges == Live(v.db.challenges, v.db.now);
  }

  lemma StepAlike(w: World, v: World, a: Action)
    requires Alike(w, v) && Sound(w) && Sound(v)
    ensures Alike(Step(w, a), Step(v, a))
  {
    hide Alike, Intact, Traced, KeyStep, ApprovalStep, ProtocolStep, ManualActionStep, DeviceStep, TableStep;
    match a
    case OnKeys(x) => KeyStepAlike(w, v, x);
    case OnApprovals(x) => ApprovalStepAlike(w, v, x);
    case OnProtocol(x) => ProtocolStepAlike(w, v, x);
    case OnManual(x) => ManualStepAlike(w, v, x);
    case OnDevices(x) => DeviceStepAlike(w, v, x);
    case OnTables(x) => TableStepAlike(w, v, x);
  }

  lemma CleanupIsAlike(w: World)
    ensures Alike(Step(w, OnTables(CleanChallenges)), w)
  {
  }

  lemma {:induction false} CleanupIsInvisible(now: int, before: seq<Action>, after: seq<Action>)
    ensures Alike(Exec(now, before + [OnTables(CleanChallenges)] + after), Exec(now, before + after))
  {
    hide Step, Alike, Sound;
    var clean := [OnTables(CleanChallenges)];
    if after == [] {
      assert (before + clean + after)[..|before|] == before == before + after;
      CleanupIsAlike(Exec(now, before));
    } else {
      var n := |after| - 1;
      CleanupIsInvisible(now, before, after[..n]);
      assert (before + clean + after)[..|before| + n + 1] == before + clean + after[..n];
      assert (before + after)[..|before| + n] == before + after[..n];
      RunIsSound(now, before + clean + after[..n]);
      RunIsSound(now, before + after[..n]);
      StepAlike(Exec(now, before + clean + after[..n]), Exec(now, before + after[..n]), after[n]);
    }
  }

  /** Everything that was issued, opened, approved, delivered or consumed, every answer to a poll
      and every authentication is the same with and without the cleanup. */
  lemma CleanupChangesNoOutcome(now: int, before: seq<Action>, after: seq<Action>)
    ensures var with, without :=
              Exec(now, before + [OnTables(CleanChallenges)] + after), Exec(now, before + after);
            && with.log == without.log && with.claims == without.claims
            && with.polls == without.polls && with.manuals == without.manuals
            && with.db.(challenges := map[]) == without.db.(challenges := map[])
  {
    hide Exec, Live;
    CleanupIsInvisible(now, before, after);
  }
}
