/** The invariant that ties the tables and the requests under way to the audit log. */
module AuditInvariant {
  import opened Basics
  import opened Policy
  import opened Bans
  import opened Tables
  import opened DeviceDeletion
  import opened Sessions
  import opened Credentials
  import opened Integrity
  import opened Audit

  predicate EventBelow(e: Event, n: Id) {
    match e
    case DeviceEnrolled(d, _) => d < n
    case Minted(k, _, _, _, _) => k < n
    case ChallengeIssued(c, _, _) => c < n
    case RequestOpened(r, c, _, _, _) => r < n && c < n
    case SessionApproved(r, k, _, _, _, _, _) => r < n && k < n
    case EnvelopeDelivered(r, _, _) => r < n
    case OneTimeConsumed(k, _) => k < n
  }

  predicate LogBelow(log: Log, n: Id) { forall e | e in log :: EventBelow(e, n) }

  predicate DevicesLogged(devices: map<Id, Device>, log: Log) {
    forall d | d in devices :: DeviceEnrolled(d, devices[d].owner) in log
  }

  predicate OwnersLogged(devices: map<Id, Device>, log: Log) {
    forall e | e in log && e.DeviceEnrolled? && e.device in devices :: devices[e.device].owner == e.owner
  }

  /** Every logged credential with an attribution belongs to the owner who enrolled the device. */
  predicate CredentialsEnrolled(log: Log) {
    forall e | e in log ::
      && (e.Minted? && e.mintedFor.Some? ==> DeviceEnrolled(e.mintedFor.value, e.owner) in log)
      && (e.SessionApproved? ==> DeviceEnrolled(e.device, e.owner) in log)
  }

  predicate KeyLogged(log: Log, k: Id, row: ApiKey) {
    exists e | e in log ::
      CreatesCredential(e, k, row.owner, row.device) && row.kind == if e.Minted? then e.kind else Session
  }

  predicate KeysLogged(apiKeys: map<Id, ApiKey>, log: Log) {
    forall k | k in apiKeys :: KeyLogged(log, k, apiKeys[k])
  }

  predicate ClaimsLogged(claims: set<Claims>, log: Log) {
    forall c | c in claims :: Originated(log, c.keyId, c.owner, c.device)
  }

  predicate ChallengesLogged(challenges: map<Id, Challenge>, log: Log) {
    forall c | c in challenges ::
      && ChallengeIssued(c, challenges[c].device, challenges[c].nonceHash.secret) in log
      && (!challenges[c].consumed ==> forall x | x in log :: !Spends(x, c))
  }

  predicate WrapLogged(log: Log, r: Id, wrap: WrapColumns) {
    exists x | x in log :: Approves(x, r) && wrap == ColumnsOf(x.envelope)
  }

  predicate SessionKeyLogged(log: Log, r: Id, key: Id, approvedBy: Option<string>) {
    exists x | x in log :: Approves(x, r) && x.key == key && Some(x.owner) == approvedBy
  }

  predicate RequestLogged(log: Log, r: Id, row: SessionRequest) {
    && row.device.Some?
    && (row.sessionKey.Some? ==> SessionKeyLogged(log, r, row.sessionKey.value, row.approvedBy))
    && (exists x | x in log ::
          x.RequestOpened? && x.request == r && x.device == row.device.value && x.token == row.approveToken.secret)
    && (row.status != Approved && row.status != Delivered ==> forall x | x in log :: !Approves(x, r))
    && (row.status == Approved ==> WrapLogged(log, r, row.wrap) && forall x | x in log :: !Delivers(x, r))
  }

  predicate RequestsLogged(requests: map<Id, SessionRequest>, log: Log) {
    forall r | r in requests :: RequestLogged(log, r, requests[r])
  }

  predicate WasConsumed(log: Log, k: Id) { exists x | x in log :: Consumes(x, k) }

  predicate ConsumedAreUsed(apiKeys: map<Id, ApiKey>, log: Log) {
    forall k | k in apiKeys :: apiKeys[k].status == Used <==> WasConsumed(log, k)
  }

  predicate PollSound(log: Log, p: nat, call: PollCall) {
    match call.stage
    case RowRead(row) => row.status == Approved ==> WrapLogged(log, call.request, row.wrap)
    case BanChecked(row) => row.status == Approved && WrapLogged(log, call.request, row.wrap)
    case Answered(Err(e)) => e != Internal
    case Answered(Ok(answer)) =>
      answer.envelope.Some? ==> EnvelopeDelivered(call.request, answer.envelope.value, p) in log
  }

  predicate PollsSound(polls: map<nat, PollCall>, log: Log) {
    forall p | p in polls :: PollSound(log, p, polls[p])
  }

  predicate MultipleUse(log: Log, k: Id) { exists x | x in log :: MintsKey(x, k) && !(x.Minted? && x.kind == OneTime) }

  /** An accepted `X-Api-Key` either consumed its one-time key or is not a one-time key. */
  predicate ManualSound(log: Log, m: nat, call: ManualCall) {
    match call.stage
    case KeyFound(row) => KeyLogged(log, call.key, row)
    case KeyUnbanned(row) => KeyLogged(log, call.key, row)
    case Concluded(accepted) => accepted ==> OneTimeConsumed(call.key, m) in log || MultipleUse(log, call.key)
  }

  predicate ManualsSound(manuals: map<nat, ManualCall>, log: Log) {
    forall m | m in manuals :: ManualSound(log, m, manuals[m])
  }

  predicate ChosenKinds(chosen: multiset<(Id, Id)>, apiKeys: map<Id, ApiKey>, n: Id) {
    forall choice | choice in chosen ::
      choice.1 < n && (choice.1 in apiKeys ==> apiKeys[choice.1].kind.ApprovalRequired?)
  }

  /** The part that only looks at the log. */
  ghost predicate LogSound(log: Log) { AuditSound(log) && CredentialsEnrolled(log) }

  ghost predicate Traced(w: World) {
    && LogSound(w.log)
    && LogBelow(w.log, w.db.nextId)
    && DevicesLogged(w.db.devices, w.log)
    && OwnersLogged(w.db.devices, w.log)
    && KeysLogged(w.db.apiKeys, w.log)
    && ClaimsLogged(w.claims, w.log)
    && ChallengesLogged(w.db.challenges, w.log)
    && RequestsLogged(w.db.requests, w.log)
    && ConsumedAreUsed(w.db.apiKeys, w.log)
    && PollsSound(w.polls, w.log)
    && ManualsSound(w.manuals, w.log)
    && ChosenKinds(w.chosen, w.db.apiKeys, w.db.nextId)
  }

  ghost predicate Sound(w: World) { Intact(w.db) && Traced(w) }

  // ---------------------------------------------------------------- facts about a sound log

  lemma JustifiedAt(log: Log, i: nat)
    requires AuditSound(log) && i < |log|
    ensures Justified(log[..i], log[i])
  {
  }

  lemma NotApprovedBefore(log: Log, i: nat, j: nat, r: Id)
    requires AuditSound(log) && i < j < |log| && Approves(log[j], r)
    ensures !Approves(log[i], r)
  {
    JustifiedAt(log, j);
    assert log[..j][i] in log[..j];
  }

  /** A request is approved at most once. */
  lemma ApprovedOnce(log: Log, i: nat, j: nat, r: Id)
    requires AuditSound(log) && i <= j < |log| && Approves(log[i], r) && Approves(log[j], r)
    ensures i == j
  {
    if i < j { NotApprovedBefore(log, i, j, r); }
  }

  lemma ApprovalIsUnique(log: Log, x: Event, y: Event, r: Id)
    requires AuditSound(log) && x in log && y in log && Approves(x, r) && Approves(y, r)
    ensures x == y
  {
    var i :| 0 <= i < |log| && log[i] == x;
    var j :| 0 <= j < |log| && log[j] == y;
    ApprovedOnce(log, if i <= j then i else j, if i <= j then j else i, r);
  }

  lemma WrapIsUnique(log: Log, r: Id, p: WrapColumns, q: WrapColumns)
    requires AuditSound(log) && WrapLogged(log, r, p) && WrapLogged(log, r, q)
    ensures p == q && EnvelopeOf(p).Some?
  {
    hide AuditSound;
    var x :| x in log && Approves(x, r) && p == ColumnsOf(x.envelope);
    var y :| y in log && Approves(y, r) && q == ColumnsOf(y.envelope);
    ApprovalIsUnique(log, x, y, r);
  }

  /** Facts that a longer log keeps. */
  lemma LongerLog(w: World, e: Event)
    requires DevicesLogged(w.db.devices, w.log) && KeysLogged(w.db.apiKeys, w.log)
    requires ClaimsLogged(w.claims, w.log) && PollsSound(w.polls, w.log) && ManualsSound(w.manuals, w.log)
    ensures DevicesLogged(w.db.devices, w.log + [e]) && KeysLogged(w.db.apiKeys, w.log + [e])
    ensures ClaimsLogged(w.claims, w.log + [e]) && PollsSound(w.polls, w.log + [e])
    ensures ManualsSound(w.manuals, w.log + [e])
  {
    LongerLogForCalls(w.polls, w.manuals, w.log, e);
    var longer := w.log + [e];
    assert forall x | x in w.log :: x in longer;
    forall k | k in w.db.apiKeys ensures KeyLogged(longer, k, w.db.apiKeys[k]) {
      assert KeyLogged(w.log, k, w.db.apiKeys[k]);
    }
    forall c | c in w.claims ensures Originated(longer, c.keyId, c.owner, c.device) {
      assert Originated(w.log, c.keyId, c.owner, c.device);
    }
  }

  lemma LongerLogForCalls(polls: map<nat, PollCall>, manuals: map<nat, ManualCall>, log: Log, e: Event)
    requires PollsSound(polls, log) && ManualsSound(manuals, log)
    ensures PollsSound(polls, log + [e]) && ManualsSound(manuals, log + [e])
  {
    assert forall x | x in log :: x in log + [e];
    forall p | p in polls ensures PollSound(log + [e], p, polls[p]) {
      assert PollSound(log, p, polls[p]);
    }
    forall m | m in manuals ensures ManualSound(log + [e], m, manuals[m]) {
      assert ManualSound(log, m, manuals[m]);
    }
  }

  lemma LongerLogForChallenges(challenges: map<Id, Challenge>, log: Log, e: Event)
    requires ChallengesLogged(challenges, log)
    requires forall c | c in challenges && !challenges[c].consumed :: !Spends(e, c)
    ensures ChallengesLogged(challenges, log + [e])
  {
    assert forall x | x in log + [e] :: x in log || x == e;
  }

  lemma LongerLogForRequests(requests: map<Id, SessionRequest>, log: Log, e: Event)
    requires RequestsLogged(requests, log)
    requires forall r | r in requests && requests[r].status != Approved && requests[r].status != Delivered ::
               !Approves(e, r)
    requires forall r | r in requests && requests[r].status == Approved :: !Delivers(e, r)
    ensures RequestsLogged(requests, log + [e])
  {
    var longer := log + [e];
    assert forall x | x in longer :: x in log || x == e;
    assert forall x | x in log :: x in longer;
    forall r | r in requests ensures RequestLogged(longer, r, requests[r]) {
      assert RequestLogged(log, r, requests[r]);
    }
  }

  lemma LongerLogSound(log: Log, e: Event, n: Id, m: Id)
    requires LogSound(log) && Justified(log, e) && LogBelow(log, n) && n <= m && EventBelow(e, m)
    ensures LogSound(log + [e]) && LogBelow(log + [e], m)
  {
    AppendKeepsSound(log, e);
    LongerLogEnrolled(log, e);
    hide EventBelow;
    assert forall x | x in log :: EventBelow(x, n);
    forall x | x in log + [e] ensures EventBelow(x, m) {
      if x in log { BelowGrows(x, n, m); }
    }
  }

  lemma BelowGrows(e: Event, n: Id, m: Id)
    requires EventBelow(e, n) && n <= m
    ensures EventBelow(e, m)
  {
  }

  lemma LongerLogEnrolled(log: Log, e: Event)
    requires CredentialsEnrolled(log) && Justified(log, e)
    ensures CredentialsEnrolled(log + [e])
  {
    assert forall x | x in log + [e] :: x in log || x == e;
    assert forall x | x in log :: x in log + [e];
  }

  /** What every step that appends `e` may keep without looking at it again. */
  lemma LongerTrace(w: World, e: Event, m: Id)
    requires Traced(w) && Justified(w.log, e) && w.db.nextId <= m && EventBelow(e, m)
    requires !e.DeviceEnrolled? && !e.OneTimeConsumed?
    ensures LogSound(w.log + [e]) && LogBelow(w.log + [e], m)
    ensures DevicesLogged(w.db.devices, w.log + [e]) && OwnersLogged(w.db.devices, w.log + [e])
    ensures KeysLogged(w.db.apiKeys, w.log + [e]) && ConsumedAreUsed(w.db.apiKeys, w.log + [e])
    ensures ClaimsLogged(w.claims, w.log + [e]) && PollsSound(w.polls, w.log + [e])
    ensures ManualsSound(w.manuals, w.log + [e]) && ChosenKinds(w.chosen, w.db.apiKeys, m)
  {
    SameConsumptions(w.db.apiKeys, w.log, e);
    LongerLogSound(w.log, e, w.db.nextId, m);
    LongerLog(w, e);
    hide LogSound, LogBelow, DevicesLogged, KeysLogged, ClaimsLogged, PollsSound, ManualsSound, Justified,
      RequestsLogged, ChallengesLogged;
  }

  lemma SameConsumptions(apiKeys: map<Id, ApiKey>, log: Log, e: Event)
    requires ConsumedAreUsed(apiKeys, log) && !e.OneTimeConsumed?
    ensures ConsumedAreUsed(apiKeys, log + [e])
  {
    assert forall x | x in log + [e] :: x in log || x == e;
    assert forall x | x in log :: x in log + [e];
  }

  // ---------------------------------------------------------------- steps that log nothing

  /** Tables that only lost rows, or rows whose identity is unchanged. */
  lemma KeyStatusStep(w: World, apiKeys: map<Id, ApiKey>)
    requires Traced(w) && apiKeys.Keys <= w.db.apiKeys.Keys
    requires forall k | k in apiKeys :: apiKeys[k] == w.db.apiKeys[k].(status := apiKeys[k].status)
    requires forall k | k in apiKeys :: w.db.apiKeys[k].status == Used <==> apiKeys[k].status == Used
    ensures KeysLogged(apiKeys, w.log) && ConsumedAreUsed(apiKeys, w.log)
    ensures ChosenKinds(w.chosen, apiKeys, w.db.nextId)
  {
    forall k | k in apiKeys ensures KeyLogged(w.log, k, apiKeys[k]) {
      assert KeyLogged(w.log, k, w.db.apiKeys[k]);
    }
  }

  lemma RevokeSessionsTraced(w: World, owner: string, name: Option<string>)
    requires Traced(w)
    ensures Traced(w.(db := RevokeSessions(w.db, owner, name)))
  {
    KeyStatusStep(w, RevokeSessions(w.db, owner, name).apiKeys);
    hide KeysLogged, ConsumedAreUsed, ChosenKinds, RequestsLogged, ChallengesLogged, LogSound, PollsSound, ManualsSound;
  }

  lemma RevokeTraced(w: World, owner: string, k: Id)
    requires Traced(w)
    ensures Traced(w.(db := RevokeKey(w.db, owner, k)))
  {
    KeyStatusStep(w, RevokeKey(w.db, owner, k).apiKeys);
    hide KeysLogged, ConsumedAreUsed, ChosenKinds, RequestsLogged, ChallengesLogged, LogSound, PollsSound, ManualsSound;
  }

  lemma DeleteKeysTraced(w: World, doomed: set<Id>)
    requires Traced(w)
    ensures Traced(w.(db := DeleteApiKeys(w.db, doomed)))
  {
    KeyStatusStep(w, DeleteApiKeys(w.db, doomed).apiKeys);
    forall r | r in w.db.requests ensures RequestLogged(w.log, r, DeleteApiKeys(w.db, doomed).requests[r]) {
      assert RequestLogged(w.log, r, w.db.requests[r]);
    }
  }

  lemma GrantTraced(w: World, a: Id, k: Id)
    requires Traced(w) && Intact(w.db) && (a, k) in w.chosen
    ensures Traced(w.(db := GrantApproval(w.db, a, k)))
    ensures Traced(w.(db := GrantApproval(w.db, a, k), chosen := w.chosen - multiset{(a, k)}))
  {
    KeyStatusStep(w, GrantApproval(w.db, a, k).apiKeys);
  }

  lemma DeleteDeviceTraced(w: World, owner: string, device: Id)
    requires Sound(w)
    ensures Traced(w.(db := AfterDelete(w.db, owner, device).1))
  {
    if device in w.db.devices && w.db.devices[device].owner == owner {
      DeleteRemovesExactlyTheDevice(w.db, owner, device);
      PurgedTraced(w, device);
    }
  }

  lemma PurgedTraced(w: World, device: Id)
    requires Traced(w)
    ensures Traced(w.(db := Purged(w.db, device)))
  {
    KeyStatusStep(w, Purged(w.db, device).apiKeys);
  }

  lemma RequestStatusTraced(w: World, r: Id)
    requires Traced(w)
    ensures RequestsLogged(MarkRejected(w.db, r).requests, w.log)
    ensures RequestsLogged(ExpireRequests(w.db).requests, w.log)
  {
    forall q | q in w.db.requests
      ensures RequestLogged(w.log, q, MarkRejected(w.db, r).requests[q])
      ensures RequestLogged(w.log, q, ExpireRequests(w.db).requests[q])
    {
      assert RequestLogged(w.log, q, w.db.requests[q]);
    }
  }

  lemma AuthenticateTraced(w: World, k: Id, secret: Secret)
    requires Traced(w) && AdminAuth(w.db, k, secret).Ok?
    ensures Traced(w.(claims := w.claims + {AdminAuth(w.db, k, secret).value}))
  {
    assert KeyLogged(w.log, k, w.db.apiKeys[k]);
  }

  lemma ReadApprovalTraced(w: World, owner: string, a: Id, confirm: Secret)
    requires Sound(w) && ChooseApproval(w.db, owner, a, confirm).Ok?
    ensures Traced(w.(chosen := w.chosen + multiset{(a, ChooseApproval(w.db, owner, a, confirm).value)}))
  {
  }

  // ---------------------------------------------------------------- steps that log something

  lemma EnrolTraced(w: World, owner: string, name: string, publicKey: string, keyType: string)
    requires Sound(w) && EnrolDevice(w.db, owner, name, publicKey, keyType).Some?
    ensures Traced(Logging(w, EnrolDevice(w.db, owner, name, publicKey, keyType).value,
                           DeviceEnrolled(w.db.nextId, owner)))
  {
    hide Justified, LogSound, LogBelow, ClaimsLogged, PollsSound, ManualsSound, KeysLogged, RequestsLogged,
      ChallengesLogged, Intact;
    var e := DeviceEnrolled(w.db.nextId, owner);
    EnrolJustified(w, owner);
    LongerLogSound(w.log, e, w.db.nextId, w.db.nextId + 1);
    LongerLog(w, e);
    LongerLogForChallenges(w.db.challenges, w.log, e);
    LongerLogForRequests(w.db.requests, w.log, e);
    assert e in w.log + [e];
  }

  lemma EnrolJustified(w: World, owner: string)
    requires Sound(w)
    ensures Justified(w.log, DeviceEnrolled(w.db.nextId, owner))
    ensures w.db.nextId !in w.db.devices
    ensures forall x | x in w.log :: !Enrols(x, w.db.nextId)
  {
    forall x | x in w.log ensures !Enrols(x, w.db.nextId) { assert EventBelow(x, w.db.nextId); }
  }

  /** A credential insert that carries the claims it was made with. */
  lemma MintTraced(w: World, name: string, kind: KeyKind, expiresAt: Option<int>, owner: string,
                   device: Option<Id>, minter: Minter)
    requires Sound(w)
    requires match minter
             case ByLogin => device.None? && kind == Session
             case ByCredential(k0) => Originated(w.log, k0, owner, device)
    ensures Traced(MintStep(w, name, kind, expiresAt, owner, device, minter))
    ensures device.Some? && device.value in w.db.devices ==> w.db.devices[device.value].owner == owner
  {
    if device.Some? {
      var x :| x in w.log && CreatesCredential(x, minter.key, owner, device);
      assert DeviceEnrolled(device.value, owner) in w.log;
    }
    if MintKey(w.db, name, kind, expiresAt, owner, device).Some? {
      MintedTraced(w, name, kind, expiresAt, owner, device, minter);
    }
  }

  lemma MintedTraced(w: World, name: string, kind: KeyKind, expiresAt: Option<int>, owner: string,
                     device: Option<Id>, minter: Minter)
    requires Traced(w) && MintKey(w.db, name, kind, expiresAt, owner, device).Some?
    requires Justified(w.log, Minted(w.db.nextId, owner, device, kind, minter))
    ensures Traced(MintStep(w, name, kind, expiresAt, owner, device, minter))
  {
    var e := Minted(w.db.nextId, owner, device, kind, minter);
    var db := MintKey(w.db, name, kind, expiresAt, owner, device).value;
    LongerTrace(w, e, db.nextId);
    LongerLogForChallenges(w.db.challenges, w.log, e);
    LongerLogForRequests(w.db.requests, w.log, e);
    NewKeyTraced(w, e, w.db.nextId, db.apiKeys[w.db.nextId]);
    hide Justified, LogSound, LogBelow, DevicesLogged, OwnersLogged, ClaimsLogged, PollsSound, ManualsSound,
      ConsumedAreUsed, KeysLogged, RequestsLogged, ChallengesLogged, ChosenKinds;
  }

  /** The table with a new credential that the last event created. */
  lemma NewKeyTraced(w: World, e: Event, k: Id, row: ApiKey)
    requires KeysLogged(w.db.apiKeys, w.log + [e]) && ConsumedAreUsed(w.db.apiKeys, w.log + [e])
    requires LogBelow(w.log, k) && !e.OneTimeConsumed? && ChosenKinds(w.chosen, w.db.apiKeys, k)
    requires row.status != Used
    requires CreatesCredential(e, k, row.owner, row.device) && row.kind == if e.Minted? then e.kind else Session
    ensures KeysLogged(w.db.apiKeys[k := row], w.log + [e])
    ensures ConsumedAreUsed(w.db.apiKeys[k := row], w.log + [e])
    ensures ChosenKinds(w.chosen, w.db.apiKeys[k := row], k + 2)
  {
    assert e in w.log + [e];
    assert KeyLogged(w.log + [e], k, row);
    forall x | x in w.log + [e] ensures !Consumes(x, k) {
      if x in w.log { assert EventBelow(x, k); }
    }
  }

  lemma IssueTraced(w: World, device: Id)
    requires Sound(w)
    ensures Traced(IssueStep(w, device))
  {
    hide Justified, LogSound, LogBelow, DevicesLogged, OwnersLogged, ClaimsLogged, PollsSound, ManualsSound,
      ConsumedAreUsed, KeysLogged, RequestsLogged, ChallengesLogged, ChosenKinds, Intact;
    if CreateChallenge(w.db, device).0.Ok? {
      var e := ChallengeIssued(w.db.nextId, device, w.db.nextId + 1);
      var db := CreateChallenge(w.db, device).1;
      IssueJustified(w, device);
      LongerTrace(w, e, db.nextId);
      IssuedChallenge(w, e, db.challenges[w.db.nextId]);
      LongerLogForRequests(w.db.requests, w.log, e);
    }
  }

  lemma IssueJustified(w: World, device: Id)
    requires Traced(w) && device in w.db.devices
    ensures Justified(w.log, ChallengeIssued(w.db.nextId, device, w.db.nextId + 1))
  {
    assert DeviceEnrolled(device, w.db.devices[device].owner) in w.log;
    assert Enrols(DeviceEnrolled(device, w.db.devices[device].owner), device);
  }

  lemma IssuedChallenge(w: World, e: Event, row: Challenge)
    requires ChallengesLogged(w.db.challenges, w.log) && LogBelow(w.log, w.db.nextId)
    requires e == ChallengeIssued(w.db.nextId, row.device, row.nonceHash.secret)
    ensures ChallengesLogged(w.db.challenges[w.db.nextId := row], w.log + [e])
  {
    LongerLogForChallenges(w.db.challenges, w.log, e);
    assert e in w.log + [e];
    forall x | x in w.log + [e] ensures !Spends(x, w.db.nextId) {
      if x in w.log { assert EventBelow(x, w.db.nextId); }
    }
  }

  lemma OpenTraced(w: World, challenge: Id, nonce: Secret)
    requires Sound(w)
    ensures Traced(OpenStep(w, challenge, nonce))
  {
    hide Justified, LogSound, LogBelow, DevicesLogged, OwnersLogged, ClaimsLogged, PollsSound, ManualsSound,
      ConsumedAreUsed, KeysLogged, RequestsLogged, ChallengesLogged, ChosenKinds, Intact;
    var (answer, db) := CreateRequest(w.db, challenge, nonce);
    if answer.Ok? {
      var d := w.db.challenges[challenge].device;
      var e := RequestOpened(answer.value.request, challenge, d, nonce, answer.value.approveToken);
      OpenJustified(w, challenge, e);
      LongerTrace(w, e, db.nextId);
      OpenedChallenges(w, challenge, e);
      OpenedRequest(w, e, db.requests[e.request]);
    }
  }

  lemma OpenJustified(w: World, challenge: Id, e: Event)
    requires Sound(w) && ChallengeUsable(w.db, challenge)
    requires e.RequestOpened? && e.request == w.db.nextId && e.challenge == challenge
    requires e.device == w.db.challenges[challenge].device && Digest(e.nonce) == w.db.challenges[challenge].nonceHash
    ensures Justified(w.log, e) && EventBelow(e, w.db.nextId + 3)
  {
    forall x | x in w.log ensures !Opens(x, e.request) { assert EventBelow(x, w.db.nextId); }
    assert w.db.challenges[challenge].nonceHash.secret == e.nonce;
  }

  lemma OpenedRequest(w: World, e: Event, row: SessionRequest)
    requires RequestsLogged(w.db.requests, w.log) && LogBelow(w.log, w.db.nextId)
    requires e.RequestOpened? && e.request == w.db.nextId && row.status == Waiting && row.sessionKey.None?
    requires row.device == Some(e.device) && row.approveToken == Digest(e.token)
    ensures RequestsLogged(w.db.requests[e.request := row], w.log + [e])
  {
    LongerLogForRequests(w.db.requests, w.log, e);
    assert e in w.log + [e];
    forall x | x in w.log + [e] ensures !Approves(x, e.request) {
      if x in w.log { assert EventBelow(x, w.db.nextId); }
    }
    assert RequestLogged(w.log + [e], e.request, row);
  }

  lemma OpenedChallenges(w: World, challenge: Id, e: Event)
    requires ChallengesLogged(w.db.challenges, w.log) && challenge in w.db.challenges
    requires forall c | c != challenge :: !Spends(e, c)
    ensures ChallengesLogged(w.db.challenges[challenge := w.db.challenges[challenge].(consumed := true)], w.log + [e])
  {
    assert forall x | x in w.log + [e] :: x in w.log || x == e;
  }

  lemma ApproveTraced(w: World, c: Claims, only: Option<Id>, r: Id, token: Secret, hours: int)
    requires Sound(w)
    ensures Traced(ApproveStep(w, c, only, r, token, hours))
  {
    hide Justified, Traced, Intact;
    var (answer, db) := Approve(w.db, c.owner, only, r, token, hours);
    if c in w.claims && answer.Ok? {
      var d := w.db.requests[r].device.value;
      var envelope := WrapForDevice(w.db.devices[d].keyType, w.db.devices[d].publicKey, r, w.db.nextId + 1).value;
      var e := SessionApproved(r, w.db.nextId, d, c.owner, c.keyId, token, envelope);
      assert EnvelopeOf(db.requests[r].wrap) == Some(envelope);
      ApproveJustified(w, c, r, token, e);
      ApprovedTraced(w, r, e, db.apiKeys[w.db.nextId], db);
    } else {
      assert ApproveStep(w, c, only, r, token, hours) == w;
    }
  }

  lemma ApprovedTraced(w: World, r: Id, e: Event, key: ApiKey, db: Db)
    requires Sound(w) && r in w.db.requests && w.db.requests[r].status == Waiting
    requires e.SessionApproved? && e.request == r && e.key == w.db.nextId && Justified(w.log, e)
    requires key.owner == e.owner && key.device == Some(e.device) && key.kind == Session && key.status == Active
    requires db == w.db.(nextId := w.db.nextId + 2, apiKeys := w.db.apiKeys[e.key := key],
                         requests := w.db.requests[r :=
                           w.db.requests[r].(status := Approved, sessionKey := Some(e.key),
                                             approvedBy := Some(e.owner), wrap := ColumnsOf(e.envelope))])
    ensures Traced(Logging(w, db, e))
  {
    hide Justified, LogSound, LogBelow, DevicesLogged, OwnersLogged, ClaimsLogged, PollsSound, ManualsSound,
      ConsumedAreUsed, KeysLogged, RequestsLogged, ChallengesLogged, ChosenKinds, Intact;
    RequestBelow(w.db, r);
    assert EventBelow(e, db.nextId);
    LongerTrace(w, e, db.nextId);
    LongerLogForChallenges(w.db.challenges, w.log, e);
    NewKeyTraced(w, e, e.key, key);
    ApprovedRow(w, db, r, e);
    ApprovedRows(w, db, r, e);
  }

  lemma RequestBelow(db: Db, r: Id)
    requires Intact(db) && r in db.requests
    ensures r < db.nextId
  {
  }

  lemma ApprovedRows(w: World, db: Db, r: Id, e: Event)
    requires RequestsLogged(w.db.requests, w.log) && r in w.db.requests
    requires db.requests.Keys == w.db.requests.Keys && db.requests - {r} == w.db.requests - {r}
    requires e.SessionApproved? && e.request == r && RequestLogged(w.log + [e], r, db.requests[r])
    ensures RequestsLogged(db.requests, w.log + [e])
  {
    LongerLogForRequests(w.db.requests - {r}, w.log, e);
    forall q | q in db.requests ensures RequestLogged(w.log + [e], q, db.requests[q]) {
      if q != r { assert q in db.requests - {r} && (db.requests - {r})[q] == db.requests[q]; }
    }
  }

  lemma ApproveJustified(w: World, c: Claims, r: Id, token: Secret, e: Event)
    requires Sound(w) && c in w.claims && RequestOpen(w.db, r)
    requires e.SessionApproved? && e.request == r && e.key == w.db.nextId && e.envelope.aad.aad == r
    requires e.owner == c.owner && e.approver == c.keyId && e.token == token
    requires w.db.requests[r].device == Some(e.device) && Digest(token) == w.db.requests[r].approveToken
    requires e.device in w.db.devices && w.db.devices[e.device].owner == c.owner
    ensures Justified(w.log, e)
  {
    hide Intact, LogSound, PollsSound, ManualsSound, ChallengesLogged, ConsumedAreUsed;
    assert RequestLogged(w.log, r, w.db.requests[r]);
    assert Originated(w.log, c.keyId, c.owner, c.device);
    assert DeviceEnrolled(e.device, w.db.devices[e.device].owner) in w.log;
  }

  lemma ApprovedRow(w: World, db: Db, r: Id, e: Event)
    requires Sound(w) && r in w.db.requests && e.SessionApproved? && e.request == r
    requires w.db.requests[r].status == Waiting
    requires r in db.requests && db.requests[r].status == Approved
    requires db.requests[r] == w.db.requests[r].(status := Approved, sessionKey := Some(e.key),
                                                 approvedBy := Some(e.owner), wrap := ColumnsOf(e.envelope))
    ensures RequestLogged(w.log + [e], r, db.requests[r])
  {
    var longer := w.log + [e];
    assert RequestLogged(w.log, r, w.db.requests[r]);
    assert e in longer && Approves(e, r);
    assert forall x | x in w.log :: x in longer;
    forall x | x in longer ensures !Delivers(x, r) {
      if x in w.log && Delivers(x, r) { DeliveredWasApproved(w.log, x, r); }
    }
  }

  /** A delivered request was approved before. */
  lemma DeliveredWasApproved(log: Log, x: Event, r: Id)
    requires AuditSound(log) && x in log && Delivers(x, r)
    ensures exists y | y in log :: Approves(y, r)
  {
    var i :| 0 <= i < |log| && log[i] == x;
    assert Justified(log[..i], log[i]);
    var y :| y in log[..i] && Approves(y, r);
    assert y in log;
  }

  lemma PollReadTraced(w: World, p: nat, r: Id, secret: Secret)
    requires Sound(w)
    ensures Traced(PollReadStep(w, p, r, secret))
  {
    hide LogSound, LogBelow, DevicesLogged, OwnersLogged, ClaimsLogged, ConsumedAreUsed, KeysLogged, ChallengesLogged,
      ChosenKinds, Intact, WrapLogged;
    if r in w.db.requests { assert RequestLogged(w.log, r, w.db.requests[r]); }
  }

  lemma PollCheckTraced(w: World, p: nat)
    requires Sound(w)
    ensures Traced(PollCheckStep(w, p))
  {
    hide Intact, LogSound, LogBelow, DevicesLogged, OwnersLogged, KeysLogged, ClaimsLogged, ChallengesLogged,
      ConsumedAreUsed, ManualsSound, ChosenKinds;
    if p in w.polls { assert PollSound(w.log, p, w.polls[p]); }
  }

  lemma PollClaimTraced(w: World, p: nat)
    requires Sound(w)
    ensures Traced(PollClaimStep(w, p))
  {
    if p in w.polls && w.polls[p].stage.BanChecked? {
      var (r, row) := (w.polls[p].request, w.polls[p].stage.row);
      assert PollSound(w.log, p, w.polls[p]);
      WrapIsUnique(w.log, r, row.wrap, row.wrap);
      if Claimable(w.db, r) { ClaimedTraced(w, p); } else { LostClaimTraced(w, p); }
    }
  }

  lemma LostClaimTraced(w: World, p: nat)
    requires Sound(w) && p in w.polls && w.polls[p].stage.BanChecked? && !Claimable(w.db, w.polls[p].request)
    requires w.polls[p].stage.row.status == Approved
    ensures Traced(PollClaimStep(w, p))
  {
    hide LogSound, LogBelow, DevicesLogged, OwnersLogged, ClaimsLogged, ConsumedAreUsed, KeysLogged, ChallengesLogged,
      RequestsLogged, ChosenKinds, Intact, WrapLogged;
  }

  lemma ClaimedTraced(w: World, p: nat)
    requires Sound(w) && p in w.polls && w.polls[p].stage.BanChecked? && Claimable(w.db, w.polls[p].request)
    requires w.polls[p].stage.row.status == Approved && EnvelopeOf(w.polls[p].stage.row.wrap).Some?
    requires WrapLogged(w.log, w.polls[p].request, w.polls[p].stage.row.wrap)
    ensures Traced(PollClaimStep(w, p))
  {
    hide Justified, LogSound, LogBelow, DevicesLogged, OwnersLogged, ClaimsLogged, ConsumedAreUsed, KeysLogged,
      RequestsLogged, ChallengesLogged, ChosenKinds, Intact;
    var (r, row) := (w.polls[p].request, w.polls[p].stage.row);
    var e := EnvelopeDelivered(r, EnvelopeOf(row.wrap).value, p);
    DeliveryJustified(w, r, row.wrap, p);
    RequestBelow(w.db, r);
    LongerTrace(w, e, w.db.nextId);
    LongerLogForChallenges(w.db.challenges, w.log, e);
    DeliveredRow(w, r, e);
    assert e in w.log + [e];
    PollsAnswered(w.polls, w.log + [e], p, PollCall(r, Answered(AnswerPoll(row, true))));
  }

  lemma PollsAnswered(polls: map<nat, PollCall>, log: Log, p: nat, call: PollCall)
    requires PollsSound(polls, log) && PollSound(log, p, call)
    ensures PollsSound(polls[p := call], log)
  {
  }

  lemma DeliveryJustified(w: World, r: Id, wrap: WrapColumns, p: nat)
    requires Traced(w) && Claimable(w.db, r) && WrapLogged(w.log, r, wrap) && EnvelopeOf(wrap).Some?
    ensures Justified(w.log, EnvelopeDelivered(r, EnvelopeOf(wrap).value, p))
  {
    assert RequestLogged(w.log, r, w.db.requests[r]);
    var x :| x in w.log && Approves(x, r) && wrap == ColumnsOf(x.envelope);
  }

  lemma DeliveredRow(w: World, r: Id, e: Event)
    requires RequestsLogged(w.db.requests, w.log) && Claimable(w.db, r)
    requires e.EnvelopeDelivered? && e.request == r
    ensures RequestsLogged(MarkDelivered(w.db, r).requests, w.log + [e])
  {
    LongerLogForRequests(w.db.requests - {r}, w.log, e);
    assert RequestLogged(w.log, r, w.db.requests[r]);
    assert RequestLogged(w.log + [e], r, MarkDelivered(w.db, r).requests[r]) by {
      assert forall x | x in w.log :: x in w.log + [e];
    }
    assert forall q | q in MarkDelivered(w.db, r).requests && q != r ::
        q in w.db.requests - {r} && MarkDelivered(w.db, r).requests[q] == (w.db.requests - {r})[q];
  }

  lemma LookupTraced(w: World, m: nat, k: Id, secret: Secret)
    requires Sound(w)
    ensures Traced(ManualLookupStep(w, m, k, secret))
  {
    hide LogSound, LogBelow, DevicesLogged, OwnersLogged, ClaimsLogged, PollsSound, ConsumedAreUsed, RequestsLogged,
      ChallengesLogged, ChosenKinds, Intact, KeyLogged;
  }

  lemma CheckTraced(w: World, m: nat)
    requires Sound(w)
    ensures Traced(ManualCheckStep(w, m))
  {
    hide LogSound, LogBelow, DevicesLogged, OwnersLogged, ClaimsLogged, PollsSound, ConsumedAreUsed, RequestsLogged,
      ChallengesLogged, ChosenKinds, Intact, KeyLogged, KeysLogged;
    if m in w.manuals { assert ManualSound(w.log, m, w.manuals[m]); }
  }

  lemma ManualsAnswered(manuals: map<nat, ManualCall>, log: Log, m: nat, call: ManualCall)
    requires ManualsSound(manuals, log) && ManualSound(log, m, call)
    ensures ManualsSound(manuals[m := call], log)
  {
  }

  lemma ConsumeTraced(w: World, m: nat)
    requires Sound(w)
    ensures Traced(ManualConsumeStep(w, m))
  {
    hide Justified, LogSound, LogBelow, DevicesLogged, OwnersLogged, ClaimsLogged, PollsSound, ManualsSound,
      ConsumedAreUsed, KeysLogged, RequestsLogged, ChallengesLogged, ChosenKinds, Intact, ConsumeKey, KeyLogged;
    if m in w.manuals && w.manuals[m].stage.KeyUnbanned? {
      var (k, row) := (w.manuals[m].key, w.manuals[m].stage.row);
      ReadRowLogged(w, m);
      if row.kind != OneTime {
        OtherKindIsReusable(w.log, k, row);
        ManualsAnswered(w.manuals, w.log, m, ManualCall(k, Concluded(true)));
      } else if !Consumable(w.db, k) {
        ManualsAnswered(w.manuals, w.log, m, ManualCall(k, Concluded(false)));
      } else {
        ConsumedTraced(w, k, m);
        var after := Logging(w, ConsumeKey(w.db, k), OneTimeConsumed(k, m));
        assert OneTimeConsumed(k, m) in after.log;
        ManualsAnswered(after.manuals, after.log, m, ManualCall(k, Concluded(true)));
        assert ManualConsumeStep(w, m) == SetManual(after, m, k, Concluded(true));
      }
    }
  }

  lemma ReadRowLogged(w: World, m: nat)
    requires Traced(w) && m in w.manuals && w.manuals[m].stage.KeyUnbanned?
    ensures KeyLogged(w.log, w.manuals[m].key, w.manuals[m].stage.row)
  {
    assert ManualSound(w.log, m, w.manuals[m]);
  }

  lemma OtherKindIsReusable(log: Log, k: Id, row: ApiKey)
    requires KeyLogged(log, k, row) && row.kind != OneTime
    ensures MultipleUse(log, k)
  {
    var e :| e in log && CreatesCredential(e, k, row.owner, row.device)
             && row.kind == if e.Minted? then e.kind else Session;
    assert MintsKey(e, k);
  }

  lemma ConsumedTraced(w: World, k: Id, m: nat)
    requires Sound(w) && Consumable(w.db, k)
    ensures Traced(Logging(w, ConsumeKey(w.db, k), OneTimeConsumed(k, m)))
  {
    hide Justified, LogSound, LogBelow, DevicesLogged, OwnersLogged, ClaimsLogged, PollsSound, ManualsSound,
      ConsumedAreUsed, KeysLogged, RequestsLogged, ChallengesLogged, ChosenKinds, Intact;
    var e := OneTimeConsumed(k, m);
    ConsumptionJustified(w, k, m);
    LongerLogSound(w.log, e, w.db.nextId, w.db.nextId);
    ConsumedKeyLogged(w, k);
    LongerLog(w.(db := ConsumeKey(w.db, k)), e);
    LongerLogForChallenges(w.db.challenges, w.log, e);
    LongerLogForRequests(w.db.requests, w.log, e);
    ConsumptionLogged(w, k, m);
  }

  lemma ConsumedKeyLogged(w: World, k: Id)
    requires Traced(w) && Consumable(w.db, k)
    ensures KeysLogged(ConsumeKey(w.db, k).apiKeys, w.log)
    ensures ChosenKinds(w.chosen, ConsumeKey(w.db, k).apiKeys, w.db.nextId)
  {
    forall j | j in w.db.apiKeys ensures KeyLogged(w.log, j, ConsumeKey(w.db, k).apiKeys[j]) {
      assert KeyLogged(w.log, j, w.db.apiKeys[j]);
    }
  }

  lemma ConsumptionJustified(w: World, k: Id, m: nat)
    requires Sound(w) && Consumable(w.db, k)
    ensures Justified(w.log, OneTimeConsumed(k, m)) && k < w.db.nextId
  {
    assert KeyLogged(w.log, k, w.db.apiKeys[k]);
    assert !WasConsumed(w.log, k);
  }

  lemma ConsumptionLogged(w: World, k: Id, m: nat)
    requires Traced(w) && Consumable(w.db, k)
    ensures OwnersLogged(w.db.devices, w.log + [OneTimeConsumed(k, m)])
    ensures ConsumedAreUsed(ConsumeKey(w.db, k).apiKeys, w.log + [OneTimeConsumed(k, m)])
  {
    var e := OneTimeConsumed(k, m);
    assert e in w.log + [e] && Consumes(e, k);
    assert forall x | x in w.log + [e] :: x in w.log || x == e;
    forall j | j in w.db.apiKeys && j != k ensures WasConsumed(w.log + [e], j) == WasConsumed(w.log, j) {
      assert forall x | x in w.log :: x in w.log + [e];
    }
  }
}
