/** The security guarantees of every run: for any sequence of statements of any requests, in any
    interleaving, with cleanup and time passing in between. */
module Guarantees {
  import opened Basics
  import opened Policy
  import opened Bans
  import opened Tables
  import opened DeviceDeletion
  import opened Sessions
  import opened Credentials
  import opened Integrity
  import opened Audit
  import opened AuditInvariant
  import opened Runs

  // ---------------------------------------------------------------- the tables of every run

  /** Foreign keys, the unique hash index, ownership and attribution hold after every statement. */
  lemma TablesAreIntact(now: int, actions: seq<Action>)
    ensures Intact(Exec(now, actions).db)
  {
    RunIsSound(now, actions);
  }

  /** Every credential with a device names an existing device with the same owner. */
  lemma CredentialsAreOwned(now: int, actions: seq<Action>, k: Id)
    requires k in Exec(now, actions).db.apiKeys && Exec(now, actions).db.apiKeys[k].device.Some?
    ensures var db := Exec(now, actions).db;
            var device := db.apiKeys[k].device.value;
            device in db.devices && db.devices[device].owner == db.apiKeys[k].owner
  {
    hide Exec;
    RunIsSound(now, actions);
  }

  /** The wrap columns are all present exactly while the status is `approved`, and all absent in
      every other state. */
  lemma WrapsAreWholeExactlyWhenApproved(now: int, actions: seq<Action>, r: Id)
    requires r in Exec(now, actions).db.requests
    ensures var row := Exec(now, actions).db.requests[r];
            && (EnvelopeOf(row.wrap).Some? <==> row.status == Approved)
            && (row.wrap == NO_WRAP <==> row.status != Approved)
  {
    hide Exec, Traced, ForeignKeysHold, IdsBelow, HashesDistinct, NamesDistinct, KeysOwned, ApprovalKinds, StatusKinds,
      RequestKeysAttributed, ProposalsHonest;
    RunIsSound(now, actions);
    var row := Exec(now, actions).db.requests[r];
    assert RequestShape(row);
  }

  /** The session key of a request carries the request's device. */
  lemma SessionKeysCarryTheDevice(now: int, actions: seq<Action>, r: Id)
    requires r in Exec(now, actions).db.requests && Exec(now, actions).db.requests[r].sessionKey.Some?
    ensures var db := Exec(now, actions).db;
            var key := db.requests[r].sessionKey.value;
            key in db.apiKeys && db.apiKeys[key].device == db.requests[r].device && db.requests[r].device.Some?
  {
    hide Exec;
    RunIsSound(now, actions);
    assert RequestShape(Exec(now, actions).db.requests[r]);
  }

  /** A confirmed proposal names a device of the confirming owner with exactly the proposed key. */
  lemma ConfirmedProposalsAreHonest(now: int, actions: seq<Action>, p: Id)
    requires p in Exec(now, actions).db.proposals && Exec(now, actions).db.proposals[p].result.Some?
    ensures var (row, devices) := (Exec(now, actions).db.proposals[p], Exec(now, actions).db.devices);
            && row.status == Confirmed && row.result.value in devices
            && row.confirmedBy == Some(devices[row.result.value].owner)
            && row.publicKey == devices[row.result.value].publicKey && row.keyType == devices[row.result.value].keyType
  {
    hide Exec;
    RunIsSound(now, actions);
  }

  /** In every run an owner's devices have different names. */
  lemma DeviceNamesStayDistinct(now: int, actions: seq<Action>, d: Id, e: Id)
    requires d in Exec(now, actions).db.devices && e in Exec(now, actions).db.devices && d != e
    requires Exec(now, actions).db.devices[d].owner == Exec(now, actions).db.devices[e].owner
    ensures Exec(now, actions).db.devices[d].name != Exec(now, actions).db.devices[e].name
  {
    hide Exec;
    RunIsSound(now, actions);
  }

  /** In every run the two ways of presenting a session key agree, although one asks for the status
      `active` and the other only for neither `revoked` nor `used`. */
  lemma BearerAgreesWithAdmin(now: int, actions: seq<Action>, k: Id, secret: Secret)
    requires k in Exec(now, actions).db.apiKeys && Exec(now, actions).db.apiKeys[k].kind.Session?
    ensures AuthBearer(Exec(now, actions).db, k, secret) == AdminAuth(Exec(now, actions).db, k, secret)
  {
    hide Exec;
    RunIsSound(now, actions);
  }

  // ---------------------------------------------------------------- single use

  /** No entry before a `once` entry satisfies `once`. */
  ghost predicate SingleUse(log: Log, once: Event -> bool) {
    forall k | 0 <= k < |log| && once(log[k]) :: NoneBefore(log, k, once)
  }

  ghost predicate NoneBefore(log: Log, k: nat, once: Event -> bool)
    requires k <= |log|
  {
    forall x | x in log[..k] :: !once(x)
  }

  /** Two entries of a single-use kind are one entry. */
  lemma NoSecond(log: Log, i: nat, j: nat, once: Event -> bool)
    requires i < |log| && j < |log| && once(log[i]) && once(log[j]) && SingleUse(log, once)
    ensures i == j
  {
    EarlierIsNot(log, i, j, once);
    EarlierIsNot(log, j, i, once);
  }

  lemma EarlierIsNot(log: Log, i: nat, j: nat, once: Event -> bool)
    requires i < |log| && j < |log| && once(log[j]) && SingleUse(log, once)
    ensures i < j ==> !once(log[i])
  {
    if i < j {
      assert log[..j][i] in log[..j];
      assert NoneBefore(log, j, once);
    }
  }

  /** A challenge is spent by at most one request. */
  lemma ChallengeIsSpentOnce(log: Log, i: nat, j: nat, c: Id)
    requires AuditSound(log) && i < |log| && j < |log| && Spends(log[i], c) && Spends(log[j], c)
    ensures i == j
  {
    var once := e => Spends(e, c);
    forall k | 0 <= k < |log| && once(log[k]) ensures NoneBefore(log, k, once) {
      JustifiedAt(log, k);
    }
    NoSecond(log, i, j, once);
  }

  lemma RequestIsOpenedOnce(log: Log, i: nat, j: nat, r: Id)
    requires AuditSound(log) && i < |log| && j < |log| && Opens(log[i], r) && Opens(log[j], r)
    ensures i == j
  {
    var once := e => Opens(e, r);
    forall k | 0 <= k < |log| && once(log[k]) ensures NoneBefore(log, k, once) {
      JustifiedAt(log, k);
    }
    NoSecond(log, i, j, once);
  }

  lemma RequestIsApprovedOnce(log: Log, i: nat, j: nat, r: Id)
    requires AuditSound(log) && i < |log| && j < |log| && Approves(log[i], r) && Approves(log[j], r)
    ensures i == j
  {
    ApprovedOnce(log, if i <= j then i else j, if i <= j then j else i, r);
  }

  lemma KeyIsMintedOnce(log: Log, i: nat, j: nat, k: Id)
    requires AuditSound(log) && i < |log| && j < |log| && MintsKey(log[i], k) && MintsKey(log[j], k)
    ensures i == j
  {
    var once := e => MintsKey(e, k);
    forall n | 0 <= n < |log| && once(log[n]) ensures NoneBefore(log, n, once) {
      JustifiedAt(log, n);
    }
    NoSecond(log, i, j, once);
  }

  lemma EnvelopeIsDeliveredOnce(log: Log, i: nat, j: nat, r: Id)
    requires AuditSound(log) && i < |log| && j < |log| && Delivers(log[i], r) && Delivers(log[j], r)
    ensures i == j
  {
    var once := e => Delivers(e, r);
    forall k | 0 <= k < |log| && once(log[k]) ensures NoneBefore(log, k, once) {
      JustifiedAt(log, k);
    }
    NoSecond(log, i, j, once);
  }

  lemma KeyIsConsumedOnce(log: Log, i: nat, j: nat, k: Id)
    requires AuditSound(log) && i < |log| && j < |log| && Consumes(log[i], k) && Consumes(log[j], k)
    ensures i == j
  {
    var once := e => Consumes(e, k);
    forall n | 0 <= n < |log| && once(log[n]) ensures NoneBefore(log, n, once) {
      JustifiedAt(log, n);
    }
    NoSecond(log, i, j, once);
  }

  // ---------------------------------------------------------------- provenance of session keys

  /** Entry `a` approves a session request, entry `o` opened that request with the same device and
      token, and entry `c` issued the challenge that the opening answered with its nonce. */
  ghost predicate Provenance(log: Log, c: nat, o: nat, a: nat) {
    && c < o < a < |log|
    && log[c].ChallengeIssued? && log[o].RequestOpened? && log[a].SessionApproved?
    && log[a].request == log[o].request && log[a].token == log[o].token && log[a].device == log[o].device
    && log[o].challenge == log[c].challenge && log[o].nonce == log[c].nonce && log[o].device == log[c].device
  }

  /** The approver held a credential of the owner who had enrolled the device. */
  ghost predicate ApprovedByOwner(log: Log, a: nat)
    requires a < |log| && log[a].SessionApproved?
  {
    && DeviceEnrolled(log[a].device, log[a].owner) in log[..a]
    && exists x | x in log[..a] :: MintsKey(x, log[a].approver) && x.owner == log[a].owner
  }

  /** Every session key that an approval minted traces back, in every run, to a challenge for its
      device that was answered with the matching nonce and to a request with the matching token. */
  lemma SessionKeysHaveProvenance(now: int, actions: seq<Action>, a: nat)
    requires a < |Exec(now, actions).log| && Exec(now, actions).log[a].SessionApproved?
    ensures exists c, o :: Provenance(Exec(now, actions).log, c, o, a)
    ensures ApprovedByOwner(Exec(now, actions).log, a)
  {
    hide Exec;
    RunIsSound(now, actions);
    ApprovalHasProvenance(Exec(now, actions).log, a);
  }

  lemma ApprovalHasProvenance(log: Log, a: nat)
    requires AuditSound(log) && a < |log| && log[a].SessionApproved?
    ensures exists c, o :: Provenance(log, c, o, a)
    ensures ApprovedByOwner(log, a)
  {
    JustifiedAt(log, a);
    var x :| x in log[..a] && x.RequestOpened? && x.request == log[a].request && x.device == log[a].device
             && x.token == log[a].token;
    var o :| 0 <= o < a && log[..a][o] == x;
    OpeningHasChallenge(log, o);
    var c :| 0 <= c < o && log[c] == ChallengeIssued(x.challenge, x.device, x.nonce);
    assert Provenance(log, c, o, a);
  }

  lemma OpeningHasChallenge(log: Log, o: nat)
    requires AuditSound(log) && o < |log| && log[o].RequestOpened?
    ensures exists c :: 0 <= c < o && log[c] == ChallengeIssued(log[o].challenge, log[o].device, log[o].nonce)
  {
    JustifiedAt(log, o);
    var c :| 0 <= c < o && log[..o][c] == ChallengeIssued(log[o].challenge, log[o].device, log[o].nonce);
    assert log[c] == ChallengeIssued(log[o].challenge, log[o].device, log[o].nonce);
  }

  /** Challenge to request to key is injective: provenances that share a challenge, a request or a
      key are the same provenance. */
  lemma ProvenanceIsInjective(now: int, actions: seq<Action>, c: nat, o: nat, a: nat, c': nat, o': nat, a': nat)
    requires Provenance(Exec(now, actions).log, c, o, a) && Provenance(Exec(now, actions).log, c', o', a')
    requires var log := Exec(now, actions).log;
             || log[c].challenge == log[c'].challenge
             || log[o].request == log[o'].request
             || log[a].key == log[a'].key
    ensures c == c' && o == o' && a == a'
  {
    hide Exec;
    RunIsSound(now, actions);
    var log := Exec(now, actions).log;
    if log[c].challenge == log[c'].challenge {
      ChallengeIsSpentOnce(log, o, o', log[c].challenge);
    } else if log[a].key == log[a'].key {
      KeyIsMintedOnce(log, a, a', log[a].key);
    }
    RequestIsOpenedOnce(log, o, o', log[o].request);
    RequestIsApprovedOnce(log, a, a', log[o].request);
    ChallengeIsIssuedOnce(log, c, c', log[c].challenge);
  }

  lemma ChallengeIsIssuedOnce(log: Log, i: nat, j: nat, c: Id)
    requires AuditSound(log) && i < |log| && j < |log| && Issues(log[i], c) && Issues(log[j], c)
    ensures i == j
  {
    var once := e => Issues(e, c);
    forall k | 0 <= k < |log| && once(log[k]) ensures NoneBefore(log, k, once) {
      JustifiedAt(log, k);
    }
    NoSecond(log, i, j, once);
  }

  // ---------------------------------------------------------------- ancestry of credentials

  /** Entry `i` created credential `k`, and its mint ancestry has one owner and one attribution
      throughout: it goes back, through credentials with that attribution only, to a login if there
      is no device and to the approval of a session request of the device otherwise. */
  ghost predicate Descends(log: Log, i: nat, k: Id, owner: string, device: Option<Id>)
    requires i < |log|
    decreases i
  {
    && CreatesCredential(log[i], k, owner, device)
    && (match log[i]
        case SessionApproved(_, _, d, _, _, _, _) => device == Some(d)
        case Minted(_, _, _, _, ByLogin) => device == None
        case Minted(_, _, _, _, ByCredential(k0)) => exists j :: 0 <= j < i && Descends(log, j, k0, owner, device))
  }

  ghost predicate HasAncestry(log: Log, k: Id, owner: string, device: Option<Id>) {
    exists i :: 0 <= i < |log| && Descends(log, i, k, owner, device)
  }

  /** Every credential of every run has such an ancestry. */
  lemma CredentialsDescend(now: int, actions: seq<Action>, k: Id)
    requires k in Exec(now, actions).db.apiKeys
    ensures var row := Exec(now, actions).db.apiKeys[k];
            HasAncestry(Exec(now, actions).log, k, row.owner, row.device)
  {
    hide Exec, AuditSound, Intact, CreatesCredential;
    RunIsSound(now, actions);
    var i := CreatingEntry(Exec(now, actions), k);
    EntryDescends(Exec(now, actions).log, i, k, Exec(now, actions).db.apiKeys[k].owner,
                  Exec(now, actions).db.apiKeys[k].device);
  }

  lemma CreatingEntry(w: World, k: Id) returns (i: nat)
    requires Traced(w) && k in w.db.apiKeys
    ensures i < |w.log| && CreatesCredential(w.log[i], k, w.db.apiKeys[k].owner, w.db.apiKeys[k].device)
  {
    hide LogSound;
    var row := w.db.apiKeys[k];
    assert KeyLogged(w.log, k, row);
    var e :| e in w.log && CreatesCredential(e, k, row.owner, row.device);
    i :| 0 <= i < |w.log| && w.log[i] == e;
  }

  lemma {:induction false} EntryDescends(log: Log, i: nat, k: Id, owner: string, device: Option<Id>)
    requires AuditSound(log) && i < |log| && CreatesCredential(log[i], k, owner, device)
    ensures Descends(log, i, k, owner, device)
    decreases i
  {
    if log[i].Minted? && log[i].minter.ByCredential? {
      var j := MinterEntry(log, i, owner, device);
      EntryDescends(log, j, log[i].minter.key, owner, device);
    } else {
      JustifiedAt(log, i);
    }
  }

  lemma MinterEntry(log: Log, i: nat, owner: string, device: Option<Id>) returns (j: nat)
    requires AuditSound(log) && i < |log| && log[i].Minted? && log[i].minter.ByCredential?
    requires log[i].owner == owner && log[i].mintedFor == device
    ensures j < i && CreatesCredential(log[j], log[i].minter.key, owner, device)
  {
    JustifiedAt(log, i);
    var x :| x in log[..i] && CreatesCredential(x, log[i].minter.key, owner, device);
    j :| 0 <= j < i && log[..i][j] == x;
  }

  // ---------------------------------------------------------------- delivery

  /** In every run an envelope is handed to at most one poll, it is the one that the approval
      wrote, and no poll ends in "missing wrap columns". */
  lemma EnvelopesAreDeliveredAtMostOnce(now: int, actions: seq<Action>, p: nat, q: nat)
    requires HandsOut(Exec(now, actions), p) && HandsOut(Exec(now, actions), q)
    requires Exec(now, actions).polls[p].request == Exec(now, actions).polls[q].request
    ensures p == q
  {
    hide Exec;
    RunIsSound(now, actions);
    var w := Exec(now, actions);
    DeliveryIsLogged(w, p);
    DeliveryIsLogged(w, q);
    var r := w.polls[p].request;
    var i :| 0 <= i < |w.log| && Delivers(w.log[i], r) && w.log[i].poll == p;
    var j :| 0 <= j < |w.log| && Delivers(w.log[j], r) && w.log[j].poll == q;
    EnvelopeIsDeliveredOnce(w.log, i, j, r);
  }

  predicate HandsOut(w: World, p: nat) {
    && p in w.polls && w.polls[p].stage.Answered? && w.polls[p].stage.answer.Ok?
    && w.polls[p].stage.answer.value.envelope.Some?
  }

  lemma DeliveryIsLogged(w: World, p: nat)
    requires Traced(w) && HandsOut(w, p)
    ensures exists i ::
      0 <= i < |w.log| && Delivers(w.log[i], w.polls[p].request) && w.log[i].poll == p
      && w.log[i].envelope == w.polls[p].stage.answer.value.envelope.value
  {
    assert PollSound(w.log, p, w.polls[p]);
    var e := EnvelopeDelivered(w.polls[p].request, w.polls[p].stage.answer.value.envelope.value, p);
    assert e in w.log;
    var i :| 0 <= i < |w.log| && w.log[i] == e;
  }

  /** What a poll hands out is what exactly one earlier approval of that request sealed. */
  lemma DeliveredIsWhatWasApproved(now: int, actions: seq<Action>, p: nat)
    requires HandsOut(Exec(now, actions), p)
    ensures exists x | x in Exec(now, actions).log ::
      && Approves(x, Exec(now, actions).polls[p].request)
      && Exec(now, actions).polls[p].stage.answer.value.envelope == Some(x.envelope)
  {
    hide Exec;
    RunIsSound(now, actions);
    var w := Exec(now, actions);
    DeliveryIsLogged(w, p);
    var i :| 0 <= i < |w.log| && Delivers(w.log[i], w.polls[p].request)
             && w.log[i].envelope == w.polls[p].stage.answer.value.envelope.value;
    JustifiedAt(w.log, i);
    var x :| x in w.log[..i] && Approves(x, w.polls[p].request) && x.envelope == w.log[i].envelope;
    assert x in w.log;
  }

  /** No poll is ever answered with an internal error: the branch for missing columns is dead. */
  lemma MissingColumnsAreUnreachable(now: int, actions: seq<Action>, p: nat)
    requires p in Exec(now, actions).polls
    ensures Exec(now, actions).polls[p].stage != Answered(Err(Internal))
  {
    hide Exec;
    RunIsSound(now, actions);
    assert PollSound(Exec(now, actions).log, p, Exec(now, actions).polls[p]);
  }

  // ---------------------------------------------------------------- one-time keys

  predicate Accepted(w: World, m: nat, k: Id) {
    m in w.manuals && w.manuals[m].key == k && w.manuals[m].stage == Concluded(true)
  }

  predicate MintedOneTime(log: Log, k: Id) { exists x | x in log :: x.Minted? && x.key == k && x.kind == OneTime }

  /** A one-time key authenticates at most one request, whatever runs in between. */
  lemma OneTimeKeysAuthenticateOnce(now: int, actions: seq<Action>, k: Id, m: nat, n: nat)
    requires MintedOneTime(Exec(now, actions).log, k)
    requires Accepted(Exec(now, actions), m, k) && Accepted(Exec(now, actions), n, k)
    ensures m == n
  {
    hide Exec;
    RunIsSound(now, actions);
    var w := Exec(now, actions);
    AcceptedWasConsumed(w, m, k);
    AcceptedWasConsumed(w, n, k);
    var i :| 0 <= i < |w.log| && w.log[i] == OneTimeConsumed(k, m);
    var j :| 0 <= j < |w.log| && w.log[j] == OneTimeConsumed(k, n);
    KeyIsConsumedOnce(w.log, i, j, k);
  }

  lemma AcceptedWasConsumed(w: World, m: nat, k: Id)
    requires Traced(w) && Accepted(w, m, k) && MintedOneTime(w.log, k)
    ensures OneTimeConsumed(k, m) in w.log
  {
    hide AuditSound, CredentialsEnrolled, LogBelow, DevicesLogged, OwnersLogged, KeysLogged, ClaimsLogged,
      ChallengesLogged, RequestsLogged, ConsumedAreUsed, PollsSound, ChosenKinds;
    assert ManualSound(w.log, m, w.manuals[m]);
    if MultipleUse(w.log, k) {
      var x :| x in w.log && MintsKey(x, k) && !(x.Minted? && x.kind == OneTime);
      var y :| y in w.log && y.Minted? && y.key == k && y.kind == OneTime;
      var i :| 0 <= i < |w.log| && w.log[i] == x;
      var j :| 0 <= j < |w.log| && w.log[j] == y;
      KeyIsMintedOnce(w.log, i, j, k);
    }
  }

  /** The log only grows. */
  lemma {:induction false} LogGrows(now: int, actions: seq<Action>, i: nat)
    requires i <= |actions|
    ensures Exec(now, actions[..i]).log <= Exec(now, actions).log
    decreases |actions|
  {
    if i == |actions| {
      assert actions[..i] == actions;
    } else {
      var most := actions[..|actions| - 1];
      LogGrows(now, most, i);
      assert most[..i] == actions[..i];
      StepGrowsLog(Exec(now, most), actions[|actions| - 1]);
    }
  }

  lemma TableStepKeepsLog(w: World, a: TableAction)
    ensures TableStep(w, a).log == w.log
  {
    hide RecipientsReferTo;
  }

  lemma StepGrowsLog(w: World, a: Action)
    ensures w.log <= Step(w, a).log
  {
    hide MintKey, EnrolDevice, CreateChallenge, CreateRequest, Approve, AnswerPoll, MarkDelivered, ConsumeKey,
      RequestApproval, ChooseApproval, AdminAuth, LookupManual, ReadForPoll, CheckForPoll, TableStep;
    if a.OnTables? { TableStepKeepsLog(w, a.onTables); }
  }

  /** `used` is never left: from any point of any run on, a used key stays used for as long as it
      exists, although approving a request reactivates its key without looking at the status. */
  lemma UsedIsFinal(now: int, actions: seq<Action>, i: nat, k: Id)
    requires i <= |actions| && k in Exec(now, actions[..i]).db.apiKeys
    requires Exec(now, actions[..i]).db.apiKeys[k].status == Used
    ensures k in Exec(now, actions).db.apiKeys ==> Exec(now, actions).db.apiKeys[k].status == Used
  {
    hide Exec;
    RunIsSound(now, actions[..i]);
    RunIsSound(now, actions);
    LogGrows(now, actions, i);
    var (early, late) := (Exec(now, actions[..i]).log, Exec(now, actions).log);
    assert WasConsumed(early, k);
    var x :| x in early && Consumes(x, k);
    var n :| 0 <= n < |early| && early[n] == x;
    assert late[n] == x;
    assert WasConsumed(late, k);
  }

  // ---------------------------------------------------------------- revoked keys

  predicate IsRevoked(db: Db, k: Id) { k in db.apiKeys && db.apiKeys[k].status == Revoked }

  /** Whatever a statement does to other rows, key `k` is still revoked if it is still there. */
  predicate StillRevoked(db: Db, k: Id) { k in db.apiKeys ==> db.apiKeys[k].status == Revoked }

  lemma KeyStepKeepsRevoked(w: World, a: KeyAction, k: Id)
    requires IsRevoked(w.db, k) && k < w.db.nextId
    ensures StillRevoked(KeyStep(w, a).db, k)
  {
    hide AdminAuth, RevokedSessions;
  }

  lemma ProtocolStepKeepsRevoked(w: World, a: ProtocolAction, k: Id)
    requires IsRevoked(w.db, k) && k < w.db.nextId
    ensures StillRevoked(ProtocolStep(w, a).db, k)
  {
    hide IssueStep, OpenStep, PollReadStep, PollCheckStep, PollClaimStep;
    match a
    case ApproveRequest(c, only, r, token, hours) => ApproveStepKeepsRevoked(w, c, only, r, token, hours, k);
    case RejectRequest(_) =>
    case _ => OtherProtocolKeepsKeys(w, a);
  }

  lemma ApproveStepKeepsRevoked(w: World, c: Claims, only: Option<Id>, r: Id, token: Secret, hours: int, k: Id)
    requires IsRevoked(w.db, k) && k < w.db.nextId
    ensures StillRevoked(ApproveStep(w, c, only, r, token, hours).db, k)
  {
    hide Banned;
  }

  lemma OtherProtocolKeepsKeys(w: World, a: ProtocolAction)
    requires !a.ApproveRequest?
    ensures ProtocolStep(w, a).db.apiKeys == w.db.apiKeys
  {
    hide IssueStep, OpenStep, PollReadStep, PollCheckStep, PollClaimStep;
    match a
    case IssueChallenge(device) => IssueKeepsKeys(w, device);
    case OpenRequest(challenge, nonce) => OpenKeepsKeys(w, challenge, nonce);
    case RejectRequest(_) =>
    case PollRead(p, r, secret) => PollReadKeepsTables(w, p, r, secret);
    case PollCheck(p) => PollCheckKeepsTables(w, p);
    case PollClaim(p) => PollClaimKeepsKeys(w, p);
  }

  lemma IssueKeepsKeys(w: World, device: Id)
    ensures IssueStep(w, device).db.apiKeys == w.db.apiKeys
  {
    hide WrapForDevice;
  }

  lemma OpenKeepsKeys(w: World, challenge: Id, nonce: Secret)
    ensures OpenStep(w, challenge, nonce).db.apiKeys == w.db.apiKeys
  {
    hide Banned;
  }

  lemma PollReadKeepsTables(w: World, p: nat, r: Id, secret: Secret)
    ensures PollReadStep(w, p, r, secret).db == w.db
  {
    hide ReadForPoll;
  }

  lemma PollCheckKeepsTables(w: World, p: nat)
    ensures PollCheckStep(w, p).db == w.db
  {
    hide AnswerPoll, CheckForPoll;
  }

  lemma PollClaimKeepsKeys(w: World, p: nat)
    ensures PollClaimStep(w, p).db.apiKeys == w.db.apiKeys
  {
    hide AnswerPoll, MarkDelivered;
    if p in w.polls { DeliveryKeepsKeys(w.db, w.polls[p].request); }
  }

  lemma DeliveryKeepsKeys(db: Db, r: Id)
    ensures MarkDelivered(db, r).apiKeys == db.apiKeys
  {
  }

  lemma ManualStepKeepsRevoked(w: World, a: ManualAction, k: Id)
    requires IsRevoked(w.db, k)
    ensures StillRevoked(ManualActionStep(w, a).db, k)
  {
    hide LookupManual, Banned;
  }

  lemma DeviceStepKeepsRevoked(w: World, a: DeviceAction, k: Id)
    requires IsRevoked(w.db, k) && Intact(w.db)
    ensures StillRevoked(DeviceStep(w, a).db, k)
  {
    hide Intact, AfterDelete, SavedPolicies, SavedKeys;
    match a
    case DeleteDevice(owner, device) => DeletionKeepsRevoked(w.db, owner, device, k);
    case _ =>
  }

  lemma DeletionKeepsRevoked(db: Db, owner: string, device: Id, k: Id)
    requires IsRevoked(db, k) && Intact(db)
    ensures StillRevoked(AfterDelete(db, owner, device).1, k)
  {
    if device in db.devices && db.devices[device].owner == owner { DeleteRemovesExactlyTheDevice(db, owner, device); }
  }

  lemma TableStepKeepsRevoked(w: World, a: TableAction, k: Id)
    requires IsRevoked(w.db, k)
    ensures StillRevoked(TableStep(w, a).db, k)
  {
    hide RecipientsReferTo;
  }

  /** The grant of an approval that a request has already read. */
  predicate Reactivates(w: World, a: Action, k: Id) {
    a.OnApprovals? && a.onApprovals.Grant? && a.onApprovals.key == k && (a.onApprovals.approval, k) in w.chosen
  }

  lemma ApprovalStepRevoked(w: World, a: ApprovalAction, k: Id)
    requires IsRevoked(w.db, k)
    ensures StillRevoked(ApprovalStep(w, a).db, k) <==> !Reactivates(w, OnApprovals(a), k)
  {
    hide ChooseApproval, LapseApprovals;
  }

  /** Revocation is not final, and this is exactly when it is undone: in every run, a statement
      takes a key out of `revoked` if and only if it grants an approval request for the key that
      its request has read before; so only keys that need approval can come back. */
  lemma RevokedIsLeftExactlyByAGrant(now: int, actions: seq<Action>, a: Action, k: Id)
    requires IsRevoked(Exec(now, actions).db, k)
    ensures StillRevoked(Step(Exec(now, actions), a).db, k) <==> !Reactivates(Exec(now, actions), a, k)
    ensures Reactivates(Exec(now, actions), a, k) ==> Exec(now, actions).db.apiKeys[k].kind.ApprovalRequired?
  {
    hide Exec, Intact, Traced, StillRevoked, KeyStep, ApprovalStep, ProtocolStep, ManualActionStep, DeviceStep,
      TableStep;
    RunIsSound(now, actions);
    var w := Exec(now, actions);
    KeyIsBelow(w.db, k);
    if Reactivates(w, a, k) { ChosenKind(w, a.onApprovals.approval, k); }
    match a
    case OnKeys(x) => KeyStepKeepsRevoked(w, x, k);
    case OnApprovals(x) => ApprovalStepRevoked(w, x, k);
    case OnProtocol(x) => ProtocolStepKeepsRevoked(w, x, k);
    case OnManual(x) => ManualStepKeepsRevoked(w, x, k);
    case OnDevices(x) => DeviceStepKeepsRevoked(w, x, k);
    case OnTables(x) => TableStepKeepsRevoked(w, x, k);
  }

  lemma KeyIsBelow(db: Db, k: Id)
    requires Intact(db) && k in db.apiKeys
    ensures k < db.nextId
  {
  }

  const CALLER: Claims := Claims("owner", None, 0)

  /** A key that needs approval is minted after a login ... */
  function MintPending(): seq<Action> {
    [OnKeys(Login("owner", "mail", 3600))] + [OnKeys(Authenticate(0, 1))]
    + [OnKeys(Mint(CALLER, "label", ApprovalRequired, None))]
  }

  /** ... and revoked between the reading and the granting of its approval request. */
  function RevokeBetween(): seq<Action> {
    MintPending() + [OnApprovals(AskApproval(2, false))] + [OnApprovals(ReadApproval("owner", 4, 5))]
    + [OnKeys(RevokeOne("owner", 2))]
  }

  lemma PendingKeyIsMinted()
    ensures var w := Exec(0, MintPending());
            && w.db.now == 0 && w.db.nextId == 4 && w.db.approvals == map[] && 2 in w.db.apiKeys
            && w.db.apiKeys[2] == ApiKey(Digest(3), "label", ApprovalRequired, PendingApproval, None, "owner", None)
  {
    hide Exec;
    ExecNothing(0);
    var (login, authenticate) := (OnKeys(Login("owner", "mail", 3600)), OnKeys(Authenticate(0, 1)));
    assert [] + [login] == [login];
    ExecOneMore(0, [], login);
    ExecOneMore(0, [login], authenticate);
    ExecOneMore(0, [login] + [authenticate], OnKeys(Mint(CALLER, "label", ApprovalRequired, None)));
  }

  lemma ApprovalIsRead(w: World)
    requires w.db.now == 0 && w.db.nextId == 4 && w.db.approvals == map[] && 2 in w.db.apiKeys
    requires w.db.apiKeys[2] == ApiKey(Digest(3), "label", ApprovalRequired, PendingApproval, None, "owner", None)
    ensures var after := Step(Step(w, OnApprovals(AskApproval(2, false))), OnApprovals(ReadApproval("owner", 4, 5)));
            (4, 2) in after.chosen && after.db.apiKeys == w.db.apiKeys && 4 in after.db.approvals
  {
  }

  lemma GrantFollowsRevoke(w: World)
    requires (4, 2) in w.chosen && 2 in w.db.apiKeys && 4 in w.db.approvals
    requires w.db.apiKeys[2].owner == "owner" && w.db.apiKeys[2].status == PendingApproval
    ensures var revoked := Step(w, OnKeys(RevokeOne("owner", 2)));
            var granted := Step(revoked, OnApprovals(Grant(4, 2)));
            IsRevoked(revoked.db, 2) && 2 in granted.db.apiKeys && granted.db.apiKeys[2].status == Active
  {
  }

  /** Such a run exists: the key is revoked, and granting makes it active again. */
  lemma RevokedKeyComesBack()
    ensures IsRevoked(Exec(0, RevokeBetween()).db, 2)
    ensures var after := Exec(0, RevokeBetween() + [OnApprovals(Grant(4, 2))]).db;
            2 in after.apiKeys && after.apiKeys[2].status == Active
  {
    hide Exec, MintPending, Step;
    PendingKeyIsMinted();
    var (ask, read) := (OnApprovals(AskApproval(2, false)), OnApprovals(ReadApproval("owner", 4, 5)));
    ExecOneMore(0, MintPending(), ask);
    ExecOneMore(0, MintPending() + [ask], read);
    ApprovalIsRead(Exec(0, MintPending()));
    ExecOneMore(0, MintPending() + [ask] + [read], OnKeys(RevokeOne("owner", 2)));
    ExecOneMore(0, RevokeBetween(), OnApprovals(Grant(4, 2)));
    GrantFollowsRevoke(Exec(0, MintPending() + [ask] + [read]));
  }

  lemma ExecNothing(now: int)
    ensures Exec(now, []) == Start(now)
  {
  }

  lemma ExecOneMore(now: int, actions: seq<Action>, a: Action)
    ensures Exec(now, actions + [a]) == Step(Exec(now, actions), a)
  {
    hide Step;
    assert (actions + [a])[..|actions|] == actions;
  }
}
