/** That runs get on: from every reachable state the protocol goes through, and a credential in use is accepted. So
    what is said of all runs is said of something. */
module Progress {
  import opened Basics
  import opened Bans
  import opened Tables
  import opened Sessions
  import opened Credentials
  import opened Audit
  import opened Runs
  import opened Delivery
  import opened Access

  // ---------------------------------------------------------------- one request, from challenge to envelope

  lemma ChallengeStep(w: World, d: Id)
    requires d in w.db.devices && SupportedType(w.db.devices[d].keyType)
    ensures var (n, v) := (w.db.nextId, IssueStep(w, d));
            && v.db == w.db.(nextId := n + 2,
                             challenges := w.db.challenges[n := Challenge(d, Digest(n + 1), false, w.db.now + 120)])
            && v == w.(db := v.db, log := w.log + [ChallengeIssued(n, d, n + 1)])
  {
  }

  lemma RequestStep(w: World, x: Id)
    requires x in w.db.challenges && !w.db.challenges[x].consumed && w.db.now < w.db.challenges[x].expiresAt
    requires !Banned(w.db.bans, w.db.challenges[x].device, w.db.now)
    ensures var (r, d, nonce) := (w.db.nextId, w.db.challenges[x].device, w.db.challenges[x].nonceHash.secret);
            var v := OpenStep(w, x, nonce);
            && v.db == w.db.(nextId := r + 3,
                             challenges := w.db.challenges[x := w.db.challenges[x].(consumed := true)],
                             requests := w.db.requests[r :=
                               SessionRequest(Waiting, w.db.now + 900, Some(Digest(r + 1)), Some(d), Digest(r + 2), None,
                                              None, NO_WRAP)])
            && v == w.(db := v.db, log := w.log + [RequestOpened(r, x, d, nonce, r + 2)])
  {
    hide Banned;
  }

  /** What the envelope of an approval has to be. */
  function Sealed(db: Db, d: Id, r: Id, session: Secret): Envelope
    requires d in db.devices
  {
    var blob := (column: nat) => Blob(column, db.devices[d].publicKey, r, session);
    Envelope(db.devices[d].keyType, blob(0), blob(1), blob(2), blob(3), blob(4), blob(5))
  }

  lemma ApprovalStepIs(w: World, c: Claims, r: Id, d: Id, hours: int)
    requires c in w.claims && r in w.db.requests && w.db.requests[r].status == Waiting
    requires w.db.now < w.db.requests[r].expiresAt && w.db.requests[r].device == Some(d)
    requires d in w.db.devices && w.db.devices[d].owner == c.owner && SupportedType(w.db.devices[d].keyType)
    requires !Banned(w.db.bans, d, w.db.now)
    ensures var (k, row, token) := (w.db.nextId, w.db.requests[r], w.db.requests[r].approveToken.secret);
            var (v, e) := (ApproveStep(w, c, None, r, token, hours), Sealed(w.db, d, r, k + 1));
            && v.db == w.db.(nextId := k + 2,
                             apiKeys := w.db.apiKeys[k := ApiKey(Digest(k + 1), "session", Session, Active,
                                                                 HoursFromNow(w.db.now, hours), c.owner, Some(d))],
                             requests := w.db.requests[r := row.(status := Approved, sessionKey := Some(k),
                                                                 approvedBy := Some(c.owner), wrap := ColumnsOf(e))])
            && v == w.(db := v.db, log := w.log + [SessionApproved(r, k, d, c.owner, c.keyId, token, e)])
  {
    hide Banned, HoursFromNow;
  }

  lemma PollSteps(w: World, p: nat, r: Id, e: Envelope)
    requires p !in w.polls && r in w.db.requests && w.db.requests[r].pollSecret.Some?
    requires w.db.requests[r].status == Approved && w.db.requests[r].wrap == ColumnsOf(e)
    requires UnbannedFor(w.db, w.db.requests[r])
    ensures var read := PollReadStep(w, p, r, w.db.requests[r].pollSecret.value.secret);
            var v := PollClaimStep(PollCheckStep(read, p), p);
            && v.db == w.db.(requests := w.db.requests[r := w.db.requests[r].(status := Delivered, wrap := NO_WRAP)])
            && p in v.polls && v.polls[p] == PollCall(r, Answered(Ok(PollAnswer(Approved, Some(e)))))
            && v.log == w.log + [EnvelopeDelivered(r, e, p)]
  {
    hide Banned;
  }

  /** The statements of one request for a device, up to the envelope. */
  function RequestActions(n: Id, d: Id, c: Claims, hours: int, p: nat): seq<Action> {
    [OnProtocol(IssueChallenge(d)), OnProtocol(OpenRequest(n, n + 1)),
     OnProtocol(ApproveRequest(c, None, n + 2, n + 4, hours)),
     OnProtocol(PollRead(p, n + 2, n + 3)), OnProtocol(PollCheck(p)), OnProtocol(PollClaim(p))]
  }

  lemma OneMoreStep(w: World, actions: seq<Action>, a: Action)
    ensures Steps(w, actions + [a]) == Step(Steps(w, actions), a)
  {
    hide Step;
    assert (actions + [a])[..|actions|] == actions;
  }

  lemma SixSteps(w: World, n: Id, d: Id, c: Claims, hours: int, p: nat)
    ensures Steps(w, RequestActions(n, d, c, hours, p))
         == PollClaimStep(PollCheckStep(PollReadStep(
              ApproveStep(OpenStep(IssueStep(w, d), n, n + 1), c, None, n + 2, n + 4, hours), p, n + 2, n + 3), p), p)
  {
    hide Steps, IssueStep, OpenStep, ApproveStep, PollReadStep, PollCheckStep, PollClaimStep;
    var actions := RequestActions(n, d, c, hours, p);
    TwoSteps(w, actions[0], actions[1]);
    OneMoreStep(w, [actions[0], actions[1]], actions[2]);
    OneMoreStep(w, [actions[0], actions[1]] + [actions[2]], actions[3]);
    OneMoreStep(w, [actions[0], actions[1]] + [actions[2]] + [actions[3]], actions[4]);
    OneMoreStep(w, [actions[0], actions[1]] + [actions[2]] + [actions[3]] + [actions[4]], actions[5]);
    assert actions == [actions[0], actions[1]] + [actions[2]] + [actions[3]] + [actions[4]] + [actions[5]];
  }

  /** The run has gone from `w` to `v` with one request: the poll has got the envelope, the device opens it to the
      secret of the session that the approval has minted for it, and the log tells just that. */
  predicate WentThrough(w: World, v: World, d: Id, c: Claims, hours: int, p: nat)
    requires d in w.db.devices
  {
    var (n, e) := (w.db.nextId, Sealed(w.db, d, w.db.nextId + 2, w.db.nextId + 6));
    && p in v.polls && v.polls[p] == PollCall(n + 2, Answered(Ok(PollAnswer(Approved, Some(e)))))
    && Opened(e) == (w.db.devices[d].publicKey, n + 6)
    && n + 5 in v.db.apiKeys
    && v.db.apiKeys[n + 5] == ApiKey(Digest(n + 6), "session", Session, Active, HoursFromNow(w.db.now, hours), c.owner,
                                     Some(d))
    && v.log == w.log + [ChallengeIssued(n, d, n + 1), RequestOpened(n + 2, n, d, n + 1, n + 4),
                         SessionApproved(n + 2, n + 5, d, c.owner, c.keyId, n + 4, e), EnvelopeDelivered(n + 2, e, p)]
  }

  predicate MayRequest(w: World, d: Id, c: Claims, p: nat) {
    && d in w.db.devices && SupportedType(w.db.devices[d].keyType) && !Banned(w.db.bans, d, w.db.now)
    && c in w.claims && c.owner == w.db.devices[d].owner && p !in w.polls
  }

  /** The request is open for the device, after a challenge for it has been issued and answered. */
  predicate Requested(w: World, v: World, d: Id) {
    var n := w.db.nextId;
    && v.db.nextId == n + 5 && v.db.now == w.db.now && v.db.devices == w.db.devices && v.db.bans == w.db.bans
    && v.db.apiKeys == w.db.apiKeys && v.claims == w.claims && v.polls == w.polls
    && n + 2 in v.db.requests
    && v.db.requests[n + 2] == SessionRequest(Waiting, w.db.now + 900, Some(Digest(n + 3)), Some(d), Digest(n + 4), None,
                                              None, NO_WRAP)
    && v.log == w.log + [ChallengeIssued(n, d, n + 1), RequestOpened(n + 2, n, d, n + 1, n + 4)]
  }

  lemma FirstTwoSteps(w: World, d: Id)
    requires d in w.db.devices && SupportedType(w.db.devices[d].keyType) && !Banned(w.db.bans, d, w.db.now)
    ensures Requested(w, OpenStep(IssueStep(w, d), w.db.nextId, w.db.nextId + 1), d)
  {
    hide IssueStep, OpenStep, Banned;
    ChallengeStep(w, d);
    RequestStep(IssueStep(w, d), w.db.nextId);
  }

  lemma LastSteps(w: World, ready: World, d: Id, c: Claims, hours: int, p: nat)
    requires MayRequest(w, d, c, p) && Requested(w, ready, d)
    ensures var n := w.db.nextId;
            var read := PollReadStep(ApproveStep(ready, c, None, n + 2, n + 4, hours), p, n + 2, n + 3);
            WentThrough(w, PollClaimStep(PollCheckStep(read, p), p), d, c, hours, p)
  {
    hide ApproveStep, PollReadStep, PollCheckStep, PollClaimStep, Banned, HoursFromNow, ColumnsOf, Sealed;
    var n := w.db.nextId;
    ApprovalStepIs(ready, c, n + 2, d, hours);
    SealedIs(w.db, ready.db, d, n + 2, n + 6);
    PollSteps(ApproveStep(ready, c, None, n + 2, n + 4, hours), p, n + 2, Sealed(w.db, d, n + 2, n + 6));
  }

  lemma SixStepsGoThrough(w: World, d: Id, c: Claims, hours: int, p: nat)
    requires MayRequest(w, d, c, p)
    ensures WentThrough(w, Steps(w, RequestActions(w.db.nextId, d, c, hours, p)), d, c, hours, p)
  {
    hide Steps, RequestActions, IssueStep, OpenStep, ApproveStep, PollReadStep, PollCheckStep, PollClaimStep, Banned,
      WentThrough, Requested;
    SixSteps(w, w.db.nextId, d, c, hours, p);
    FirstTwoSteps(w, d);
    LastSteps(w, OpenStep(IssueStep(w, d), w.db.nextId, w.db.nextId + 1), d, c, hours, p);
  }

  /** In every run, for every unbanned device with a supported key type and every claim of its owner: a challenge is
      issued, answered, approved and polled, and goes through. */
  lemma RequestGoesThrough(now: int, actions: seq<Action>, d: Id, c: Claims, hours: int, p: nat)
    requires MayRequest(Exec(now, actions), d, c, p)
    ensures d in Exec(now, actions).db.devices
    ensures var w := Exec(now, actions);
            WentThrough(w, Exec(now, actions + RequestActions(w.db.nextId, d, c, hours, p)), d, c, hours, p)
  {
    hide Exec, Steps, RequestActions, WentThrough;
    var w := Exec(now, actions);
    ExecThenSteps(now, actions, RequestActions(w.db.nextId, d, c, hours, p));
    SixStepsGoThrough(w, d, c, hours, p);
  }

  lemma SealedIs(db: Db, late: Db, d: Id, r: Id, session: Secret)
    requires d in db.devices && late.devices == db.devices
    ensures Sealed(late, d, r, session) == Sealed(db, d, r, session)
    ensures Opened(Sealed(db, d, r, session)) == (db.devices[d].publicKey, session)
  {
  }

  // ---------------------------------------------------------------- credentials

  /** The statements of one `X-Api-Key` authentication. */
  function KeyActions(m: nat, k: Id, secret: Secret): seq<Action> {
    [OnManual(ManualLookup(m, k, secret)), OnManual(ManualCheck(m)), OnManual(ManualConsume(m))]
  }

  lemma ThreeKeySteps(w: World, m: nat, k: Id, secret: Secret)
    ensures Steps(w, KeyActions(m, k, secret))
         == ManualConsumeStep(ManualCheckStep(ManualLookupStep(w, m, k, secret), m), m)
  {
    hide ManualLookupStep, ManualCheckStep, ManualConsumeStep;
    var actions := KeyActions(m, k, secret);
    assert actions[..2] == [actions[0], actions[1]];
    TwoSteps(w, actions[0], actions[1]);
  }

  lemma KeyStepsAccept(w: World, m: nat, k: Id)
    requires InUse(w.db, k) && w.db.apiKeys[k].kind != Session && m !in w.manuals
    ensures var secret := w.db.apiKeys[k].keyHash.secret;
            var v := ManualConsumeStep(ManualCheckStep(ManualLookupStep(w, m, k, secret), m), m);
            && m in v.manuals && v.manuals[m] == ManualCall(k, Concluded(true))
            && v.log == w.log + (if w.db.apiKeys[k].kind == OneTime then [OneTimeConsumed(k, m)] else [])
            && v.db == w.db.(apiKeys := if w.db.apiKeys[k].kind == OneTime
                                        then w.db.apiKeys[k := w.db.apiKeys[k].(status := Used)] else w.db.apiKeys)
  {
    hide Banned;
  }

  /** In every run, a key in use is accepted by the statements of its authentication, and only a one-time key is
      used up by it. */
  lemma KeyInUseIsAccepted(now: int, actions: seq<Action>, m: nat, k: Id)
    requires var w := Exec(now, actions);
             InUse(w.db, k) && w.db.apiKeys[k].kind != Session && m !in w.manuals
    ensures var w := Exec(now, actions);
            var v := Exec(now, actions + KeyActions(m, k, w.db.apiKeys[k].keyHash.secret));
            && m in v.manuals && v.manuals[m] == ManualCall(k, Concluded(true))
            && v.log == w.log + (if w.db.apiKeys[k].kind == OneTime then [OneTimeConsumed(k, m)] else [])
            && v.db == w.db.(apiKeys := if w.db.apiKeys[k].kind == OneTime
                                        then w.db.apiKeys[k := w.db.apiKeys[k].(status := Used)] else w.db.apiKeys)
  {
    hide Exec, Steps, KeyActions, InUse, ManualLookupStep, ManualCheckStep, ManualConsumeStep;
    var w := Exec(now, actions);
    assert k in w.db.apiKeys by { KeyInUseExists(w.db, k); }
    var secret := w.db.apiKeys[k].keyHash.secret;
    ExecThenSteps(now, actions, KeyActions(m, k, secret));
    ThreeKeySteps(w, m, k, secret);
    KeyStepsAccept(w, m, k);
  }

  lemma KeyInUseExists(db: Db, k: Id)
    requires InUse(db, k)
    ensures k in db.apiKeys
  {
  }

  lemma LoginAuthenticates(w: World, owner: string, email: string)
    ensures var v := AuthenticateStep(LoginStep(w, owner, email, 15 * 60 * 60), w.db.nextId, w.db.nextId + 1);
            && v.claims == w.claims + {Claims(owner, None, w.db.nextId)} && v.polls == w.polls
            && v.db.bans == w.db.bans && v.db.now == w.db.now && v.db.devices == w.db.devices
            && v.db.nextId == w.db.nextId + 2
  {
    hide Banned;
  }

  lemma EnrolmentAdds(w: World, owner: string, name: string, publicKey: string, keyType: string)
    requires NameFree(w.db, owner, name)
    ensures var v := EnrolStep(w, owner, name, publicKey, keyType);
            && v.claims == w.claims && v.polls == w.polls && v.db.bans == w.db.bans && v.db.now == w.db.now
            && v.db.devices == w.db.devices[w.db.nextId := Device(owner, name, publicKey, keyType, None)]
  {
  }

  /** The owner has logged in and been authenticated, and has a new device. */
  predicate Entered(w: World, v: World, owner: string, device: Device) {
    && v.claims == w.claims + {Claims(owner, None, w.db.nextId)} && v.polls == w.polls
    && v.db.bans == w.db.bans && v.db.now == w.db.now
    && v.db.devices == w.db.devices[w.db.nextId + 2 := device]
  }

  /** Login, authentication and enrolment, with the next free id. */
  function EntryActions(n: Id, owner: string, email: string, name: string, publicKey: string, keyType: string)
    : seq<Action>
  {
    [OnKeys(Login(owner, email, 15 * 60 * 60)), OnKeys(Authenticate(n, n + 1))]
    + [OnDevices(Enrol(owner, name, publicKey, keyType))]
  }

  predicate NameFree(db: Db, owner: string, name: string) {
    forall d | d in db.devices :: db.devices[d].owner != owner || db.devices[d].name != name
  }

  lemma ThreeStepsEnter(w: World, owner: string, email: string, name: string, publicKey: string, keyType: string)
    requires NameFree(w.db, owner, name)
    ensures Entered(w, Steps(w, EntryActions(w.db.nextId, owner, email, name, publicKey, keyType)), owner,
                    Device(owner, name, publicKey, keyType, None))
  {
    hide Steps, LoginStep, AuthenticateStep, EnrolStep;
    var entering := [OnKeys(Login(owner, email, 15 * 60 * 60)), OnKeys(Authenticate(w.db.nextId, w.db.nextId + 1))];
    TwoSteps(w, entering[0], entering[1]);
    OneMoreStep(w, entering, OnDevices(Enrol(owner, name, publicKey, keyType)));
    LoginAuthenticates(w, owner, email);
    EnrolmentAdds(Steps(w, entering), owner, name, publicKey, keyType);
  }

  /** In every run, an owner logs in and enrols a device under a new name. */
  lemma OwnerEnrols(now: int, actions: seq<Action>, owner: string, email: string, name: string, publicKey: string,
                    keyType: string)
    requires NameFree(Exec(now, actions).db, owner, name)
    ensures var w := Exec(now, actions);
            var v := Exec(now, actions + EntryActions(w.db.nextId, owner, email, name, publicKey, keyType));
            Entered(w, v, owner, Device(owner, name, publicKey, keyType, None))
  {
    hide Exec, Steps, EntryActions, Entered, NameFree;
    var w := Exec(now, actions);
    ExecThenSteps(now, actions, EntryActions(w.db.nextId, owner, email, name, publicKey, keyType));
    ThreeStepsEnter(w, owner, email, name, publicKey, keyType);
  }

  lemma TickIs(w: World, secs: nat)
    ensures Step(w, OnTables(Tick(secs))) == w.(db := w.db.(now := w.db.now + secs))
  {
  }

  /** Time passes as asked, and changes nothing else. */
  lemma TimePasses(now: int, actions: seq<Action>, secs: nat)
    ensures var w := Exec(now, actions);
            Exec(now, actions + [OnTables(Tick(secs))]) == w.(db := w.db.(now := w.db.now + secs))
  {
    hide Step;
    assert (actions + [OnTables(Tick(secs))])[..|actions|] == actions;
    TickIs(Exec(now, actions), secs);
  }
}
