/** That the session-request protocol works: a device that follows it gets its session, and each of its polls
    is told how its request stands. */
module Delivery {
  import opened Basics
  import opened Policy
  import opened Bans
  import opened Tables
  import opened Sessions
  import opened Credentials
  import opened Integrity
  import opened Audit
  import opened AuditInvariant
  import opened Runs
  import opened Guarantees
  import opened Handlers
  import opened Finality

  // ---------------------------------------------------------------- the time limits

  predicate SupportedType(keyType: string) { keyType == "x25519" || keyType == "p256" }

  /** A challenge is issued exactly for an existing device with a supported key type. */
  lemma ChallengeIsIssuedExactly(db: Db, d: Id)
    ensures CreateChallenge(db, d).0.Ok? <==> d in db.devices && SupportedType(db.devices[d].keyType)
  {
  }

  /** While the challenge stays as it was issued and its device is not banned, the nonce that its envelope holds
      answers it exactly for two minutes. */
  lemma ChallengeWindow(db: Db, d: Id, mid: Db)
    requires CreateChallenge(db, d).0.Ok?
    requires var c := CreateChallenge(db, d).0.value.0;
             c in mid.challenges && c in CreateChallenge(db, d).1.challenges
             && mid.challenges[c] == CreateChallenge(db, d).1.challenges[c]
    requires !Banned(mid.bans, d, mid.now)
    ensures var (c, envelope) := CreateChallenge(db, d).0.value;
            CreateRequest(mid, c, Opened(envelope).1).0.Ok? <==> mid.now < db.now + 120
  {
    hide Banned;
  }

  /** An answered challenge is answered no second time, whatever the nonce. */
  lemma ChallengeIsAnsweredOnce(mid: Db, c: Id, nonce: Secret, late: Db, other: Secret)
    requires CreateRequest(mid, c, nonce).0.Ok?
    requires c in late.challenges && c in CreateRequest(mid, c, nonce).1.challenges
             && late.challenges[c] == CreateRequest(mid, c, nonce).1.challenges[c]
    ensures CreateRequest(late, c, other) == (Err(NotFound), late)
  {
    hide Banned;
  }

  /** A request, its ticket and the device that has to be approved. */
  predicate RequestKept(mid: Db, c: Id, nonce: Secret, late: Db)
    requires CreateRequest(mid, c, nonce).0.Ok?
  {
    var (ticket, after) := (CreateRequest(mid, c, nonce).0.value, CreateRequest(mid, c, nonce).1);
    ticket.request in late.requests && ticket.request in after.requests
    && late.requests[ticket.request] == after.requests[ticket.request]
  }

  lemma OpenedRequestIs(mid: Db, c: Id, nonce: Secret)
    requires CreateRequest(mid, c, nonce).0.Ok?
    ensures var (ticket, after) := (CreateRequest(mid, c, nonce).0.value, CreateRequest(mid, c, nonce).1);
            && c in mid.challenges && ticket.request in after.requests
            && after.requests[ticket.request]
               == SessionRequest(Waiting, mid.now + 900, Some(Digest(ticket.pollSecret)),
                                 Some(mid.challenges[c].device),
                                 Digest(ticket.approveToken), None, None, NO_WRAP)
  {
    hide Banned;
  }

  /** While the request stays as it was opened, its approval succeeds exactly for fifteen minutes, with the token
      of the ticket, by the owner of an unbanned device with a supported key type; a restricted device approves
      for itself only. */
  lemma RequestWindow(mid: Db, c: Id, nonce: Secret, late: Db, caller: Claims, token: Secret, hours: Option<int>)
    requires CreateRequest(mid, c, nonce).0.Ok? && RequestKept(mid, c, nonce, late)
    ensures var ticket := CreateRequest(mid, c, nonce).0.value;
            var d := mid.challenges[c].device;
            ApproveSession(late, caller, ticket.request, token, hours).0.Ok? <==>
              && late.now < mid.now + 15 * 60 && token == ticket.approveToken
              && d in late.devices && late.devices[d].owner == caller.owner
              && SupportedType(late.devices[d].keyType) && !Banned(late.bans, d, late.now)
              && (MayManageCredentials(late, caller) || caller.device == Some(d))
  {
    OpenedRequestIs(mid, c, nonce);
    hide Banned, IsRestricted, CreateRequest, HoursFromNow;
  }

  // ---------------------------------------------------------------- polling

  /** From the approval on, the first poll with the poll secret hands out the envelope, the device opens it to
      the secret of its session, and the session authenticates at once unless it was approved for no time. */
  lemma ApprovedSessionReachesTheDevice(db: Db, caller: Claims, r: Id, token: Secret, hours: Option<int>, secret: Secret)
    requires ApproveSession(db, caller, r, token, hours).0.Ok? && hours != Some(0)
    requires db.requests[r].pollSecret == Some(Digest(secret))
    ensures var (k, approved) := (ApproveSession(db, caller, r, token, hours).0.value,
                                  ApproveSession(db, caller, r, token, hours).1);
            var (answer, delivered) := Poll(approved, r, secret);
            && r in db.requests && db.requests[r].device.Some?
            && answer.Ok? && answer.value.status == Approved && answer.value.envelope.Some?
            && var d := db.requests[r].device.value;
               var (publicKey, session) := Opened(answer.value.envelope.value);
               && d in db.devices && publicKey == db.devices[d].publicKey
               && AdminAuth(delivered, k, session) == Ok(Claims(caller.owner, Some(d), k))
               && AuthBearer(delivered, k, session) == Ok(Claims(caller.owner, Some(d), k))
  {
    hide Banned, IsRestricted;
  }

  /** After the first poll that gets the envelope every poll is told that it has been delivered. */
  lemma DeliveredRequestSaysSo(db: Db, r: Id, secret: Secret)
    requires Poll(db, r, secret).0.Ok? && Poll(db, r, secret).0.value.envelope.Some?
    ensures var delivered := Poll(db, r, secret).1;
            Poll(delivered, r, secret) == (Ok(PollAnswer(Delivered, None)), delivered)
  {
    hide Banned, MarkDelivered, EnvelopeOf;
    assert db.requests[r].status == Approved;
    DeliveredRow(db, r);
  }

  lemma DeliveredRow(db: Db, r: Id)
    requires r in db.requests && db.requests[r].status == Approved
    ensures var after := MarkDelivered(db, r);
            && after.bans == db.bans && after.now == db.now && r in after.requests
            && after.requests[r].status == Delivered && after.requests[r].device == db.requests[r].device
            && after.requests[r].pollSecret == db.requests[r].pollSecret
  {
  }

  // ---------------------------------------------------------------- polling in every run

  /** The approvals of the log seal the secrets of the credentials that they minted. */
  ghost predicate SealsMatch(w: World) {
    forall x | x in w.log && x.SessionApproved? && x.key in w.db.apiKeys :: SealsItsKey(w.db, x)
  }

  lemma StepKeepsSeals(w: World, v: World)
    requires Sound(w) && SealsMatch(w) && StepEvolves(w, v)
    ensures SealsMatch(v)
  {
    hide Intact, TablesEvolve, LogSound, DevicesLogged, OwnersLogged, KeysLogged, ClaimsLogged, ChallengesLogged,
      RequestsLogged, ConsumedAreUsed, PollsSound, ManualsSound, ChosenKinds;
    forall x | x in v.log && x.SessionApproved? && x.key in v.db.apiKeys ensures SealsItsKey(v.db, x) {
      if x in w.log {
        assert x.key < w.db.nextId;
      } else {
        assert Approves(x, x.request);
      }
    }
  }

  lemma {:induction false} SealsMatchInRun(now: int, actions: seq<Action>)
    ensures SealsMatch(Exec(now, actions))
  {
    if actions != [] {
      hide SealsMatch, Step, Sound, StepEvolves;
      var shorter := actions[..|actions| - 1];
      SealsMatchInRun(now, shorter);
      RunIsSound(now, shorter);
      EveryStepEvolves(Exec(now, shorter), actions[|actions| - 1]);
      StepKeepsSeals(Exec(now, shorter), Exec(now, actions));
    }
  }

  /** The statements of one poll. */
  function PollActions(p: nat, r: Id, secret: Secret): seq<Action> {
    [OnProtocol(PollRead(p, r, secret)), OnProtocol(PollCheck(p)), OnProtocol(PollClaim(p))]
  }

  predicate UnbannedFor(db: Db, row: SessionRequest) {
    row.device.Some? ==> !Banned(db.bans, row.device.value, db.now)
  }

  lemma PollRuns(w: World, p: nat, r: Id, secret: Secret)
    requires p !in w.polls && r in w.db.requests && w.db.requests[r].pollSecret == Some(Digest(secret))
    requires UnbannedFor(w.db, w.db.requests[r])
    ensures var v := Steps(w, PollActions(p, r, secret));
            var row := w.db.requests[r];
            p in v.polls && v.polls[p]
              == PollCall(r, Answered(if row.status != Approved then Ok(PollAnswer(row.status, None))
                                      else AnswerPoll(row, true)))
  {
    hide PollReadStep, PollCheckStep, PollClaimStep, AnswerPoll, UnbannedFor, Steps;
    var read := PollReadStep(w, p, r, secret);
    var checked := PollCheckStep(read, p);
    ThreePollSteps(w, p, r, secret);
    FirstPollStep(w, p, r, secret);
    SecondPollStep(read, p);
    if w.db.requests[r].status == Approved { ThirdPollStep(checked, p); } else { AnsweredStays(checked, p); }
  }

  lemma ThreePollSteps(w: World, p: nat, r: Id, secret: Secret)
    ensures Steps(w, PollActions(p, r, secret)) == PollClaimStep(PollCheckStep(PollReadStep(w, p, r, secret), p), p)
  {
    hide PollReadStep, PollCheckStep, PollClaimStep;
    var actions := PollActions(p, r, secret);
    assert actions[..2] == [actions[0], actions[1]] && |actions| == 3;
    TwoSteps(w, actions[0], actions[1]);
  }

  lemma FirstPollStep(w: World, p: nat, r: Id, secret: Secret)
    requires p !in w.polls && r in w.db.requests && w.db.requests[r].pollSecret == Some(Digest(secret))
    ensures var v := PollReadStep(w, p, r, secret);
            v.db == w.db && p in v.polls && v.polls[p] == PollCall(r, RowRead(w.db.requests[r]))
  {
  }

  lemma SecondPollStep(w: World, p: nat)
    requires p in w.polls && w.polls[p].stage.RowRead? && UnbannedFor(w.db, w.polls[p].stage.row)
    ensures var v := PollCheckStep(w, p);
            var (r, row) := (w.polls[p].request, w.polls[p].stage.row);
            && v.db == w.db && p in v.polls
            && v.polls[p] == PollCall(r, if row.status == Approved then BanChecked(row)
                                         else Answered(Ok(PollAnswer(row.status, None))))
  {
    hide Banned;
  }

  lemma ThirdPollStep(w: World, p: nat)
    requires p in w.polls && w.polls[p].stage.BanChecked? && Claimable(w.db, w.polls[p].request)
    ensures var v := PollClaimStep(w, p);
            p in v.polls && v.polls[p] == PollCall(w.polls[p].request, Answered(AnswerPoll(w.polls[p].stage.row, true)))
  {
    hide AnswerPoll, MarkDelivered;
  }

  lemma AnsweredStays(w: World, p: nat)
    requires p in w.polls && w.polls[p].stage.Answered?
    ensures PollClaimStep(w, p) == w
  {
  }

  /** In every run: the statements of a poll with the poll secret, one after another, for an unbanned device,
      hand out exactly the envelope that the approval sealed, and it opens to the secret of the credential that
      the approval minted, for as long as this exists. */
  lemma ApprovedRequestIsDelivered(now: int, actions: seq<Action>, p: nat, r: Id, secret: Secret)
    requires var w := Exec(now, actions);
             && p !in w.polls && r in w.db.requests && w.db.requests[r].pollSecret == Some(Digest(secret))
             && w.db.requests[r].status == Approved && UnbannedFor(w.db, w.db.requests[r])
    ensures var (w, v) := (Exec(now, actions), Exec(now, actions + PollActions(p, r, secret)));
            p in v.polls && exists x | x in w.log ::
              && Approves(x, r)
              && v.polls[p] == PollCall(r, Answered(Ok(PollAnswer(Approved, Some(x.envelope)))))
              && (x.key in w.db.apiKeys ==> w.db.apiKeys[x.key].keyHash == Digest(Opened(x.envelope).1))
  {
    hide Exec, PollActions, Intact, AuditSound, UnbannedFor;
    var w := Exec(now, actions);
    RunIsSound(now, actions);
    SealsMatchInRun(now, actions);
    ExecThenSteps(now, actions, PollActions(p, r, secret));
    PollRuns(w, p, r, secret);
    assert RequestLogged(w.log, r, w.db.requests[r]);
    var x :| x in w.log && Approves(x, r) && w.db.requests[r].wrap == ColumnsOf(x.envelope);
  }

  /** A request in any other state is reported as it is. */
  lemma OtherStatusIsReported(now: int, actions: seq<Action>, p: nat, r: Id, secret: Secret)
    requires var w := Exec(now, actions);
             && p !in w.polls && r in w.db.requests && w.db.requests[r].pollSecret == Some(Digest(secret))
             && w.db.requests[r].status != Approved && UnbannedFor(w.db, w.db.requests[r])
    ensures var (w, v) := (Exec(now, actions), Exec(now, actions + PollActions(p, r, secret)));
            && p in v.polls
            && v.polls[p] == PollCall(r, Answered(Ok(PollAnswer(w.db.requests[r].status, None))))
  {
    hide Exec, PollActions, UnbannedFor;
    ExecThenSteps(now, actions, PollActions(p, r, secret));
    PollRuns(Exec(now, actions), p, r, secret);
  }

  /** A poll that has read the envelope and finds it claimed by another poll is told that it has been delivered,
      and gets nothing. */
  lemma LostClaimIsDelivered(w: World, p: nat)
    requires p in w.polls && w.polls[p].stage.BanChecked? && w.polls[p].stage.row.status == Approved
    requires w.polls[p].request !in w.db.requests || w.db.requests[w.polls[p].request].status != Approved
    ensures var v := Step(w, OnProtocol(PollClaim(p)));
            && p in v.polls && v.polls[p].stage == Answered(Ok(PollAnswer(Delivered, None)))
            && v.db == w.db && v.log == w.log
  {
  }

  /** Without the poll secret a poll finds nothing, and while the device is banned it is refused; neither changes
      anything. */
  lemma RefusedPolls(db: Db, r: Id, secret: Secret)
    ensures r !in db.requests || db.requests[r].pollSecret != Some(Digest(secret)) ==>
              Poll(db, r, secret) == (Err(NotFound), db)
    ensures (r in db.requests && db.requests[r].pollSecret == Some(Digest(secret))
             && !UnbannedFor(db, db.requests[r])) ==>
              Poll(db, r, secret) == (Err(DeviceBanned), db)
  {
    hide Banned;
  }
}
