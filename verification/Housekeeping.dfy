/** The background cleanup: which rows it changes, and what requests can tell of it. */
module Housekeeping {
  import opened Basics
  import opened Policy
  import opened Bans
  import opened Tables
  import opened Sessions
  import opened Credentials
  import opened Entries
  import opened Handlers
  import opened Effects
  import opened Access

  /** The tables after a cleanup: each table's expired rows are dropped or marked, independently. */
  function Cleaned(db: Db): Db {
    db.(kv := DropKvEntries(db).kv, approvals := LapseOld(db).approvals, requests := ExpireRequests(db).requests,
        challenges := DropChallenges(db).challenges, proposals := TimeOutProposals(db).proposals,
        bans := ClearExpired(db.bans, db.now))
  }

  /** A cleanup changes the answer of no read: what it drops or marks was already out of date. */
  lemma CleanupChangesNoRead(db: Db, base: nat, c: Claims, allowed: Option<seq<string>>, key: string)
    ensures AdminRead(Cleaned(db), base, c, key).0 == AdminRead(db, base, c, key).0
    ensures GetEntry(Cleaned(db), base, c, allowed, key).0 == GetEntry(db, base, c, allowed, key).0
  {
    hide AuthorizeCaller, LapseOld, ExpireRequests, DropChallenges, TimeOutProposals, ClearExpired;
    CleanupKeepsChecks(db, base, c, key);
    PassedCheckChangesNothing(db, base, c, key);
    PassedCheckChangesNothing(Cleaned(db), base, c, key);
  }

  lemma CleanupKeepsChecks(db: Db, base: nat, c: Claims, key: string)
    ensures AuthorizeCaller(Cleaned(db), base, c, key).0 == AuthorizeCaller(db, base, c, key).0
  {
    hide LapseOld, ExpireRequests, DropChallenges, TimeOutProposals, DropKvEntries, KeyPermitted;
  }

  // ---------------------------------------------------------------- which rows change

  /** Approvals, requests and proposals that are open past their end are marked, and no others. */
  lemma OnlyOverdueRowsAreMarked(db: Db, x: Id)
    ensures var after := Cleaned(db);
            && (x in after.approvals <==> x in db.approvals)
            && (x in db.approvals ==>
                  after.approvals[x] == if db.approvals[x].status == Open && db.approvals[x].expiresAt <= db.now
                                        then db.approvals[x].(status := Lapsed) else db.approvals[x])
            && (x in after.requests <==> x in db.requests)
            && (x in db.requests ==>
                  after.requests[x] == if db.requests[x].status == Waiting && db.requests[x].expiresAt <= db.now
                                       then db.requests[x].(status := Expired) else db.requests[x])
            && (x in after.proposals <==> x in db.proposals)
            && (x in db.proposals ==>
                  after.proposals[x] == if db.proposals[x].status == Proposed && db.proposals[x].expiresAt <= db.now
                                        then db.proposals[x].(status := TimedOut) else db.proposals[x])
  {
    hide DropChallenges, DropKvEntries, ClearExpired;
  }

  /** Challenges and entries past their end are dropped, and no others. */
  lemma OnlyOverdueRowsAreDropped(db: Db, x: Id, e: EntryKey)
    ensures var after := Cleaned(db);
            && (x in after.challenges <==> x in db.challenges && db.now < db.challenges[x].expiresAt)
            && (x in after.challenges ==> after.challenges[x] == db.challenges[x])
            && (e in after.kv <==> e in db.kv && (db.kv[e].expiresAt.Some? ==> db.now < db.kv[e].expiresAt.value))
            && (e in after.kv ==> after.kv[e] == db.kv[e])
  {
    hide LapseOld, ExpireRequests, TimeOutProposals, ClearExpired;
  }

  /** A ban that is over is lifted, and no other; its count is kept, and nobody's standing changes. */
  lemma OnlyOverdueBansAreLifted(db: Db, d: Id)
    ensures var after := Cleaned(db);
            && (d in after.bans <==> d in db.bans)
            && (d in db.bans ==>
                  && after.bans[d].banCount == db.bans[d].banCount
                  && (after.bans[d].bannedAt.None? <==>
                        db.bans[d].bannedAt.None? || (db.bans[d].unbanAt.Some? && db.bans[d].unbanAt.value <= db.now))
                  && (after.bans[d].bannedAt.Some? ==> after.bans[d] == db.bans[d]))
            && (Banned(after.bans, d, db.now) <==> Banned(db.bans, d, db.now))
  {
    hide LapseOld, ExpireRequests, TimeOutProposals, DropChallenges, DropKvEntries;
  }

  // ---------------------------------------------------------------- what requests can tell

  lemma CleanupKeepsGuards(db: Db, c: Claims)
    ensures RestrictedCaller(Cleaned(db), c) == RestrictedCaller(db, c)
  {
    hide IsRestricted, LapseOld, ExpireRequests, TimeOutProposals, DropChallenges, DropKvEntries, ClearExpired;
  }

  /** Two states of the tables in which a credential has the same row and its device the same standing. */
  predicate SameStanding(db: Db, after: Db, k: Id) {
    && after.now == db.now && (k in after.apiKeys <==> k in db.apiKeys)
    && (k in db.apiKeys ==>
          && after.apiKeys[k] == db.apiKeys[k]
          && (db.apiKeys[k].device.Some? ==>
                (Banned(after.bans, db.apiKeys[k].device.value, db.now)
                 <==> Banned(db.bans, db.apiKeys[k].device.value, db.now))))
  }

  lemma SameStandingSameSession(db: Db, after: Db, k: Id, secret: Secret)
    requires SameStanding(db, after, k)
    ensures AdminAuth(after, k, secret) == AdminAuth(db, k, secret)
    ensures AuthBearer(after, k, secret) == AuthBearer(db, k, secret)
  {
    hide Banned;
  }

  lemma SameStandingSameKey(db: Db, after: Db, k: Id, secret: Secret)
    requires SameStanding(db, after, k)
    ensures AuthManual(after, k, secret).0 == AuthManual(db, k, secret).0
  {
    hide Banned, ConsumeKey;
  }

  lemma CleanupKeepsStanding(db: Db, k: Id)
    ensures SameStanding(db, Cleaned(db), k)
  {
    hide Banned, LapseOld, ExpireRequests, TimeOutProposals, DropChallenges, DropKvEntries, ClearExpired;
    if k in db.apiKeys && db.apiKeys[k].device.Some? { OnlyOverdueBansAreLifted(db, db.apiKeys[k].device.value); }
  }

  /** Every credential is answered as before the cleanup. */
  lemma CleanupChangesNoAuthentication(db: Db, k: Id, secret: Secret)
    ensures Answers(Cleaned(db), k, secret) == Answers(db, k, secret)
  {
    hide SameStanding, Cleaned, AdminAuth, AuthBearer, AuthManual;
    CleanupKeepsStanding(db, k);
    SameStandingSameSession(db, Cleaned(db), k, secret);
    SameStandingSameKey(db, Cleaned(db), k, secret);
  }

  /** An approval of a key is answered as before, and the same keys are active after it. */
  lemma CleanupChangesNoApproval(db: Db, c: Claims, a: Id, confirm: Secret)
    ensures ApproveKey(Cleaned(db), c, a, confirm).0 == ApproveKey(db, c, a, confirm).0
    ensures ApproveKey(Cleaned(db), c, a, confirm).1.apiKeys == ApproveKey(db, c, a, confirm).1.apiKeys
  {
    hide RestrictedCaller, LapseOld, ExpireRequests, TimeOutProposals, DropChallenges, DropKvEntries, ClearExpired;
    CleanupKeepsGuards(db, c);
    OnlyOverdueRowsAreMarked(db, a);
  }

  /** Two states of the tables that an approval of the request cannot tell apart. */
  predicate SameForApproval(db: Db, after: Db, c: Claims, r: Id) {
    && after.now == db.now && after.devices == db.devices && after.apiKeys == db.apiKeys
    && after.nextId == db.nextId && RestrictedCaller(after, c) == RestrictedCaller(db, c)
    && (RequestOpen(after, r) <==> RequestOpen(db, r))
    && (RequestOpen(db, r) ==>
          && after.requests[r] == db.requests[r]
          && (db.requests[r].device.Some? ==>
                (Banned(after.bans, db.requests[r].device.value, db.now)
                 <==> Banned(db.bans, db.requests[r].device.value, db.now))))
  }

  lemma SameApproval(db: Db, after: Db, c: Claims, r: Id, token: Secret, hours: Option<int>)
    requires SameForApproval(db, after, c, r)
    ensures ApproveSession(after, c, r, token, hours).0 == ApproveSession(db, c, r, token, hours).0
  {
    hide RestrictedCaller, Banned, WrapForDevice, HoursFromNow, RequestOpen, ColumnsOf;
    OpenExists(db, r);
  }

  lemma ApprovedKeys(db: Db, c: Claims, r: Id, token: Secret, hours: Option<int>)
    ensures var (answer, after) := ApproveSession(db, c, r, token, hours);
            && (answer.Ok? ==> r in db.requests && db.requests[r].device.Some?)
            && after.apiKeys == if answer.Err? then db.apiKeys
                                else db.apiKeys[db.nextId :=
                                       ApiKey(Digest(db.nextId + 1), "session", Session, Active,
                                              HoursFromNow(db.now, HoursGranted(hours)), c.owner, db.requests[r].device)]
  {
    hide RestrictedCaller, Banned, WrapForDevice, HoursFromNow, RequestOpen, ColumnsOf;
    OpenExists(db, r);
  }

  lemma OpenIfApproved(db: Db, c: Claims, r: Id, token: Secret, hours: Option<int>)
    requires ApproveSession(db, c, r, token, hours).0.Ok?
    ensures RequestOpen(db, r)
  {
    hide RestrictedCaller, Banned, WrapForDevice, HoursFromNow, RequestOpen, ColumnsOf;
  }

  lemma SameKeysAfterApproval(db: Db, after: Db, c: Claims, r: Id, token: Secret, hours: Option<int>)
    requires SameForApproval(db, after, c, r)
    ensures ApproveSession(after, c, r, token, hours).1.apiKeys == ApproveSession(db, c, r, token, hours).1.apiKeys
  {
    hide ApproveSession, RestrictedCaller, Banned, RequestOpen, HoursFromNow, HoursGranted;
    SameApproval(db, after, c, r, token, hours);
    ApprovedKeys(db, c, r, token, hours);
    ApprovedKeys(after, c, r, token, hours);
    if ApproveSession(db, c, r, token, hours).0.Ok? { OpenIfApproved(db, c, r, token, hours); }
  }

  lemma OpenExists(db: Db, r: Id)
    ensures RequestOpen(db, r) ==> r in db.requests
  {
  }

  /** So is an approval of a session, and the same credential is minted. */
  lemma CleanupChangesNoSessionApproval(db: Db, c: Claims, r: Id, token: Secret, hours: Option<int>)
    ensures ApproveSession(Cleaned(db), c, r, token, hours).0 == ApproveSession(db, c, r, token, hours).0
    ensures ApproveSession(Cleaned(db), c, r, token, hours).1.apiKeys
         == ApproveSession(db, c, r, token, hours).1.apiKeys
  {
    hide ApproveSession, RestrictedCaller, Banned, LapseOld, ExpireRequests, TimeOutProposals, DropChallenges,
      DropKvEntries, ClearExpired;
    CleanupKeepsGuards(db, c);
    OnlyOverdueRowsAreMarked(db, r);
    if r in db.requests && db.requests[r].device.Some? { OnlyOverdueBansAreLifted(db, db.requests[r].device.value); }
    SameApproval(db, Cleaned(db), c, r, token, hours);
    SameKeysAfterApproval(db, Cleaned(db), c, r, token, hours);
  }

  /** So is the answer to a challenge. */
  lemma CleanupChangesNoRequest(db: Db, x: Id, nonce: Secret)
    ensures CreateRequest(Cleaned(db), x, nonce).0 == CreateRequest(db, x, nonce).0
  {
    hide Banned, LapseOld, ExpireRequests, TimeOutProposals, DropChallenges, DropKvEntries, ClearExpired;
    OnlyOverdueRowsAreDropped(db, x, ("", ""));
    if x in db.challenges { OnlyOverdueBansAreLifted(db, db.challenges[x].device); }
  }

  predicate OverdueRequest(db: Db, r: Id) {
    r in db.requests && db.requests[r].status == Waiting && db.requests[r].expiresAt <= db.now
  }

  /** A poll is told that its request has expired where it was waiting before, if it is overdue; every other poll is
      answered as before. */
  lemma PollNoticesExpiry(db: Db, r: Id, secret: Secret)
    ensures Poll(Cleaned(db), r, secret).0
         == if OverdueRequest(db, r) && Poll(db, r, secret).0.Ok? then Ok(PollAnswer(Expired, None))
            else Poll(db, r, secret).0
  {
    hide Banned, EnvelopeOf, LapseOld, ExpireRequests, TimeOutProposals, DropChallenges, DropKvEntries, ClearExpired;
    OnlyOverdueRowsAreMarked(db, r);
    if r in db.requests && db.requests[r].device.Some? { OnlyOverdueBansAreLifted(db, db.requests[r].device.value); }
  }

  /** No rejection looks at the end of its row. So a cleanup can be told from it exactly by its finding no overdue row
      any more. */
  lemma DecisionsNoticeCleanup(db: Db, c: Claims, x: Id)
    ensures RejectSession(Cleaned(db), c, x).0
         == if OverdueRequest(db, x) && MayManageCredentials(db, c) then Err(NotFound) else RejectSession(db, c, x).0
    ensures RejectKey(Cleaned(db), c, x).0
         == if x in db.approvals && db.approvals[x].status == Open && db.approvals[x].expiresAt <= db.now
               && MayManageCredentials(db, c) then Err(NotFound) else RejectKey(db, c, x).0
  {
    hide RestrictedCaller, LapseOld, ExpireRequests, TimeOutProposals, DropChallenges, DropKvEntries, ClearExpired,
      DeclineApproval;
    CleanupKeepsGuards(db, c);
    OnlyOverdueRowsAreMarked(db, x);
    DecliningShows(db, c.owner, x);
    DecliningShows(Cleaned(db), c.owner, x);
  }

  predicate OverdueProposal(db: Db, p: Id) {
    p in db.proposals && db.proposals[p].status == Proposed && db.proposals[p].expiresAt <= db.now
  }

  /** Nor does a link: after a cleanup exactly the overdue proposals are refused that would have been linked. */
  lemma LinkingNoticesCleanup(db: Db, c: Claims, p: Id, token: Secret, device: Id)
    ensures LinkProposed(Cleaned(db), c, p, token, device).0
         == if OverdueProposal(db, p) && MayManageCredentials(db, c) then Err(NotFound)
            else LinkProposed(db, c, p, token, device).0
  {
    hide RestrictedCaller, LapseOld, ExpireRequests, TimeOutProposals, DropChallenges, DropKvEntries, ClearExpired;
    CleanupKeepsGuards(db, c);
    OnlyOverdueRowsAreMarked(db, p);
  }

  predicate OverdueEntry(db: Db, owner: string, key: string) {
    (key, owner) in db.kv && db.kv[(key, owner)].expiresAt.Some? && db.kv[(key, owner)].expiresAt.value <= db.now
  }

  /** An overdue entry can still be deleted, once, until the cleanup drops it. */
  lemma DeletionNoticesCleanup(db: Db, base: nat, c: Claims, key: string)
    requires AuthorizeCaller(db, base, c, key).0.Ok?
    ensures AdminDelete(Cleaned(db), base, c, key).0
         == if OverdueEntry(db, c.owner, key) then Err(NotFound) else AdminDelete(db, base, c, key).0
  {
    hide AuthorizeCaller, LapseOld, ExpireRequests, TimeOutProposals, DropChallenges, DropKvEntries, ClearExpired;
    CleanupKeepsChecks(db, base, c, key);
    OnlyOverdueRowsAreDropped(db, 0, (key, c.owner));
  }
}
