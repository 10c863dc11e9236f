/** What the holder of a credential can do with it, from its mint to its end. */
module Access {
  import opened Basics
  import opened Policy
  import opened Bans
  import opened Tables
  import opened Sessions
  import opened Credentials
  import opened Integrity
  import opened Entries
  import opened Handlers
  import opened Effects

  // ---------------------------------------------------------------- which path takes which credential

  /** The credential is in use: active, not over, and its device is not banned. */
  predicate InUse(db: Db, k: Id) {
    && k in db.apiKeys && db.apiKeys[k].status == Active
    && (db.apiKeys[k].expiresAt.None? || db.now < db.apiKeys[k].expiresAt.value)
    && (db.apiKeys[k].device.Some? ==> !Banned(db.bans, db.apiKeys[k].device.value, db.now))
  }

  /** With the right secret a credential in use is accepted as its owner and device: sessions by the cookie and the
      Bearer path, approval tokens by the cookie path, and everything but sessions as an `X-Api-Key`. */
  lemma KindDecidesThePath(db: Db, k: Id)
    requires InUse(db, k)
    ensures var (row, secret, claims) :=
              (db.apiKeys[k], db.apiKeys[k].keyHash.secret, Claims(db.apiKeys[k].owner, db.apiKeys[k].device, k));
            && AdminAuth(db, k, secret)
               == (if row.kind == Session || row.kind == ApprovalToken then Ok(claims) else Err(Unauthorized))
            && AuthBearer(db, k, secret) == (if row.kind == Session then Ok(claims) else Err(Unauthorized))
            && AuthManual(db, k, secret).0 == (if row.kind == Session then Err(Unauthorized) else Ok(claims))
            && (row.kind != OneTime ==> AuthManual(db, k, secret).1 == db)
  {
    hide Banned, ConsumeKey;
    OnlyOneTimeIsConsumed(db, k);
  }

  /** A wrong secret is refused everywhere. */
  lemma WrongSecretIsRefused(db: Db, k: Id, secret: Secret)
    requires k in db.apiKeys ==> db.apiKeys[k].keyHash.secret != secret
    ensures RefusedEverywhere(db, k, secret) && AuthManual(db, k, secret).1 == db
  {
    hide Banned;
  }

  /** A credential that is over is refused: the two session paths tell that it is. */
  lemma OverIsRefused(db: Db, k: Id)
    requires k in db.apiKeys && db.apiKeys[k].status == Active
    requires db.apiKeys[k].expiresAt.Some? && db.apiKeys[k].expiresAt.value <= db.now
    ensures var (row, secret) := (db.apiKeys[k], db.apiKeys[k].keyHash.secret);
            && AdminAuth(db, k, secret)
               == Err(if row.kind == Session || row.kind == ApprovalToken then SessionExpired else Unauthorized)
            && AuthBearer(db, k, secret) == Err(if row.kind == Session then SessionExpired else Unauthorized)
            && AuthManual(db, k, secret) == (Err(Unauthorized), db)
  {
  }

  /** A credential of a banned device is told so on the paths that would take it, and is not used up. */
  lemma BannedIsTold(db: Db, k: Id)
    requires k in db.apiKeys && db.apiKeys[k].status == Active && db.apiKeys[k].device.Some?
    requires db.apiKeys[k].expiresAt.None? || db.now < db.apiKeys[k].expiresAt.value
    requires Banned(db.bans, db.apiKeys[k].device.value, db.now)
    ensures var (row, secret) := (db.apiKeys[k], db.apiKeys[k].keyHash.secret);
            && AdminAuth(db, k, secret)
               == Err(if row.kind == Session || row.kind == ApprovalToken then DeviceBanned else Unauthorized)
            && AuthBearer(db, k, secret) == Err(if row.kind == Session then DeviceBanned else Unauthorized)
            && AuthManual(db, k, secret) == (Err(if row.kind == Session then Unauthorized else DeviceBanned), db)
  {
    hide Banned, ConsumeKey;
  }

  /** A key that waits for its approval is told so, once its owner asks for it with the right secret. */
  lemma WaitingIsTold(db: Db, k: Id)
    requires k in db.apiKeys && db.apiKeys[k].status == PendingApproval
    requires db.apiKeys[k].expiresAt.None? || db.now < db.apiKeys[k].expiresAt.value
    ensures AuthManual(db, k, db.apiKeys[k].keyHash.secret)
         == (Err(if db.apiKeys[k].kind == ApprovalRequired then AwaitingApproval else Unauthorized), db)
  {
  }

  /** A one-time key is accepted once: right after it has been accepted it is refused everywhere. */
  lemma OneTimeKeyIsSpent(db: Db, k: Id)
    requires InUse(db, k) && db.apiKeys[k].kind == OneTime
    ensures var (r, after) := AuthManual(db, k, db.apiKeys[k].keyHash.secret);
            r.Ok? && RefusedEverywhere(after, k, db.apiKeys[k].keyHash.secret)
  {
    hide Banned, RefusedEverywhere;
    var after := ConsumeKey(db, k);
    assert k in after.apiKeys && after.apiKeys[k].status == Used;
    OutOfUseIsRefused(after, k, db.apiKeys[k].keyHash.secret);
  }

  // ---------------------------------------------------------------- how long a minted credential lives

  /** The row is as it was minted, and its device is not banned. */
  predicate MintKept(after: Db, k: Id, late: Db) {
    && k in after.apiKeys && k in late.apiKeys && late.apiKeys[k] == after.apiKeys[k]
    && (late.apiKeys[k].device.Some? ==> !Banned(late.bans, late.apiKeys[k].device.value, late.now))
  }

  /** What the cookie path answers to a credential that lives until `end`. */
  function LivesUntil(late: Db, c: Claims, k: Id, end: int): Result<Claims, AppError> {
    if late.now < end then Ok(Claims(c.owner, c.device, k)) else Err(SessionExpired)
  }

  lemma MintedLives(db: Db, name: string, kind: KeyKind, end: int, c: Claims, late: Db)
    requires MintKey(db, name, kind, Some(end), c.owner, c.device).Some? && (kind == Session || kind == ApprovalToken)
    requires MintKept(MintKey(db, name, kind, Some(end), c.owner, c.device).value, db.nextId, late)
    ensures AdminAuth(late, db.nextId, late.apiKeys[db.nextId].keyHash.secret) == LivesUntil(late, c, db.nextId, end)
  {
    hide Banned;
  }

  /** A command-line session authenticates its caller for exactly fifteen hours. */
  lemma SessionKeyLives(db: Db, c: Claims, late: Db)
    requires CreateSessionKey(db, c).0.Ok? && MintKept(CreateSessionKey(db, c).1, CreateSessionKey(db, c).0.value, late)
    ensures var k := CreateSessionKey(db, c).0.value;
            AdminAuth(late, k, late.apiKeys[k].keyHash.secret) == LivesUntil(late, c, k, db.now + 15 * 60 * 60)
  {
    hide AdminAuth, MintKey, MintKept, RestrictedCaller, RevokeSessions;
    var revoked := RevokeSessions(db, c.owner, Some(CLI_SESSION));
    RevokeKeepsTheRest(db, c.owner, Some(CLI_SESSION));
    MintedLives(revoked, CLI_SESSION, Session, db.now + 15 * 3600, c, late);
  }

  /** A command-line token authenticates its caller for exactly the days asked for, from one to seven, and for one
      day if none are asked for. */
  lemma CliTokenLives(db: Db, c: Claims, days: Option<int>, late: Db)
    requires CreateCliToken(db, c, days).0.Ok?
    requires MintKept(CreateCliToken(db, c, days).1, CreateCliToken(db, c, days).0.value, late)
    ensures var k := CreateCliToken(db, c, days).0.value;
            var lifetime := if days.None? || days.value <= 1 then 1 else if days.value >= 7 then 7 else days.value;
            AdminAuth(late, k, late.apiKeys[k].keyHash.secret)
            == LivesUntil(late, c, k, db.now + lifetime * 24 * 60 * 60)
  {
    hide AdminAuth, MintKey, MintKept, RestrictedCaller;
    MintedLives(db, "kv-cli", ApprovalToken, db.now + CliDays(days) * DAY, c, late);
  }

  /** A device token authenticates its caller for exactly 180 days. */
  lemma DeviceTokenLives(db: Db, c: Claims, late: Db)
    requires CreateDeviceToken(db, c).0.Ok?
    requires MintKept(CreateDeviceToken(db, c).1, CreateDeviceToken(db, c).0.value, late)
    ensures var k := CreateDeviceToken(db, c).0.value;
            AdminAuth(late, k, late.apiKeys[k].keyHash.secret) == LivesUntil(late, c, k, db.now + 180 * 24 * 60 * 60)
  {
    hide AdminAuth, MintKey, MintKept, RestrictedCaller;
    MintedLives(db, "kv-approver device", ApprovalToken, db.now + 180 * DAY, c, late);
  }

  /** The session that an approval mints for a device authenticates it for exactly the approved hours, 24 if none are
      given; for hours that are negative or lead past the year 9999, it does so for ever. */
  lemma ApprovedSessionLives(db: Db, c: Claims, r: Id, token: Secret, hours: Option<int>, late: Db)
    requires ApproveSession(db, c, r, token, hours).0.Ok? && SessionKept(db, c, r, token, hours, late)
    ensures r in db.requests
    ensures var (k, granted) := (ApproveSession(db, c, r, token, hours).0.value,
                                 if hours.Some? then hours.value else 24);
            var end := db.now + granted * 60 * 60;
            AdminAuth(late, k, late.apiKeys[k].keyHash.secret)
            == if granted >= 0 && end <= 253402300799 && end <= late.now then Err(SessionExpired)
               else Ok(Claims(c.owner, db.requests[r].device, k))
  {
    hide Banned, WrapForDevice, RestrictedCaller, ColumnsOf;
  }

  /** Whoever may manage credentials gets each of them, unless the caller's own device is gone. */
  lemma MintingSucceedsExactly(db: Db, c: Claims, days: Option<int>, name: string, kind: KeyKind,
                               expiresAt: Option<int>, allowed: set<string>)
    ensures var may := MayManageCredentials(db, c);
            var there := c.device.Some? ==> c.device.value in db.devices;
            var answer := if !may then Err(Forbidden) else if !there then Err(Internal) else Ok(db.nextId);
            && CreateSessionKey(db, c).0 == answer
            && CreateCliToken(db, c, days).0 == answer
            && CreateDeviceToken(db, c).0 == answer
            && CreateKey(db, c, name, kind, expiresAt, allowed).0
               == if kind == Session || kind == ApprovalToken then Err(Forbidden) else answer
  {
    hide RestrictedCaller, RevokeSessions, CliDays, Allow;
    RevokeKeepsTheRest(db, c.owner, Some(CLI_SESSION));
  }

  // ---------------------------------------------------------------- the names of a key

  /** The names that are listed for a key. */
  ghost predicate ListedFor(db: Db, k: Id, names: seq<string>) {
    forall n :: n in names <==> (k, n) in db.allowedKeys
  }

  /** A fresh key is a key of its caller, and exactly the names it was created with are listed for it; the lists
      of other keys stay. */
  lemma CreatedKeyIsListed(db: Db, c: Claims, name: string, kind: KeyKind, expiresAt: Option<int>, allowed: set<string>,
                           j: Id, n: string)
    requires Intact(db) && CreateKey(db, c, name, kind, expiresAt, allowed).0.Ok?
    ensures var (r, after) := CreateKey(db, c, name, kind, expiresAt, allowed);
            && r.value in after.apiKeys
            && after.apiKeys[r.value].owner == c.owner && after.apiKeys[r.value].device == c.device
            && after.apiKeys[r.value].name == name
            && ((j, n) in after.allowedKeys <==> if j == r.value then n in allowed else (j, n) in db.allowedKeys)
  {
    hide RestrictedCaller;
    assert (db.nextId, n) !in db.allowedKeys;
  }

  /** A key reaches the listed names and no others: without an entry in the list every request is refused and
      nothing changes, with one it is answered as if there were no list. */
  lemma ListLimitsTheKey(db: Db, base: nat, c: Claims, names: seq<string>, key: string, admin: Option<string>,
                         body: EntryBody)
    requires AuthorizeCaller(db, base, c, key).0.Ok?
    ensures key !in names ==>
              && GetEntry(db, base, c, Some(names), key) == (Err(Forbidden), db)
              && PutByKey(db, base, c, Some(names), admin, key, body) == (Err(Forbidden), db)
              && DeleteByKey(db, base, c, Some(names), key) == (Err(Forbidden), db)
    ensures key in names ==>
              && GetEntry(db, base, c, Some(names), key) == GetEntry(db, base, c, None, key)
              && PutByKey(db, base, c, Some(names), admin, key, body) == PutByKey(db, base, c, None, admin, key, body)
              && DeleteByKey(db, base, c, Some(names), key) == DeleteByKey(db, base, c, None, key)
  {
    hide AuthorizeCaller, Slide, PutEntry, DropEntry, Readable;
    PassedCheckChangesNothing(db, base, c, key);
  }

  /** So a key that was created with some names reads, of its owner's readable entries, exactly these. */
  lemma CreatedKeyReadsItsNames(db: Db, base: nat, c: Claims, kind: KeyKind, allowed: set<string>, listed: seq<string>,
                                key: string)
    requires Intact(db) && CreateKey(db, c, "", kind, None, allowed).0.Ok?
    requires var (r, after) := CreateKey(db, c, "", kind, None, allowed);
             ListedFor(after, r.value, listed)
             && AuthorizeCaller(after, base, Claims(c.owner, c.device, r.value), key).0.Ok?
             && GetEntry(after, base, Claims(c.owner, c.device, r.value), None, key).0.Ok?
    ensures var (r, after) := CreateKey(db, c, "", kind, None, allowed);
            GetEntry(after, base, Claims(c.owner, c.device, r.value), Some(listed), key).0.Ok? <==> key in allowed
  {
    hide CreateKey, AuthorizeCaller, GetEntry, Intact;
    var (r, after) := CreateKey(db, c, "", kind, None, allowed);
    CreatedKeyIsListed(db, c, "", kind, None, allowed, r.value, key);
    var nothing := EntryBody("", None, false, false, None);
    ListLimitsTheKey(after, base, Claims(c.owner, c.device, r.value), listed, key, None, nothing);
  }

  // ---------------------------------------------------------------- the approval of a key

  /** Asking for access opens one approval, for ten minutes, and closes the open ones for the same key; a request by
      the server closes none. No other approval is touched. */
  lemma AskedApproval(db: Db, k: Id, supersede: bool, a: Id)
    requires a in db.approvals && a != db.nextId
    ensures RequestApproval(db, k, supersede).Some?
        <==> k in db.apiKeys && db.apiKeys[k].kind == ApprovalRequired && db.apiKeys[k].status == PendingApproval
    ensures RequestApproval(db, k, supersede).Some? ==>
              var after := RequestApproval(db, k, supersede).value;
              && after.apiKeys == db.apiKeys && db.nextId in after.approvals
              && after.approvals[db.nextId] == Approval(k, Digest(db.nextId + 1), Open, db.now + 600)
              && a in after.approvals
              && after.approvals[a] == if supersede && db.approvals[a].apiKey == k && db.approvals[a].status == Open
                                       then db.approvals[a].(status := Lapsed) else db.approvals[a]
  {
  }

  /** An open approval is granted exactly by the owner of its key, with its confirmation, before it ends. */
  lemma ApprovalIsGrantedExactly(db: Db, c: Claims, a: Id, confirm: Secret)
    ensures ApproveKey(db, c, a, confirm).0.Ok? <==>
              && MayManageCredentials(db, c) && a in db.approvals
              && db.approvals[a].status == Open && db.now < db.approvals[a].expiresAt
              && db.approvals[a].apiKey in db.apiKeys && db.apiKeys[db.approvals[a].apiKey].owner == c.owner
              && db.approvals[a].confirm.secret == confirm
    ensures RejectKey(db, c, a).0.Ok? <==>
              && MayManageCredentials(db, c) && a in db.approvals && db.approvals[a].status == Open
              && db.approvals[a].apiKey in db.apiKeys && db.apiKeys[db.approvals[a].apiKey].owner == c.owner
  {
    hide RestrictedCaller;
    DecliningShows(db, c.owner, a);
  }

  /** A declined approval is closed, and nothing else happens. */
  lemma DeclinedApprovalIsClosed(db: Db, c: Claims, a: Id)
    requires RejectKey(db, c, a).0.Ok?
    ensures a in db.approvals
    ensures RejectKey(db, c, a).1 == db.(approvals := db.approvals[a := db.approvals[a].(status := Declined)])
  {
    hide RestrictedCaller;
  }

  lemma DecliningShows(db: Db, owner: string, a: Id)
    ensures DeclineApproval(db, owner, a) != db <==>
              a in db.approvals && db.approvals[a].status == Open
              && db.approvals[a].apiKey in db.apiKeys && db.apiKeys[db.approvals[a].apiKey].owner == owner
  {
    var after := DeclineApproval(db, owner, a);
    if a in db.approvals && db.approvals[a].status == Open && a in after.approvals
       && after.approvals[a].status != Open {
      assert after.approvals != db.approvals;
    }
  }

  /** A granted key works at once, its approval is closed, and no other credential or approval is touched. */
  lemma GrantedKeyWorks(db: Db, c: Claims, a: Id, confirm: Secret, j: Id, secret: Secret)
    requires ApproveKey(db, c, a, confirm).0.Ok?
    ensures var k := db.approvals[a].apiKey;
            var after := ApproveKey(db, c, a, confirm).1;
            && k in after.apiKeys && after.apiKeys[k].status == Active
            && a in after.approvals && after.approvals == db.approvals[a := db.approvals[a].(status := Granted)]
            && (after.apiKeys[k].kind == ApprovalRequired && InUse(after, k) ==>
                  AuthManual(after, k, after.apiKeys[k].keyHash.secret).0
                  == Ok(Claims(c.owner, db.apiKeys[k].device, k)))
            && (j != k ==> Answers(after, j, secret) == Answers(db, j, secret))
  {
    hide RestrictedCaller, Banned, Answers;
    var (k, after) := (db.approvals[a].apiKey, ApproveKey(db, c, a, confirm).1);
    if InUse(after, k) { KindDecidesThePath(after, k); }
    if j != k { SameRowSameAnswers(db, after, j, secret); }
  }

  // ---------------------------------------------------------------- the end of sessions

  /** The logout of an unrestricted caller ends exactly the owner's active sessions, and nothing else. */
  lemma LogoutEndsExactlyTheSessions(db: Db, c: Claims, k: Id, secret: Secret)
    requires MayManageCredentials(db, c)
    ensures var after := Logout(db, c);
            if k in db.apiKeys && db.apiKeys[k].owner == c.owner && db.apiKeys[k].kind == Session
               && db.apiKeys[k].status == Active
            then RefusedEverywhere(after, k, secret) else Answers(after, k, secret) == Answers(db, k, secret)
  {
    hide RestrictedCaller, Answers, RefusedEverywhere;
    var after := Logout(db, c);
    if k in db.apiKeys {
      RevokedRow(db, c.owner, None, k);
      if after.apiKeys[k].status == Revoked { OutOfUseIsRefused(after, k, secret); }
    }
    if !(k in db.apiKeys && ActiveSession(db.apiKeys[k], c.owner, None)) { SameRowSameAnswers(db, after, k, secret); }
  }

  /** Only one command-line session lives at a time: the next one ends it. */
  lemma NextSessionEndsThis(db: Db, c: Claims, next: Claims, secret: Secret)
    requires CreateSessionKey(db, c).0.Ok? && next.owner == c.owner
    requires CreateSessionKey(CreateSessionKey(db, c).1, next).0.Ok?
    ensures var (k, first) := (CreateSessionKey(db, c).0.value, CreateSessionKey(db, c).1);
            var second := CreateSessionKey(first, next).1;
            k in second.apiKeys && second.apiKeys[k].status == Revoked && RefusedEverywhere(second, k, secret)
  {
    hide RestrictedCaller, RefusedEverywhere, RevokeSessions;
    var (k, first) := (CreateSessionKey(db, c).0.value, CreateSessionKey(db, c).1);
    RevokeKeepsTheRest(db, c.owner, Some(CLI_SESSION));
    RevokeKeepsTheRest(first, c.owner, Some(CLI_SESSION));
    RevokedRow(first, c.owner, Some(CLI_SESSION), k);
    OutOfUseIsRefused(CreateSessionKey(first, next).1, k, secret);
  }

  /** Nor do two logins with the same address. */
  lemma NextLoginEndsThis(db: Db, owner: string, email: string, secret: Secret)
    ensures var (k, first) := LoginSession(db, owner, email);
            var second := LoginSession(first, owner, email).1;
            k in second.apiKeys && second.apiKeys[k].status == Revoked && RefusedEverywhere(second, k, secret)
  {
    hide RefusedEverywhere, RevokeSessions;
    var (k, first) := LoginSession(db, owner, email);
    RevokeKeepsTheRest(db, owner, Some(email));
    RevokeKeepsTheRest(first, owner, Some(email));
    RevokedRow(first, owner, Some(email), k);
    OutOfUseIsRefused(LoginSession(first, owner, email).1, k, secret);
  }

  /** Deleting a key takes along its own listed names and approvals, and the mention of it in requests. */
  lemma DeletedKeyTakesItsOwn(db: Db, c: Claims, k: Id, a: Id, row: (Id, string), r: Id)
    requires DeleteById(db, c, k).0.Ok?
    ensures var after := DeleteById(db, c, k).1;
            && (a in after.approvals <==> a in db.approvals && db.approvals[a].apiKey != k)
            && (a in after.approvals ==> after.approvals[a] == db.approvals[a])
            && (row in after.allowedKeys <==> row in db.allowedKeys && row.0 != k)
            && (r in after.requests <==> r in db.requests)
            && (r in db.requests ==>
                  after.requests[r] == if db.requests[r].sessionKey == Some(k) then db.requests[r].(sessionKey := None)
                                       else db.requests[r])
            && (r in after.authRequests <==> r in db.authRequests)
            && (r in db.authRequests ==>
                  after.authRequests[r] == if db.authRequests[r] == Some(k) then None else db.authRequests[r])
  {
    hide RestrictedCaller;
  }
}
