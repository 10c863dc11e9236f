/** The server: its tables, and its handlers statement by statement. A transaction works on a copy
    of the tables that only a commit puts in place. */
module Server {
  import opened Basics
  import opened Text
  import opened Escalation
  import opened Policy
  import opened Bans
  import opened Tables
  import DeviceDeletion
  import Sessions
  import opened Credentials
  import opened Integrity
  import Entries
  import Handlers
  import Housekeeping

  class Server {
    const base: nat
    var db: Db

    constructor (base: nat, now: int)
      ensures this.base == base && db == EmptyDb(now)
    {
      this.base, db := base, EmptyDb(now);
    }

    // -------------------------------------------------------------- device policies and bans

    method EnsureNotBanned(device: Id) returns (r: Result<(), AppError>)
      ensures r == if Banned(db.bans, device, db.now) then Err(DeviceBanned) else Ok(())
    {
      if device in db.bans && db.bans[device].bannedAt.Some? && db.bans[device].unbanAt.Some?
         && db.bans[device].unbanAt.value > db.now {
        return Err(DeviceBanned);
      }
      return Ok(());
    }

    /** The insert fails on its foreign key when the device row is gone. */
    method RecordViolation(device: Id, owner: string, key: string) returns (r: Result<(), AppError>)
      modifies this
      ensures r == if device in old(db).bans || device in old(db).devices then Ok(()) else Err(Internal)
      ensures db == if r.Err? then old(db)
                    else old(db).(bans := AfterViolation(old(db).bans, device, owner, base, old(db).now, key))
    {
      if device !in db.bans {
        if device !in db.devices { return Err(Internal); }
        db := db.(bans := db.bans[device := BanRow(owner, None, None, 0, None)]);
      }
      var row := db.bans[device];
      if row.bannedAt.Some? && row.unbanAt.Some? && row.unbanAt.value > db.now { return Ok(()); }
      var count := SaturatingIncrement(row.banCount);
      var secs := EscalatedSecs(base, count);
      if db.bans[device].banCount == row.banCount {
        db := db.(bans := db.bans[device := BanRow(row.owner, Some(db.now), Some(db.now + secs), count, Some(key))]);
      }
      return Ok(());
    }

    method AuthorizeKey(device: Id, owner: string, key: string) returns (r: Result<(), AppError>)
      modifies this
      ensures (r, db) == Handlers.AuthorizeKey(old(db), base, device, owner, key)
    {
      var check := EnsureNotBanned(device);
      if check.Err? { return check; }
      if KeyPermitted(db.policies, db.policyKeys, device, key) { return Ok(()); }
      var recorded := RecordViolation(device, owner, key);
      if recorded.Err? { return recorded; }
      return Err(DeviceBanned);
    }

    method AuthorizeCaller(c: Claims, key: string) returns (r: Result<(), AppError>)
      modifies this
      ensures (r, db) == Handlers.AuthorizeCaller(old(db), base, c, key)
    {
      r := Ok(());
      if c.device.Some? { r := AuthorizeKey(c.device.value, c.owner, key); }
    }

    /** `PUT /device-policies/:device_id`: the key inserts never hit their primary key. */
    method UpdatePolicy(c: Claims, device: Id, body: UpdateRequest) returns (r: Result<(), AppError>)
      modifies this
      ensures (r, db) == Handlers.UpdatePolicy(old(db), c, device, body)
    {
      if c.device.Some? { return Err(Forbidden); }
      if device !in db.devices || db.devices[device].owner != c.owner { return Err(NotFound); }
      var validated := Validate(body);
      if validated.Err? { return Err(validated.error); }
      var n := validated.value;
      var tx := db;
      tx := tx.(policies := tx.policies[device := PolicyRow(c.owner, ModeName(n.mode), n.pattern)]);
      WithoutDeviceRows(tx.policyKeys, device);
      tx := tx.(policyKeys := WithoutDevice(tx.policyKeys, device));
      NormalisedKeysDistinct(body);
      var inserted := InsertKeys(tx.policyKeys, device, n.keys);
      if inserted.None? { return Err(Internal); }
      tx := tx.(policyKeys := inserted.value);
      db := tx;
      return Ok(());
    }

    method Unban(c: Claims, device: Id) returns (r: Result<(), AppError>)
      modifies this
      ensures (r, db) == Handlers.Unban(old(db), c, device)
    {
      if c.device.Some? { return Err(Forbidden); }
      if device in db.bans && device in db.devices && db.devices[device].owner == c.owner
         && db.bans[device].bannedAt.Some? && db.bans[device].unbanAt.Some?
         && db.bans[device].unbanAt.value > db.now {
        db := db.(bans := db.bans[device := db.bans[device].(bannedAt := None, unbanAt := None)]);
        assert old(db).bans[device].bannedAt != db.bans[device].bannedAt;
        return Ok(());
      }
      return Err(NotFound);
    }

    // -------------------------------------------------------------- session requests

    method CreateChallenge(device: Id) returns (r: Result<(Id, Envelope), AppError>)
      modifies this
      ensures (r, db) == Sessions.CreateChallenge(old(db), device)
    {
      if device !in db.devices { return Err(NotFound); }
      var row := db.devices[device];
      var (id, nonce) := (db.nextId, db.nextId + 1);
      var envelope := Sessions.WrapForDevice(row.keyType, row.publicKey, id, nonce);
      if envelope.None? { return Err(Internal); }
      db := db.(nextId := db.nextId + 2, challenges := db.challenges[id :=
                  Challenge(device, Digest(nonce), false, db.now + Sessions.CHALLENGE_SECS)]);
      return Ok((id, envelope.value));
    }

    method CreateRequest(challenge: Id, nonce: Secret) returns (r: Result<Sessions.Ticket, AppError>)
      modifies this
      ensures (r, db) == Sessions.CreateRequest(old(db), challenge, nonce)
    {
      var ticket := Sessions.Ticket(db.nextId, db.nextId + 1, db.nextId + 2);
      var tx := db.(nextId := db.nextId + 3);
      if !Sessions.ChallengeUsable(tx, challenge) { return Err(NotFound); }
      var row := tx.challenges[challenge];
      if Digest(nonce) != row.nonceHash { return Err(NotFound); }
      var check := EnsureNotBanned(row.device);
      if check.Err? { return Err(DeviceBanned); }
      if tx.challenges[challenge].consumed { return Err(NotFound); }
      tx := tx.(challenges := tx.challenges[challenge := row.(consumed := true)]);
      tx := tx.(requests := tx.requests[ticket.request :=
                  SessionRequest(Waiting, tx.now + Sessions.REQUEST_SECS, Some(Digest(ticket.pollSecret)),
                                 Some(row.device), Digest(ticket.approveToken), None, None, NO_WRAP)]);
      db := tx;
      return Ok(ticket);
    }

    method PollStatus(request: Id, secret: Secret) returns (r: Result<Sessions.PollAnswer, AppError>)
      modifies this
      ensures (r, db) == Sessions.Poll(old(db), request, secret)
    {
      if request !in db.requests { return Err(NotFound); }
      var row := db.requests[request];
      if row.pollSecret != Some(Digest(secret)) { return Err(NotFound); }
      if row.device.Some? {
        var check := EnsureNotBanned(row.device.value);
        if check.Err? { return Err(DeviceBanned); }
      }
      if row.status != Approved { return Ok(Sessions.PollAnswer(row.status, None)); }
      if db.requests[request].status != Approved { return Ok(Sessions.PollAnswer(Delivered, None)); }
      db := db.(requests := db.requests[request := db.requests[request].(status := Delivered, wrap := NO_WRAP)]);
      var envelope := EnvelopeOf(row.wrap);
      if envelope.None? { return Err(Internal); }
      return Ok(Sessions.PollAnswer(Approved, envelope));
    }

    method ApproveSession(c: Claims, request: Id, token: Secret, hours: Option<int>) returns (r: Result<Id, AppError>)
      modifies this
      ensures (r, db) == Handlers.ApproveSession(old(db), c, request, token, hours)
    {
      var duration := if hours.None? then 24 else hours.value;
      var restricted := c.device.Some? && IsRestricted(db.policies, db.policyKeys, c.device.value);
      var (key, plaintext) := (db.nextId, db.nextId + 1);
      var tx := db.(nextId := db.nextId + 2);
      if !Sessions.RequestOpen(tx, request) { return Err(NotFound); }
      var row := tx.requests[request];
      if Digest(token) != row.approveToken { return Err(NotFound); }
      if row.device.None? { return Err(NotFound); }
      var device := row.device.value;
      if restricted && c.device != Some(device) { return Err(Forbidden); }
      var check := EnsureNotBanned(device);
      if check.Err? { return Err(DeviceBanned); }
      if device !in tx.devices { return Err(NotFound); }
      if tx.devices[device].owner != c.owner { return Err(Forbidden); }
      var target := tx.devices[device];
      var envelope := Sessions.WrapForDevice(target.keyType, target.publicKey, request, plaintext);
      if envelope.None? { return Err(Internal); }
      tx := tx.(apiKeys := tx.apiKeys[key :=
                  ApiKey(Digest(plaintext), "session", Session, Active, Sessions.HoursFromNow(tx.now, duration), c.owner,
                         Some(device))]);
      if tx.requests[request].status != Waiting { return Err(NotFound); }
      tx := tx.(requests := tx.requests[request :=
                  row.(status := Approved, sessionKey := Some(key), approvedBy := Some(c.owner),
                       wrap := ColumnsOf(envelope.value))]);
      db := tx;
      return Ok(key);
    }

    method RejectSession(c: Claims, request: Id) returns (r: Result<(), AppError>)
      modifies this
      ensures (r, db) == Handlers.RejectSession(old(db), c, request)
    {
      if !Handlers.MayManageCredentials(db, c) { return Err(Forbidden); }
      if request !in db.requests || db.requests[request].status != Waiting { return Err(NotFound); }
      var device := db.requests[request].device;
      if device.None? || device.value !in db.devices { return Err(NotFound); }
      if db.devices[device.value].owner != c.owner { return Err(Forbidden); }
      db := Sessions.MarkRejected(db, request);
      return Ok(());
    }

    // -------------------------------------------------------------- authentication

    /** `AdminAuth`: at most one row has the hash, so the answer is that row's. */
    method Authenticate(secret: Secret) returns (r: Result<Claims, AppError>)
      ensures (forall k | k in db.apiKeys :: !KeyMatches(db, k, secret)) ==> r == Err(Unauthorized)
      ensures HashesDistinct(db.apiKeys) ==> forall k | KeyMatches(db, k, secret) :: r == AdminAuth(db, k, secret)
    {
      if forall k | k in db.apiKeys :: db.apiKeys[k].keyHash != Digest(secret) { return Err(Unauthorized); }
      var k :| k in db.apiKeys && db.apiKeys[k].keyHash == Digest(secret);
      var row := db.apiKeys[k];
      if !(row.kind.Session? || row.kind.ApprovalToken?) || row.status != Active { return Err(Unauthorized); }
      if row.expiresAt.Some? && row.expiresAt.value <= db.now { return Err(SessionExpired); }
      if row.device.Some? {
        var check := EnsureNotBanned(row.device.value);
        if check.Err? { return Err(DeviceBanned); }
      }
      return Ok(Claims(row.owner, row.device, k));
    }

    /** `auth_session_bearer`: as for `Authenticate`, with the checks of the `/kv` routes. */
    method AuthenticateBearer(secret: Secret) returns (r: Result<Claims, AppError>)
      ensures (forall k | k in db.apiKeys :: !KeyMatches(db, k, secret)) ==> r == Err(Unauthorized)
      ensures HashesDistinct(db.apiKeys) ==> forall k | KeyMatches(db, k, secret) :: r == AuthBearer(db, k, secret)
    {
      if forall k | k in db.apiKeys :: db.apiKeys[k].keyHash != Digest(secret) { return Err(Unauthorized); }
      var k :| k in db.apiKeys && db.apiKeys[k].keyHash == Digest(secret);
      var row := db.apiKeys[k];
      if !row.kind.Session? { return Err(Unauthorized); }
      if row.status == Revoked || row.status == Used { return Err(Unauthorized); }
      if row.expiresAt.Some? && row.expiresAt.value <= db.now { return Err(SessionExpired); }
      if row.device.Some? {
        var check := EnsureNotBanned(row.device.value);
        if check.Err? { return Err(DeviceBanned); }
      }
      return Ok(Claims(row.owner, row.device, k));
    }

    /** `auth_manual_key` for the row that the lookup by hash found: checks, ban, and the guarded
        consumption of a one-time key. A one-time key is used up exactly when it is accepted. */
    method AuthManualKey(k: Id, secret: Secret) returns (r: Result<Claims, AppError>)
      modifies this
      ensures (r, db) == AuthManual(old(db), k, secret)
      ensures r.Ok? && old(db).apiKeys[k].kind == OneTime ==>
                db.apiKeys[k].status == Used && LookupManual(db, k, secret).Err?
      ensures r.Err? || old(db).apiKeys[k].kind != OneTime ==> db == old(db)
    {
      AcceptedOneTimeKeyIsUsed(db, k, secret);
      if k !in db.apiKeys || db.apiKeys[k].keyHash != Digest(secret) || db.apiKeys[k].kind.Session? {
        return Err(Unauthorized);
      }
      var row := db.apiKeys[k];
      if row.status == Revoked || row.status == Used { return Err(Unauthorized); }
      if row.expiresAt.Some? && row.expiresAt.value <= db.now { return Err(Unauthorized); }
      if row.status != Active {
        if row.kind.ApprovalRequired? { return Err(AwaitingApproval); }
        return Err(Unauthorized);
      }
      if row.device.Some? {
        var check := EnsureNotBanned(row.device.value);
        if check.Err? { return Err(DeviceBanned); }
      }
      if row.kind == OneTime {
        if !Consumable(db, k) { return Err(Forbidden); }
        db := db.(apiKeys := db.apiKeys[k := row.(status := Used)]);
      }
      return Ok(Claims(row.owner, row.device, k));
    }

    // -------------------------------------------------------------- credentials

    method CreateKey(c: Claims, name: string, kind: KeyKind, expiresAt: Option<int>, allowed: seq<string>)
      returns (r: Result<Id, AppError>)
      modifies this
      ensures (r, db) == Handlers.CreateKey(old(db), c, name, kind, expiresAt, Handlers.NamesIn(allowed))
    {
      if !Handlers.MayManageCredentials(db, c) { return Err(Forbidden); }
      if kind.Session? || kind.ApprovalToken? { return Err(Forbidden); }
      var id := db.nextId;
      var minted := MintKey(db, name, kind, expiresAt, c.owner, c.device);
      if minted.None? { return Err(Internal); }
      db := minted.value;
      for i := 0 to |allowed|
        invariant db == Allow(minted.value, id, Handlers.NamesIn(allowed[..i]))
      {
        db := db.(allowedKeys := db.allowedKeys + {(id, allowed[i])});
        assert Handlers.NamesIn(allowed[..i + 1]) == Handlers.NamesIn(allowed[..i]) + {allowed[i]};
      }
      assert allowed[..|allowed|] == allowed;
      return Ok(id);
    }

    method CreateSessionKey(c: Claims) returns (r: Result<Id, AppError>)
      modifies this
      ensures (r, db) == Handlers.CreateSessionKey(old(db), c)
    {
      if !Handlers.MayManageCredentials(db, c) { return Err(Forbidden); }
      db := RevokeSessions(db, c.owner, Some(Handlers.CLI_SESSION));
      var id := db.nextId;
      var minted := MintKey(db, Handlers.CLI_SESSION, Session, Some(db.now + 15 * 3600), c.owner, c.device);
      if minted.None? { return Err(Internal); }
      db := minted.value;
      return Ok(id);
    }

    /** The insert shared by `create_cli_token` and `create_device_token`. */
    method CreateToken(c: Claims, name: string, secs: int) returns (r: Result<Id, AppError>)
      modifies this
      ensures (r, db) == Handlers.CreateToken(old(db), c, name, secs)
    {
      if !Handlers.MayManageCredentials(db, c) { return Err(Forbidden); }
      var id := db.nextId;
      var minted := MintKey(db, name, ApprovalToken, Some(db.now + secs), c.owner, c.device);
      if minted.None? { return Err(Internal); }
      db := minted.value;
      return Ok(id);
    }

    /** `create_session_key` of the login. */
    method Login(owner: string, email: string) returns (id: Id)
      modifies this
      ensures (id, db) == Handlers.LoginSession(old(db), owner, email)
    {
      db := RevokeSessions(db, owner, Some(email));
      id := db.nextId;
      var row := ApiKey(Digest(id + 1), email, Session, Active, Some(db.now + 15 * 3600), owner, None);
      db := db.(nextId := id + 2, apiKeys := db.apiKeys[id := row]);
    }

    method RevokeById(c: Claims, k: Id) returns (r: Result<(), AppError>)
      modifies this
      ensures (r, db) == Handlers.RevokeById(old(db), c, k)
    {
      if !Handlers.MayManageKey(db, c, k) { return Err(Forbidden); }
      if k !in db.apiKeys || db.apiKeys[k].owner != c.owner
         || (db.apiKeys[k].status != Active && db.apiKeys[k].status != PendingApproval) {
        return Err(NotFound);
      }
      db := db.(apiKeys := db.apiKeys[k := db.apiKeys[k].(status := Revoked)]);
      return Ok(());
    }

    method DeleteById(c: Claims, k: Id) returns (r: Result<(), AppError>)
      modifies this
      ensures (r, db) == Handlers.DeleteById(old(db), c, k)
    {
      if !Handlers.MayManageKey(db, c, k) { return Err(Forbidden); }
      if k !in db.apiKeys || db.apiKeys[k].owner != c.owner
         || (db.apiKeys[k].status != Revoked && db.apiKeys[k].status != Used) {
        return Err(NotFound);
      }
      db := DeleteApiKeys(db, {k});
      return Ok(());
    }

    method DeleteRevokedSessions(c: Claims) returns (r: Result<(), AppError>)
      modifies this
      ensures (r, db) == Handlers.DeleteRevokedSessions(old(db), c)
    {
      if !Handlers.MayManageCredentials(db, c) { return Err(Forbidden); }
      db := DeleteApiKeys(db, RevokedSessions(db, c.owner));
      return Ok(());
    }

    method Logout(c: Claims)
      modifies this
      ensures db == Handlers.Logout(old(db), c)
    {
      if c.device.Some? && IsRestricted(db.policies, db.policyKeys, c.device.value) {
        if c.keyId in db.apiKeys && db.apiKeys[c.keyId].owner == c.owner && db.apiKeys[c.keyId].status == Active {
          db := db.(apiKeys := db.apiKeys[c.keyId := db.apiKeys[c.keyId].(status := Revoked)]);
        }
      } else {
        db := RevokeSessions(db, c.owner, None);
      }
    }

    method ApproveKey(c: Claims, approval: Id, confirm: Secret) returns (r: Result<(), AppError>)
      modifies this
      ensures (r, db) == Handlers.ApproveKey(old(db), c, approval, confirm)
    {
      if !Handlers.MayManageCredentials(db, c) { return Err(Forbidden); }
      if approval !in db.approvals { return Err(NotFound); }
      var row := db.approvals[approval];
      if row.status != Open || row.expiresAt <= db.now || row.apiKey !in db.apiKeys
         || db.apiKeys[row.apiKey].owner != c.owner {
        return Err(NotFound);
      }
      if Digest(confirm) != row.confirm { return Err(Forbidden); }
      var tx := db;
      tx := tx.(approvals := tx.approvals[approval := row.(status := Granted)]);
      tx := tx.(apiKeys := tx.apiKeys[row.apiKey := tx.apiKeys[row.apiKey].(status := Active)]);
      db := tx;
      return Ok(());
    }

    method RejectKey(c: Claims, approval: Id) returns (r: Result<(), AppError>)
      modifies this
      ensures (r, db) == Handlers.RejectKey(old(db), c, approval)
    {
      if !Handlers.MayManageCredentials(db, c) { return Err(Forbidden); }
      if approval !in db.approvals || db.approvals[approval].status != Open { return Err(NotFound); }
      var row := db.approvals[approval];
      if row.apiKey !in db.apiKeys || db.apiKeys[row.apiKey].owner != c.owner { return Err(NotFound); }
      db := db.(approvals := db.approvals[approval := row.(status := Declined)]);
      assert old(db).approvals[approval].status != db.approvals[approval].status;
      return Ok(());
    }

    /** `request_access`: the open approval requests for the key give way to a new one. */
    method RequestAccess(k: Id, secret: Secret) returns (r: Result<(), AppError>)
      modifies this
      ensures r.Ok? <==> KeyMatches(old(db), k, secret) && AwaitsApproval(old(db), k)
      ensures r.Ok? ==> Some(db) == RequestApproval(old(db), k, true)
      ensures r.Err? ==> db == old(db) && r.error == if KeyMatches(db, k, secret) then Forbidden else Unauthorized
    {
      if k !in db.apiKeys || db.apiKeys[k].keyHash != Digest(secret) { return Err(Unauthorized); }
      if !db.apiKeys[k].kind.ApprovalRequired? || db.apiKeys[k].status != PendingApproval { return Err(Forbidden); }
      db := db.(approvals := LapseApprovals(db.approvals, k));
      var id := db.nextId;
      db := db.(nextId := id + 2,
                approvals := db.approvals[id := Approval(k, Digest(id + 1), Open, db.now + APPROVAL_SECS)]);
      return Ok(());
    }

    // -------------------------------------------------------------- devices

    method Register(c: Claims, name: string, publicKey: string, keyType: string) returns (r: Result<Id, AppError>)
      modifies this
      ensures (r, db) == Handlers.Register(old(db), c, name, publicKey, keyType)
    {
      if !Handlers.MayManageCredentials(db, c) { return Err(Forbidden); }
      if exists d | d in db.devices :: db.devices[d].owner == c.owner && db.devices[d].name == name {
        return Err(Conflict);
      }
      var id := db.nextId;
      db := db.(nextId := id + 1, devices := db.devices[id := Device(c.owner, name, publicKey, keyType, None)]);
      return Ok(id);
    }

    /** `delete`: the dependents go first, then the credentials, then the device. */
    method RemoveDevice(c: Claims, device: Id) returns (r: Result<(), AppError>)
      modifies this
      ensures (r, db) == Handlers.RemoveDevice(old(db), c, device)
    {
      if c.device == Some(device) { return Err(Forbidden); }
      if !Handlers.MayManageCredentials(db, c) { return Err(Forbidden); }
      var tx := db;
      if device !in tx.devices || tx.devices[device].owner != c.owner { return Err(NotFound); }
      tx := DeviceDeletion.DeleteAllowedKeys(tx, device);
      tx := DeviceDeletion.DeleteApprovals(tx, device);
      tx := DeviceDeletion.DeleteAuthRequests(tx, device);
      tx := DeviceDeletion.DeleteRequests(tx, device);
      tx := DeviceDeletion.DeleteChallenges(tx, device);
      tx := DeviceDeletion.DeleteProposals(tx, device);
      tx := DeviceDeletion.DeleteKeys(tx, device);
      tx := DeviceDeletion.DeletePolicyKeys(tx, device);
      tx := DeviceDeletion.DeletePolicies(tx, device);
      tx := DeviceDeletion.DeleteBans(tx, device);
      DeviceDeletion.StatementsInOrder(db, device);
      var deleted := DeleteDeviceRow(tx, device);
      if deleted.None? { return Err(Internal); }
      db := deleted.value;
      return Ok(());
    }

    method LinkProposed(c: Claims, proposal: Id, token: Secret, device: Id) returns (r: Result<(), AppError>)
      modifies this
      ensures (r, db) == Handlers.LinkProposed(old(db), c, proposal, token, device)
    {
      if !Handlers.MayManageCredentials(db, c) { return Err(Forbidden); }
      if proposal !in db.proposals { return Err(NotFound); }
      var row := db.proposals[proposal];
      if Digest(token) != row.confirmToken { return Err(NotFound); }
      if device !in db.devices { return Err(NotFound); }
      var target := db.devices[device];
      if target.owner != c.owner || target.publicKey != row.publicKey || target.keyType != row.keyType {
        return Err(NotFound);
      }
      if db.proposals[proposal].status != Proposed { return Err(NotFound); }
      db := db.(proposals := db.proposals[proposal :=
                  row.(status := Confirmed, result := Some(device), confirmedBy := Some(c.owner))]);
      return Ok(());
    }

    method RejectProposed(c: Claims, proposal: Id) returns (r: Result<(), AppError>)
      modifies this
      ensures (r, db) == Handlers.RejectProposed(old(db), c, proposal)
    {
      if !Handlers.MayManageCredentials(db, c) { return Err(Forbidden); }
      if proposal !in db.proposals || db.proposals[proposal].status != Proposed { return Err(NotFound); }
      db := db.(proposals := db.proposals[proposal := db.proposals[proposal].(status := Dismissed)]);
      assert old(db).proposals[proposal].status != db.proposals[proposal].status;
      return Ok(());
    }

    method FetchDeviceKv(c: Claims, device: Id, key: string) returns (r: Result<string, AppError>)
      modifies this
      ensures (r, db) == Handlers.FetchDeviceKv(old(db), base, c, device, key)
    {
      hide Handlers.AuthorizeCaller, KeyPermitted, Banned, Touch, Handlers.ReceivedBy;
      if device !in db.devices || db.devices[device].owner != c.owner { return Err(NotFound); }
      var own := AuthorizeCaller(c, key);
      if own.Err? { return Err(own.error); }
      Handlers.PassedCheckChangesNothing(old(db), base, c, key);
      if c.device != Some(device) {
        var check := EnsureNotBanned(device);
        if check.Err? { return Err(DeviceBanned); }
        if !KeyPermitted(db.policies, db.policyKeys, device, key) { return Err(Forbidden); }
      }
      if (key, c.owner) !in db.bodies { return Err(NotFound); }
      if forall row | row in db.recipients :: !Handlers.ReceivedBy(db.recipients[row], device, c.owner, key) {
        return Err(NotFound);
      }
      r := Ok(db.bodies[(key, c.owner)]);
      db := Touch(db, device);
    }

    // -------------------------------------------------------------- entries

    method AdminRead(c: Claims, key: string) returns (r: Result<string, AppError>)
      modifies this
      ensures (r, db) == Handlers.AdminRead(old(db), base, c, key)
    {
      hide Handlers.AuthorizeCaller;
      var own := AuthorizeCaller(c, key);
      if own.Err? { return Err(own.error); }
      Handlers.PassedCheckChangesNothing(old(db), base, c, key);
      if !Handlers.Present(db, c.owner, key) { return Err(NotFound); }
      var row := db.kv[(key, c.owner)];
      if row.deviceEncrypted || row.zeroTrust.Some? { return Err(Forbidden); }
      return Ok(row.value);
    }

    method AdminWrite(c: Claims, key: string, body: Entries.EntryBody) returns (r: Result<(), AppError>)
      modifies this
      ensures (r, db) == Handlers.AdminWrite(old(db), base, c, key, body)
    {
      hide Handlers.AuthorizeCaller;
      r := AuthorizeCaller(c, key);
      if r.Err? { return r; }
      Handlers.PassedCheckChangesNothing(old(db), base, c, key);
      db := Entries.PutEntry(db, c.owner, key, body);
      return Ok(());
    }

    method AdminDelete(c: Claims, key: string) returns (r: Result<(), AppError>)
      modifies this
      ensures (r, db) == Handlers.AdminDelete(old(db), base, c, key)
    {
      hide Handlers.AuthorizeCaller;
      r := AuthorizeCaller(c, key);
      if r.Err? { return r; }
      Handlers.PassedCheckChangesNothing(old(db), base, c, key);
      if (key, c.owner) !in db.kv { return Err(NotFound); }
      db := db.(kv := db.kv - {(key, c.owner)});
      return Ok(());
    }

    method GetEntry(c: Claims, allowed: Option<seq<string>>, key: string) returns (r: Result<string, AppError>)
      modifies this
      ensures (r, db) == Handlers.GetEntry(old(db), base, c, allowed, key)
    {
      var own := AuthorizeCaller(c, key);
      if own.Err? { return Err(own.error); }
      if !Handlers.MayAccess(allowed, key) { return Err(Forbidden); }
      if !Handlers.Present(db, c.owner, key) { return Err(NotFound); }
      var row := db.kv[(key, c.owner)];
      if row.deviceEncrypted { return Err(Forbidden); }
      if row.zeroTrust.Some? { return Err(ZeroTrustRequired); }
      if row.sliding && row.ttlSecs.Some? {
        db := db.(kv := db.kv[(key, c.owner) := row.(expiresAt := Some(db.now + row.ttlSecs.value))]);
      }
      return Ok(row.value);
    }

    method PutByKey(c: Claims, allowed: Option<seq<string>>, admin: Option<string>, key: string,
                    body: Entries.EntryBody) returns (r: Result<(), AppError>)
      modifies this
      ensures (r, db) == Handlers.PutByKey(old(db), base, c, allowed, admin, key, body)
    {
      r := AuthorizeCaller(c, key);
      if r.Err? { return r; }
      if !Handlers.MayAccess(allowed, key) { return Err(Forbidden); }
      if key == Handlers.RESERVED && admin != Some(c.owner) { return Err(Forbidden); }
      db := Entries.PutEntry(db, c.owner, key, body);
    }

    method DeleteByKey(c: Claims, allowed: Option<seq<string>>, key: string) returns (r: Result<(), AppError>)
      modifies this
      ensures (r, db) == Handlers.DeleteByKey(old(db), base, c, allowed, key)
    {
      r := AuthorizeCaller(c, key);
      if r.Err? { return r; }
      if !Handlers.MayAccess(allowed, key) { return Err(Forbidden); }
      if (key, c.owner) !in db.kv { return Err(NotFound); }
      db := db.(kv := db.kv - {(key, c.owner)});
    }

    /** The first loop of `admin_import_kv`. */
    method ParseFile(prefix: string, lines: seq<string>) returns (r: Result<seq<(string, string)>, AppError>)
      ensures r == Handlers.ParseFile(prefix, lines)
    {
      var entries: seq<(string, string)> := [];
      for i := 0 to |lines|
        invariant Handlers.ParseFile(prefix, lines[..i]) == Ok(entries)
      {
        assert lines[..i + 1][..i] == lines[..i];
        match Handlers.ParseLine(prefix, lines[i])
        case Skipped => continue;
        case Panics =>
          Handlers.PanicIsFinal(prefix, lines, i);
          return Err(Internal);
        case Entry(key, value) => entries := entries + [(key, value)];
      }
      assert lines[..|lines|] == lines;
      return Ok(entries);
    }

    /** `admin_import_kv`: every name is checked before anything is written. */
    method Import(c: Claims, prefix: string, options: Entries.EntryBody, lines: seq<string>)
      returns (r: Result<nat, AppError>)
      modifies this
      ensures (r, db) == Handlers.Import(old(db), base, c, prefix, options, lines)
    {
      hide Entries.PutEntry, Entries.ImportBody, Handlers.ParseFile, Handlers.AuthorizeCaller;
      var parsed := ParseFile(prefix, lines);
      if parsed.Err? { return Err(parsed.error); }
      var entries := parsed.value;
      for i := 0 to |entries|
        invariant (Ok(()), db) == Handlers.AuthorizeAll(old(db), base, c, entries[..i])
      {
        var check := AuthorizeCaller(c, entries[i].0);
        Handlers.AuthorizeOneMore(old(db), base, c, entries, i);
        assert (check, db) == Handlers.AuthorizeAll(old(db), base, c, entries[..i + 1]);
        if check.Err? {
          Handlers.RefusalIsFinal(old(db), base, c, entries, i + 1);
          return Err(check.error);
        }
        assert check.value == ();
      }
      assert entries[..|entries|] == entries;
      Handlers.PassedChecksChangeNothing(old(db), base, c, entries);
      for i := 0 to |entries|
        invariant db == Handlers.PutAll(old(db), c.owner, options, entries[..i])
      {
        assert entries[..i + 1][..i] == entries[..i];
        var (key, value) := entries[i];
        db := Entries.PutEntry(db, c.owner, key, Entries.ImportBody(db, c.owner, key, value, options));
      }
      return Ok(|entries|);
    }

    /** `write_device_kv`: the recipients of the entry are replaced. Ids are drawn from the counter, as
        they are in every run. */
    method WriteDeviceKv(c: Claims, key: string, body: string, devices: seq<Id>) returns (r: Result<(), AppError>)
      requires IdsBelow(db)
      modifies this
      ensures (r, db) == Handlers.WriteDeviceKv(old(db), base, c, key, body, devices)
    {
      hide Handlers.AuthorizeCaller, Entries.NewRecipients, Entries.RecipientsValid;
      r := AuthorizeCaller(c, key);
      if r.Err? { return r; }
      Handlers.PassedCheckChangesNothing(old(db), base, c, key);
      if devices == [] { return Err(Forbidden); }
      var tx := db.(bodies := db.bodies[(key, c.owner) := body]);
      tx := tx.(recipients := Entries.WithoutEntry(tx.recipients, c.owner, key));
      var inserted := InsertRecipients(tx.recipients, tx.devices, tx.nextId, c.owner, key, devices);
      if inserted.None? { return Err(Internal); }
      tx := tx.(nextId := tx.nextId + |devices|, recipients := inserted.value);
      db := Entries.MarkEncrypted(tx, c.owner, key);
      return Ok(());
    }

    // -------------------------------------------------------------- cleanup

    /** One pass of the background cleanup over the modelled tables. */
    method Cleanup()
      modifies this
      ensures db == Housekeeping.Cleaned(old(db))
    {
      db := DropKvEntries(db);
      db := LapseOld(db);
      db := ExpireRequests(db);
      db := DropChallenges(db);
      db := TimeOutProposals(db);
      db := db.(bans := ClearExpired(db.bans, db.now));
    }
  }

  /** The inserts of `write_device_kv`, one row at a time: a missing device or a device named twice
      fails the transaction. */
  method InsertRecipients(recipients: map<Id, Recipient>, known: map<Id, Device>, first: Id, owner: string, key: string,
                          devices: seq<Id>) returns (r: Option<map<Id, Recipient>>)
    requires forall row | row in recipients :: row < first && !Entries.OfEntry(recipients[row], owner, key)
    ensures r == if !Entries.RecipientsValid(known, devices) then None
                 else Some(recipients + Entries.NewRecipients(first, owner, key, devices))
  {
    hide Entries.NewRecipients, Entries.RecipientsValid;
    var rows := recipients;
    Entries.NoRecipients(known, first, owner, key);
    assert devices[..0] == [];
    for i := 0 to |devices|
      invariant rows == recipients + Entries.NewRecipients(first, owner, key, devices[..i])
      invariant Entries.RecipientsValid(known, devices[..i])
    {
      var row := Recipient(key, owner, devices[i]);
      if devices[i] !in known || row in rows.Values {
        Entries.FailedInsert(recipients, known, first, owner, key, devices, i);
        return None;
      }
      NewDevice(recipients, known, first, owner, key, devices, i);
      rows := rows[first + i := row];
    }
    assert devices[..|devices|] == devices;
    return Some(rows);
  }

  /** An insert that goes through names an existing device for the first time. */
  lemma NewDevice(recipients: map<Id, Recipient>, known: map<Id, Device>, first: Id, owner: string, key: string,
                  devices: seq<Id>, i: nat)
    requires i < |devices| && Entries.RecipientsValid(known, devices[..i]) && devices[i] in known
    requires Recipient(key, owner, devices[i])
               !in (recipients + Entries.NewRecipients(first, owner, key, devices[..i])).Values
    ensures Entries.RecipientsValid(known, devices[..i + 1])
    ensures (recipients + Entries.NewRecipients(first, owner, key, devices[..i]))
              [first + i := Recipient(key, owner, devices[i])]
         == recipients + Entries.NewRecipients(first, owner, key, devices[..i + 1])
  {
    assert devices[..i + 1][..i] == devices[..i];
    OnlyNewDevices(recipients, first, owner, key, devices, i);
    forall a, b | 0 <= a < b < i ensures devices[a] != devices[b] {
      assert devices[..i][a] == devices[a] && devices[..i][b] == devices[b];
    }
    forall d | d in devices[..i + 1] ensures d in known {
      assert d in devices[..i] || d == devices[i];
    }
  }

  lemma OnlyNewDevices(recipients: map<Id, Recipient>, first: Id, owner: string, key: string, devices: seq<Id>, i: nat)
    requires i < |devices|
    requires Recipient(key, owner, devices[i])
               !in (recipients + Entries.NewRecipients(first, owner, key, devices[..i])).Values
    ensures forall j | 0 <= j < i :: devices[j] != devices[i]
  {
    var rows := recipients + Entries.NewRecipients(first, owner, key, devices[..i]);
    Entries.NewRecipientsAre(first, owner, key, devices[..i]);
    forall j: nat | j < i ensures devices[j] != devices[i] {
      assert first + j in rows && rows[first + j] == Recipient(key, owner, devices[..i][j]);
      assert rows[first + j] in rows.Values;
    }
  }
}
