/** What the handlers achieve for their callers: what later reads and authentications answer. */
module Effects {
  import opened Basics
  import opened Text
  import opened Policy
  import opened Bans
  import opened Tables
  import opened Sessions
  import opened Credentials
  import opened Integrity
  import opened Entries
  import opened Handlers

  // ---------------------------------------------------------------- writing and reading entries

  /** The row of an entry has stayed as it was. */
  predicate EntryKept(after: Db, late: Db, owner: string, key: string) {
    (key, owner) in after.kv && (key, owner) in late.kv && late.kv[(key, owner)] == after.kv[(key, owner)]
  }

  predicate Marked(db: Db, owner: string, key: string) { (key, owner) in db.kv && db.kv[(key, owner)].deviceEncrypted }

  predicate Over(written: int, ttlSecs: Option<int>, now: int) { ttlSecs.Some? && written + ttlSecs.value <= now }

  /** What a reader gets of a body that was written at time `written`. */
  function ReadBack(body: EntryBody, marked: bool, written: int, now: int): Result<string, AppError> {
    if Over(written, body.ttlSecs, now) then Err(NotFound)
    else if marked then Err(Forbidden)
    else if body.zeroTrust.Some? then Err(ZeroTrustRequired)
    else Ok(body.value)
  }

  lemma PutIsRead(db: Db, base: nat, owner: string, key: string, body: EntryBody, late: Db, reader: Claims)
    requires EntryKept(PutEntry(db, owner, key, body), late, owner, key)
    requires reader.owner == owner && AuthorizeCaller(late, base, reader, key).0.Ok?
    ensures GetEntry(late, base, reader, None, key).0 == ReadBack(body, Marked(db, owner, key), db.now, late.now)
    ensures AdminRead(late, base, reader, key).0.Ok? <==> GetEntry(late, base, reader, None, key).0.Ok?
    ensures AdminRead(late, base, reader, key).0.Ok? ==> AdminRead(late, base, reader, key).0.value == body.value
  {
    hide AuthorizeCaller;
  }

  /** After an administrator's write, every reader of the owner whose device check passes gets the written
      value until the entry is over, on both read routes, unless it is sealed; a refused write writes
      nothing. */
  lemma AdminWriteIsRead(db: Db, base: nat, c: Claims, key: string, body: EntryBody, late: Db, reader: Claims)
    requires reader.owner == c.owner && AuthorizeCaller(late, base, reader, key).0.Ok?
    ensures var (r, after) := AdminWrite(db, base, c, key, body);
            && (r.Err? ==> after.kv == db.kv)
            && (r.Ok? && EntryKept(after, late, c.owner, key) ==>
                  && GetEntry(late, base, reader, None, key).0 == ReadBack(body, Marked(db, c.owner, key), db.now, late.now)
                  && (AdminRead(late, base, reader, key).0 == Ok(body.value)
                      <==> ReadBack(body, Marked(db, c.owner, key), db.now, late.now).Ok?))
  {
    hide AuthorizeCaller, GetEntry, AdminRead, PutEntry;
    CheckKeepsEntries(db, base, c, key);
    var after := AdminWrite(db, base, c, key, body).1;
    if AdminWrite(db, base, c, key, body).0.Ok? && EntryKept(after, late, c.owner, key) {
      PutIsRead(db, base, c.owner, key, body, late, reader);
    }
  }

  lemma CheckKeepsEntries(db: Db, base: nat, c: Claims, key: string)
    ensures AuthorizeCaller(db, base, c, key).1.kv == db.kv
  {
  }

  /** The same for a write through `/kv`, by a key that lists the name, and never for the reserved name
      unless the administrator writes it. */
  lemma PutByKeyIsRead(db: Db, base: nat, c: Claims, allowed: Option<seq<string>>, admin: Option<string>, key: string,
                       body: EntryBody, late: Db, reader: Claims)
    requires reader.owner == c.owner && AuthorizeCaller(late, base, reader, key).0.Ok?
    ensures var (r, after) := PutByKey(db, base, c, allowed, admin, key, body);
            && (r.Err? ==> after.kv == db.kv)
            && (r.Ok? ==> MayAccess(allowed, key) && (key == RESERVED ==> admin == Some(c.owner)))
            && (r.Ok? && EntryKept(after, late, c.owner, key) ==>
                  GetEntry(late, base, reader, None, key).0 == ReadBack(body, Marked(db, c.owner, key), db.now, late.now))
  {
    hide AuthorizeCaller, GetEntry, AdminRead, PutEntry;
    CheckKeepsEntries(db, base, c, key);
    var (r, after) := PutByKey(db, base, c, allowed, admin, key, body);
    if r.Ok? && EntryKept(after, late, c.owner, key) { PutIsRead(db, base, c.owner, key, body, late, reader); }
  }

  /** A delete succeeds exactly if its checks pass and the row exists, even an expired one; then the owner
      reads nothing under the name and everything else as before. A refused delete deletes nothing. */
  lemma DeletedIsNotFound(db: Db, base: nat, c: Claims, key: string, reader: Claims, other: string)
    requires reader.owner == c.owner
    ensures var (r, after) := AdminDelete(db, base, c, key);
            && (r.Err? ==> after.kv == db.kv)
            && (r.Ok? <==> AuthorizeCaller(db, base, c, key).0.Ok? && (key, c.owner) in db.kv)
            && (r.Ok? && AuthorizeCaller(after, base, reader, other).0.Ok? ==>
                  AdminRead(after, base, reader, other).0
                  == if other == key then Err(NotFound) else AdminRead(db, base, reader, other).0)
  {
    hide AuthorizeKey;
    CheckKeepsEntries(db, base, c, key);
    if AdminDelete(db, base, c, key).0.Ok? { SameCheckWithoutEntry(db, base, reader, c.owner, key, other); }
  }

  lemma SameCheckWithoutEntry(db: Db, base: nat, reader: Claims, owner: string, key: string, other: string)
    ensures AuthorizeCaller(DropEntry(db, owner, key), base, reader, other).0 == AuthorizeCaller(db, base, reader, other).0
  {
    hide KeyPermitted;
  }

  lemma DeletedByKeyIsNotFound(db: Db, base: nat, c: Claims, allowed: Option<seq<string>>, key: string, reader: Claims,
                               other: string)
    requires reader.owner == c.owner
    ensures var (r, after) := DeleteByKey(db, base, c, allowed, key);
            && (r.Err? ==> after.kv == db.kv)
            && (r.Ok? ==> MayAccess(allowed, key) && (key, c.owner) in db.kv)
            && (r.Ok? && AuthorizeCaller(after, base, reader, other).0.Ok? ==>
                  GetEntry(after, base, reader, None, other).0
                  == if other == key then Err(NotFound) else GetEntry(db, base, reader, None, other).0)
  {
    hide AuthorizeKey;
    CheckKeepsEntries(db, base, c, key);
    if DeleteByKey(db, base, c, allowed, key).0.Ok? { SameCheckWithoutEntry(db, base, reader, c.owner, key, other); }
  }

  /** After a device-encrypted write, of the owner's devices that are unbanned and may have the name, exactly
      the named ones fetch that body; and no plain read returns the entry. */
  lemma NamedDevicesFetch(db: Db, base: nat, c: Claims, key: string, sealed: string, devices: seq<Id>, d: Id,
                          reader: Claims)
    requires WriteDeviceKv(db, base, c, key, sealed, devices).0.Ok?
    requires d in db.devices && db.devices[d].owner == c.owner
    requires !Banned(db.bans, d, db.now) && KeyPermitted(db.policies, db.policyKeys, d, key)
    requires reader.owner == c.owner && (reader.device.None? || reader.device == Some(d))
    ensures var after := WriteDeviceKv(db, base, c, key, sealed, devices).1;
            && FetchDeviceKv(after, base, reader, d, key).0 == (if d in devices then Ok(sealed) else Err(NotFound))
            && GetEntry(after, base, reader, None, key).0.Err? && AdminRead(after, base, reader, key).0.Err?
  {
    hide KeyPermitted, Banned, FetchDeviceKv, GetEntry, AdminRead, Received, WriteDeviceKv;
    var after := WriteDeviceKv(db, base, c, key, sealed, devices).1;
    WrittenForDevices(db, base, c, key, sealed, devices);
    RecipientsAre(db, c.owner, key, devices, d);
    FetchFindsRecipient(after, base, reader, d, key);
    MarkedIsNotRead(after, base, reader, key);
  }

  lemma WrittenForDevices(db: Db, base: nat, c: Claims, key: string, sealed: string, devices: seq<Id>)
    requires WriteDeviceKv(db, base, c, key, sealed, devices).0.Ok?
    ensures var after := WriteDeviceKv(db, base, c, key, sealed, devices).1;
            && after.devices == db.devices && after.now == db.now && after.bans == db.bans
            && after.policies == db.policies && after.policyKeys == db.policyKeys
            && (key, c.owner) in after.bodies && after.bodies[(key, c.owner)] == sealed
            && Marked(after, c.owner, key)
            && after.recipients == WithoutEntry(db.recipients, c.owner, key)
                                   + NewRecipients(db.nextId, c.owner, key, devices)
  {
    hide AuthorizeCaller, RecipientsValid, WithoutEntry, NewRecipients;
  }

  lemma FetchFindsRecipient(db: Db, base: nat, reader: Claims, d: Id, key: string)
    requires d in db.devices && db.devices[d].owner == reader.owner && (reader.device.None? || reader.device == Some(d))
    requires !Banned(db.bans, d, db.now) && KeyPermitted(db.policies, db.policyKeys, d, key)
    requires (key, reader.owner) in db.bodies
    ensures FetchDeviceKv(db, base, reader, d, key).0
         == if Received(db.recipients, d, reader.owner, key) then Ok(db.bodies[(key, reader.owner)]) else Err(NotFound)
  {
    hide KeyPermitted, Banned, Touch, ReceivedBy;
  }

  lemma MarkedIsNotRead(db: Db, base: nat, reader: Claims, key: string)
    requires Marked(db, reader.owner, key)
    ensures GetEntry(db, base, reader, None, key).0.Err? && AdminRead(db, base, reader, key).0.Err?
  {
    hide AuthorizeCaller, Slide;
  }

  predicate Received(rows: map<Id, Recipient>, d: Id, owner: string, key: string) {
    exists r | r in rows :: ReceivedBy(rows[r], d, owner, key)
  }

  lemma RecipientsAre(db: Db, owner: string, key: string, devices: seq<Id>, d: Id)
    ensures Received(WithoutEntry(db.recipients, owner, key) + NewRecipients(db.nextId, owner, key, devices), d, owner, key)
       <==> d in devices
  {
    var rows := WithoutEntry(db.recipients, owner, key) + NewRecipients(db.nextId, owner, key, devices);
    NewRecipientsAre(db.nextId, owner, key, devices);
    if d in devices {
      var i :| 0 <= i < |devices| && devices[i] == d;
      var r := db.nextId + i;
      assert r in NewRecipients(db.nextId, owner, key, devices);
      assert NewRecipients(db.nextId, owner, key, devices)[r] == Recipient(key, owner, devices[r - db.nextId]);
      assert r in rows && ReceivedBy(rows[r], d, owner, key);
    }
  }

  // ---------------------------------------------------------------- authentication after a change

  /** The answers of all three authentication paths to one secret. */
  function Answers(db: Db, k: Id, secret: Secret)
    : (Result<Claims, AppError>, Result<Claims, AppError>, Result<Claims, AppError>)
  {
    (AdminAuth(db, k, secret), AuthBearer(db, k, secret), AuthManual(db, k, secret).0)
  }

  /** Refused on every path. */
  predicate RefusedEverywhere(db: Db, k: Id, secret: Secret) {
    Answers(db, k, secret) == (Err(Unauthorized), Err(Unauthorized), Err(Unauthorized))
  }

  lemma OutOfUseIsRefused(db: Db, k: Id, secret: Secret)
    requires k in db.apiKeys ==> db.apiKeys[k].status == Revoked || db.apiKeys[k].status == Used
    ensures RefusedEverywhere(db, k, secret)
  {
  }

  lemma SameRowSameAnswers(db: Db, after: Db, k: Id, secret: Secret)
    requires after.now == db.now && after.bans == db.bans && (k in after.apiKeys <==> k in db.apiKeys)
    requires k in db.apiKeys ==> after.apiKeys[k] == db.apiKeys[k]
    ensures Answers(after, k, secret) == Answers(db, k, secret)
  {
    hide Banned;
  }

  /** A revocation succeeds exactly for a key in use that the owner owns and the caller may manage; then
      the key is refused on every path and every other credential is answered as before. */
  lemma RevokedKeyIsRefused(db: Db, c: Claims, k: Id, j: Id, secret: Secret)
    ensures var (r, after) := RevokeById(db, c, k);
            && (r.Ok? <==> MayManageKey(db, c, k) && k in db.apiKeys && db.apiKeys[k].owner == c.owner
                           && db.apiKeys[k].status != Revoked && db.apiKeys[k].status != Used)
            && (if r.Ok? && j == k then RefusedEverywhere(after, j, secret)
                else Answers(after, j, secret) == Answers(db, j, secret))
  {
    hide Answers, RefusedEverywhere, MayManageKey;
    var (r, after) := RevokeById(db, c, k);
    if r.Ok? && j == k { OutOfUseIsRefused(after, j, secret); } else { SameRowSameAnswers(db, after, j, secret); }
  }

  lemma DeletionChangesNoAnswer(db: Db, doomed: set<Id>, j: Id, secret: Secret)
    requires forall k | k in doomed && k in db.apiKeys ::
               db.apiKeys[k].status == Revoked || db.apiKeys[k].status == Used
    ensures Answers(DeleteApiKeys(db, doomed), j, secret) == Answers(db, j, secret)
  {
    hide Answers, RefusedEverywhere;
    var after := DeleteApiKeys(db, doomed);
    if j in doomed {
      OutOfUseIsRefused(db, j, secret);
      OutOfUseIsRefused(after, j, secret);
      BothRefused(db, after, j, secret);
    } else {
      SameRowSameAnswers(db, after, j, secret);
    }
  }

  lemma BothRefused(db: Db, after: Db, j: Id, secret: Secret)
    requires RefusedEverywhere(db, j, secret) && RefusedEverywhere(after, j, secret)
    ensures Answers(db, j, secret) == Answers(after, j, secret)
  {
    hide Answers;
  }

  /** Deleting a key only tidies up: it succeeds exactly for a manageable key of the owner that is out of
      use, takes exactly that row, and no authentication on any path is answered differently. */
  lemma DeletingAKeyOnlyTidiesUp(db: Db, c: Claims, k: Id, j: Id, secret: Secret)
    ensures var (r, after) := DeleteById(db, c, k);
            && (r.Ok? <==> MayManageKey(db, c, k) && k in db.apiKeys && db.apiKeys[k].owner == c.owner
                           && (db.apiKeys[k].status == Revoked || db.apiKeys[k].status == Used))
            && after.apiKeys.Keys == (if r.Ok? then db.apiKeys.Keys - {k} else db.apiKeys.Keys)
            && Answers(after, j, secret) == Answers(db, j, secret)
  {
    hide Answers, MayManageKey;
    if DeleteById(db, c, k).0.Ok? { DeletionChangesNoAnswer(db, {k}, j, secret); }
  }

  /** So does deleting the revoked sessions: exactly those of the owner go, and no authentication is
      answered differently. */
  lemma DeletingSessionsOnlyTidiesUp(db: Db, c: Claims, j: Id, secret: Secret)
    ensures var (r, after) := DeleteRevokedSessions(db, c);
            && (r.Ok? ==> forall k | k in db.apiKeys ::
                  k in after.apiKeys <==> !(db.apiKeys[k].owner == c.owner && db.apiKeys[k].kind.Session?
                                            && db.apiKeys[k].status == Revoked))
            && after.apiKeys.Keys <= db.apiKeys.Keys && (r.Err? ==> after == db)
            && (r.Ok? <==> MayManageCredentials(db, c))
            && Answers(after, j, secret) == Answers(db, j, secret)
  {
    hide Answers, RestrictedCaller;
    if DeleteRevokedSessions(db, c).0.Ok? { DeletionChangesNoAnswer(db, RevokedSessions(db, c.owner), j, secret); }
  }

  /** A login starts one session of the owner without a device, for fifteen hours, ends the owner's sessions
      under the same label, and changes the answer to no other credential. */
  lemma LoginStartsOneSession(db: Db, owner: string, email: string, k: Id, secret: Secret, late: int)
    ensures var (id, after) := LoginSession(db, owner, email);
            && id in after.apiKeys
            && AdminAuth(after.(now := late), id, after.apiKeys[id].keyHash.secret)
               == (if late < db.now + 15 * 3600 then Ok(Claims(owner, None, id)) else Err(SessionExpired))
            && (k != id ==>
                  if k in db.apiKeys && db.apiKeys[k].owner == owner && db.apiKeys[k].kind == Session
                     && db.apiKeys[k].status == Active && db.apiKeys[k].name == email
                  then RefusedEverywhere(after, k, secret)
                  else Answers(after, k, secret) == Answers(db, k, secret))
  {
    hide Answers, RefusedEverywhere, RevokeSessions;
    var (id, after) := LoginSession(db, owner, email);
    RevokeKeepsTheRest(db, owner, Some(email));
    if k != id {
      if k in db.apiKeys { RevokedRow(db, owner, Some(email), k); } else { NoNewRow(db, owner, Some(email), k); }
      if k in db.apiKeys && ActiveSession(db.apiKeys[k], owner, Some(email)) {
        OutOfUseIsRefused(after, k, secret);
      } else {
        SameRowSameAnswers(db, after, k, secret);
      }
    }
  }

  lemma NoNewRow(db: Db, owner: string, name: Option<string>, k: Id)
    requires k !in db.apiKeys
    ensures k !in RevokeSessions(db, owner, name).apiKeys
  {
  }

  /** A new command-line session ends exactly the owner's active sessions labelled `session`: on every path
      each of them is refused and every other credential is answered as before. */
  lemma NewSessionEndsExactlyTheLabelled(db: Db, c: Claims, k: Id, secret: Secret)
    requires CreateSessionKey(db, c).0.Ok? && k != db.nextId
    ensures var after := CreateSessionKey(db, c).1;
            if k in db.apiKeys && db.apiKeys[k].owner == c.owner && db.apiKeys[k].kind == Session
               && db.apiKeys[k].status == Active && db.apiKeys[k].name == "session"
            then RefusedEverywhere(after, k, secret)
            else Answers(after, k, secret) == Answers(db, k, secret)
  {
    hide Answers, RefusedEverywhere, RestrictedCaller, RevokeSessions, MintKey;
    var revoked := RevokeSessions(db, c.owner, Some(CLI_SESSION));
    RevokeKeepsTheRest(db, c.owner, Some(CLI_SESSION));
    if k in db.apiKeys {
      RevokedRow(db, c.owner, Some(CLI_SESSION), k);
      MintKeepsRow(revoked, CLI_SESSION, Session, db.now + 15 * 3600, c, k);
    } else {
      NoNewRow(db, c.owner, Some(CLI_SESSION), k);
      MintAddsNoOther(revoked, CLI_SESSION, Session, db.now + 15 * 3600, c, k);
    }
    if k in db.apiKeys && ActiveSession(db.apiKeys[k], c.owner, Some(CLI_SESSION)) {
      OutOfUseIsRefused(CreateSessionKey(db, c).1, k, secret);
    } else {
      SameRowSameAnswers(db, CreateSessionKey(db, c).1, k, secret);
    }
  }

  lemma MintAddsNoOther(db: Db, name: string, kind: KeyKind, expiry: int, c: Claims, k: Id)
    requires k != db.nextId && k !in db.apiKeys
    requires MintKey(db, name, kind, Some(expiry), c.owner, c.device).Some?
    ensures var minted := MintKey(db, name, kind, Some(expiry), c.owner, c.device).value;
            k !in minted.apiKeys && minted.now == db.now && minted.bans == db.bans
  {
  }

  /** That takes in device sessions, which carry the same label: the session that an approval has just
      minted for a device ends when the owner creates a command-line session. */
  lemma NewSessionEndsDeviceSessions(db: Db, c: Claims, r: Id, token: Secret, hours: Option<int>, caller: Claims,
                                     secret: Secret)
    requires Intact(db) && ApproveSession(db, c, r, token, hours).0.Ok? && caller.owner == c.owner
    requires CreateSessionKey(ApproveSession(db, c, r, token, hours).1, caller).0.Ok?
    ensures var (k, approved) := (ApproveSession(db, c, r, token, hours).0.value,
                                  ApproveSession(db, c, r, token, hours).1);
            && k in approved.apiKeys && approved.apiKeys[k].device.Some?
            && RefusedEverywhere(CreateSessionKey(approved, caller).1, k, secret)
  {
    hide RefusedEverywhere, CreateSessionKey, RestrictedCaller, Banned, WrapForDevice, ColumnsOf;
    var (k, approved) := (ApproveSession(db, c, r, token, hours).0.value, ApproveSession(db, c, r, token, hours).1);
    assert ActiveSession(approved.apiKeys[k], c.owner, Some(CLI_SESSION));
    NewSessionEndsExactlyTheLabelled(approved, caller, k, secret);
  }

  // ---------------------------------------------------------------- the text of an import

  /** The line assigns: its trimmed form, which is no comment, is a name part without an equals sign,
      an equals sign and a value part. */
  predicate Assigns(line: string, left: string, right: string) {
    Trim(line) == left + "=" + right && '=' !in left && Trim(line)[0] != '#'
  }

  /** A value part in quotes stands for what is between them, any other for itself. */
  predicate Means(part: string, value: string) {
    || (exists quote :: (quote == '"' || quote == '\'') && part == [quote] + value + [quote])
    || (part == value && !QuotedBy(part, '"') && !QuotedBy(part, '\''))
  }

  predicate LoneQuote(part: string) { part == "\"" || part == "'" }

  /** What one line of the file contributes. */
  ghost predicate Contributes(prefix: string, line: string, e: (string, string)) {
    exists left, right :: Assigns(line, left, right) && e.0 == prefix + Trim(left) && Means(Trim(right), e.1)
  }

  ghost predicate Breaks(line: string) { exists left, right :: Assigns(line, left, right) && LoneQuote(Trim(right)) }

  ghost predicate Ignored(line: string) { forall left, right :: !Assigns(line, left, right) }

  lemma {:induction false} FirstEqualsSplits(left: string, right: string)
    requires '=' !in left
    ensures FirstEquals(left + "=" + right) == |left|
  {
    if left != [] {
      assert left[0] != '=';
      assert (left + "=" + right)[1..] == left[1..] + "=" + right;
      FirstEqualsSplits(left[1..], right);
    }
  }

  lemma SplitIsUnique(line: string, left: string, right: string)
    requires Assigns(line, left, right)
    ensures var n := FirstEquals(Trim(line));
            n < |Trim(line)| && left == Trim(line)[..n] && right == Trim(line)[n + 1..]
  {
    FirstEqualsSplits(left, right);
  }

  lemma UnquoteMeans(part: string)
    ensures Unquote(part).None? <==> LoneQuote(part)
    ensures Unquote(part).Some? ==> Means(part, Unquote(part).value)
  {
    if Unquote(part).Some? && (QuotedBy(part, '"') || QuotedBy(part, '\'')) {
      assert part == [part[0]] + Unquote(part).value + [part[0]];
    }
    if part != [] && |part| < 2 { assert part == [part[0]]; }
  }

  /** The parts of an assigning line. */
  lemma PartsAssign(line: string)
    requires Trim(line) != [] && Trim(line)[0] != '#' && FirstEquals(Trim(line)) < |Trim(line)|
    ensures var (t, n) := (Trim(line), FirstEquals(Trim(line))); Assigns(line, t[..n], t[n + 1..])
  {
    hide Trim, FirstEquals;
    var (t, n) := (Trim(line), FirstEquals(Trim(line)));
    assert t == t[..n] + "=" + t[n + 1..];
  }

  lemma NoPartsIsIgnored(line: string)
    requires Trim(line) == [] || Trim(line)[0] == '#' || FirstEquals(Trim(line)) == |Trim(line)|
    ensures Ignored(line)
  {
    hide Trim, FirstEquals;
    forall left, right | Assigns(line, left, right) ensures false {
      SplitIsUnique(line, left, right);
    }
  }

  lemma LineIsParsed(prefix: string, line: string)
    ensures match ParseLine(prefix, line)
            case Skipped => Ignored(line)
            case Panics => Breaks(line)
            case Entry(key, value) => Contributes(prefix, line, (key, value)) && !Breaks(line)
  {
    hide Trim, FirstEquals, Unquote, Means, LoneQuote, Assigns, Ignored;
    var t := Trim(line);
    var n := FirstEquals(t);
    if t == [] || t[0] == '#' || n == |t| {
      NoPartsIsIgnored(line);
    } else {
      PartsAssign(line);
      UnquoteMeans(Trim(t[n + 1..]));
      forall left, right | Assigns(line, left, right) ensures right == t[n + 1..] {
        SplitIsUnique(line, left, right);
      }
    }
  }

  /** The entries are those of the assigning lines, in their order: `at` lists the lines that they come
      from, and every other line is ignored. */
  ghost predicate Reads(prefix: string, lines: seq<string>, entries: seq<(string, string)>, at: seq<nat>) {
    && |at| == |entries|
    && (forall i | 0 <= i < |at| :: at[i] < |lines| && Contributes(prefix, lines[at[i]], entries[i]))
    && (forall i, j | 0 <= i < j < |at| :: at[i] < at[j])
    && (forall n | 0 <= n < |lines| :: n in at || Ignored(lines[n]))
  }

  lemma ReadsIgnored(prefix: string, lines: seq<string>, line: string, entries: seq<(string, string)>, at: seq<nat>)
    requires Reads(prefix, lines, entries, at) && Ignored(line)
    ensures Reads(prefix, lines + [line], entries, at)
  {
    hide Ignored, Contributes;
  }

  lemma ReadsEntry(prefix: string, lines: seq<string>, line: string, entries: seq<(string, string)>, at: seq<nat>,
                   e: (string, string))
    requires Reads(prefix, lines, entries, at) && Contributes(prefix, line, e)
    ensures Reads(prefix, lines + [line], entries + [e], at + [|lines|])
  {
    hide Ignored, Contributes;
    forall n | 0 <= n < |lines| + 1 ensures n in at + [|lines|] || Ignored((lines + [line])[n]) {
      if n < |lines| && n in at { assert n in at + [|lines|]; }
      if n == |lines| { assert (at + [|lines|])[|at|] == n; }
    }
  }

  /** A file yields the entries of exactly its assigning lines. It is refused exactly if some line assigns
      a value that is one quote character. */
  lemma {:induction false} FileIsParsed(prefix: string, lines: seq<string>) returns (at: seq<nat>)
    ensures ParseFile(prefix, lines).Err? <==> exists line | line in lines :: Breaks(line)
    ensures ParseFile(prefix, lines).Err? ==> ParseFile(prefix, lines) == Err(Internal)
    ensures ParseFile(prefix, lines).Ok? ==> Reads(prefix, lines, ParseFile(prefix, lines).value, at)
  {
    hide ParseLine, Breaks, Ignored, Contributes;
    at := [];
    if lines != [] {
      hide Reads;
      var (n, entry) := (|lines| - 1, ParseLine(prefix, lines[|lines| - 1]));
      at := FileIsParsed(prefix, lines[..n]);
      LineIsParsed(prefix, lines[n]);
      IgnoredBreaksNothing(lines[n]);
      assert lines == lines[..n] + [lines[n]];
      if ParseFile(prefix, lines[..n]).Ok? {
        var entries := ParseFile(prefix, lines[..n]).value;
        if entry.Entry? {
          ReadsEntry(prefix, lines[..n], lines[n], entries, at, (entry.key, entry.value));
          at := at + [n];
        } else if entry.Skipped? {
          ReadsIgnored(prefix, lines[..n], lines[n], entries, at);
        }
      }
    }
  }

  lemma IgnoredBreaksNothing(line: string)
    ensures Ignored(line) ==> !Breaks(line)
  {
  }
}
