/** What every authenticated handler does when its statements run without interruption: its
    guards, its answer, and the tables afterwards. */
module Handlers {
  import opened Basics
  import opened Text
  import opened Policy
  import opened Bans
  import opened Tables
  import opened DeviceDeletion
  import opened Sessions
  import opened Credentials
  import opened Entries

  // ---------------------------------------------------------------- guards

  /** `restricted_caller`: the caller's device if it has any policy other than allow_all. */
  function RestrictedCaller(db: Db, c: Claims): Option<Id> {
    if c.device.Some? && IsRestricted(db.policies, db.policyKeys, c.device.value) then c.device else None
  }

  /** `ensure_may_manage_credentials` */
  predicate MayManageCredentials(db: Db, c: Claims) { RestrictedCaller(db, c).None? }

  /** `ensure_may_manage_api_key` */
  predicate MayManageKey(db: Db, c: Claims, k: Id) {
    var restricted := RestrictedCaller(db, c);
    restricted.Some? ==>
      k in db.apiKeys && db.apiKeys[k].owner == c.owner && db.apiKeys[k].device == restricted
  }

  /** `authorize_key`; recording a violation fails when the device row is gone. */
  function AuthorizeKey(db: Db, base: nat, device: Id, owner: string, key: string): (Result<(), AppError>, Db) {
    if Banned(db.bans, device, db.now) then (Err(DeviceBanned), db)
    else if KeyPermitted(db.policies, db.policyKeys, device, key) then (Ok(()), db)
    else if device !in db.bans && device !in db.devices then (Err(Internal), db)
    else (Err(DeviceBanned), db.(bans := AfterViolation(db.bans, device, owner, base, db.now, key)))
  }

  /** `authorize_device_key` and `authorize_device_access`: only device callers are held to a policy. */
  function AuthorizeCaller(db: Db, base: nat, c: Claims, key: string): (Result<(), AppError>, Db) {
    if c.device.None? then (Ok(()), db) else AuthorizeKey(db, base, c.device.value, c.owner, key)
  }

  lemma PassedCheckChangesNothing(db: Db, base: nat, c: Claims, key: string)
    ensures AuthorizeCaller(db, base, c, key).0.Ok? ==> AuthorizeCaller(db, base, c, key).1 == db
  {
  }

  // ---------------------------------------------------------------- credentials

  function NamesIn(names: seq<string>): set<string> { set n | n in names }

  function CreateKey(db: Db, c: Claims, name: string, kind: KeyKind, expiresAt: Option<int>, allowed: set<string>)
    : (Result<Id, AppError>, Db)
  {
    if !MayManageCredentials(db, c) then (Err(Forbidden), db)
    else if kind.Session? || kind.ApprovalToken? then (Err(Forbidden), db)
    else
      match MintKey(db, name, kind, expiresAt, c.owner, c.device)
      case None => (Err(Internal), db)
      case Some(minted) => (Ok(db.nextId), Allow(minted, db.nextId, allowed))
  }

  /** The label that marks command-line sessions. */
  const CLI_SESSION: string := "session"

  function CreateSessionKey(db: Db, c: Claims): (Result<Id, AppError>, Db) {
    if !MayManageCredentials(db, c) then (Err(Forbidden), db)
    else
      var revoked := RevokeSessions(db, c.owner, Some(CLI_SESSION));
      match MintKey(revoked, CLI_SESSION, Session, Some(db.now + 15 * 3600), c.owner, c.device)
      case None => (Err(Internal), revoked)
      case Some(minted) => (Ok(db.nextId), minted)
  }

  /** `create_session_key` of the login: the one place that mints without a caller, and always without a
      device. */
  function LoginSession(db: Db, owner: string, email: string): (Id, Db) {
    var revoked := RevokeSessions(db, owner, Some(email));
    (db.nextId,
     revoked.(nextId := db.nextId + 2,
              apiKeys := revoked.apiKeys[db.nextId := ApiKey(Digest(db.nextId + 1), email, Session, Active,
                                                             Some(db.now + 15 * 3600), owner, None)]))
  }

  function CreateToken(db: Db, c: Claims, name: string, secs: int): (Result<Id, AppError>, Db) {
    if !MayManageCredentials(db, c) then (Err(Forbidden), db)
    else
      match MintKey(db, name, ApprovalToken, Some(db.now + secs), c.owner, c.device)
      case None => (Err(Internal), db)
      case Some(minted) => (Ok(db.nextId), minted)
  }

  const DAY: nat := 24 * 3600

  /** The lifetime of a command-line token: one to seven days, one if none is asked for. */
  function CliDays(days: Option<int>): (n: nat)
    ensures 1 <= n <= 7
  {
    if days.None? || days.value < 1 then 1 else if days.value > 7 then 7 else days.value
  }

  function CreateCliToken(db: Db, c: Claims, days: Option<int>): (Result<Id, AppError>, Db) {
    CreateToken(db, c, "kv-cli", CliDays(days) * DAY)
  }

  function CreateDeviceToken(db: Db, c: Claims): (Result<Id, AppError>, Db) {
    CreateToken(db, c, "kv-approver device", 180 * DAY)
  }

  function RevokeById(db: Db, c: Claims, k: Id): (Result<(), AppError>, Db) {
    if !MayManageKey(db, c, k) then (Err(Forbidden), db)
    else if !Revocable(db, c.owner, k) then (Err(NotFound), db)
    else (Ok(()), RevokeKey(db, c.owner, k))
  }

  function DeleteById(db: Db, c: Claims, k: Id): (Result<(), AppError>, Db) {
    if !MayManageKey(db, c, k) then (Err(Forbidden), db)
    else if !Deletable(db, c.owner, k) then (Err(NotFound), db)
    else (Ok(()), DeleteKey(db, c.owner, k))
  }

  function DeleteRevokedSessions(db: Db, c: Claims): (Result<(), AppError>, Db) {
    if !MayManageCredentials(db, c) then (Err(Forbidden), db)
    else (Ok(()), DeleteApiKeys(db, RevokedSessions(db, c.owner)))
  }

  /** A restricted device logs out only its own credential. */
  function Logout(db: Db, c: Claims): Db {
    if RestrictedCaller(db, c).None? then RevokeSessions(db, c.owner, None)
    else if c.keyId in db.apiKeys && db.apiKeys[c.keyId].status == Active then RevokeKey(db, c.owner, c.keyId)
    else db
  }

  function ApproveKey(db: Db, c: Claims, a: Id, confirm: Secret): (Result<(), AppError>, Db) {
    if !MayManageCredentials(db, c) then (Err(Forbidden), db)
    else
      match ChooseApproval(db, c.owner, a, confirm)
      case Err(e) => (Err(e), db)
      case Ok(k) => (Ok(()), GrantApproval(db, a, k))
  }

  function RejectKey(db: Db, c: Claims, a: Id): (Result<(), AppError>, Db) {
    if !MayManageCredentials(db, c) then (Err(Forbidden), db)
    else if DeclineApproval(db, c.owner, a) == db then (Err(NotFound), db)
    else (Ok(()), DeclineApproval(db, c.owner, a))
  }

  // ---------------------------------------------------------------- session requests

  function ApproveSession(db: Db, c: Claims, r: Id, token: Secret, hours: Option<int>): (Result<Id, AppError>, Db) {
    Approve(db, c.owner, RestrictedCaller(db, c), r, token, HoursGranted(hours))
  }

  function RejectSession(db: Db, c: Claims, r: Id): (Result<(), AppError>, Db) {
    if !MayManageCredentials(db, c) then (Err(Forbidden), db) else Reject(db, c.owner, r)
  }

  // ---------------------------------------------------------------- devices and policies

  /** The end of `register_finish`, for an enrolment that the caller began and the ceremony confirmed. */
  function Register(db: Db, c: Claims, name: string, publicKey: string, keyType: string): (Result<Id, AppError>, Db) {
    if !MayManageCredentials(db, c) then (Err(Forbidden), db)
    else
      match EnrolDevice(db, c.owner, name, publicKey, keyType)
      case None => (Err(Conflict), db)
      case Some(enrolled) => (Ok(db.nextId), enrolled)
  }

  function RemoveDevice(db: Db, c: Claims, device: Id): (Result<(), AppError>, Db) {
    if c.device == Some(device) then (Err(Forbidden), db)
    else if !MayManageCredentials(db, c) then (Err(Forbidden), db)
    else AfterDelete(db, c.owner, device)
  }

  function LinkProposed(db: Db, c: Claims, p: Id, token: Secret, device: Id): (Result<(), AppError>, Db) {
    if !MayManageCredentials(db, c) then (Err(Forbidden), db) else LinkProposal(db, c.owner, p, token, device)
  }

  function RejectProposed(db: Db, c: Claims, p: Id): (Result<(), AppError>, Db) {
    if !MayManageCredentials(db, c) then (Err(Forbidden), db)
    else if DismissProposal(db, p) == db then (Err(NotFound), db)
    else (Ok(()), DismissProposal(db, p))
  }

  function UpdatePolicy(db: Db, c: Claims, device: Id, body: UpdateRequest): (Result<(), AppError>, Db) {
    var outcome := UpdateOutcome(OwnersOf(db.devices), c, device, body);
    if outcome.Err? then (outcome, db)
    else (outcome, db.(policies := SavedPolicies(db.policies, c.owner, device, Validated(body).value),
                       policyKeys := SavedKeys(db.policyKeys, device, Validated(body).value)))
  }

  function Unban(db: Db, c: Claims, device: Id): (Result<(), AppError>, Db) {
    if c.device.Some? then (Err(Forbidden), db)
    else
      var lifted := LiftBan(db.bans, OwnersOf(db.devices), c.owner, device, db.now);
      if lifted == db.bans then (Err(NotFound), db) else (Ok(()), db.(bans := lifted))
  }

  predicate ReceivedBy(row: Recipient, device: Id, owner: string, key: string) {
    row == Recipient(key, owner, device)
  }

  /** `get_device_kv`: the caller's own device answers for the name with a ban; the device of the
      path, when it is another one, only with a refusal. */
  function FetchDeviceKv(db: Db, base: nat, c: Claims, device: Id, key: string): (Result<string, AppError>, Db) {
    if device !in db.devices || db.devices[device].owner != c.owner then (Err(NotFound), db)
    else
      var (own, checked) := AuthorizeCaller(db, base, c, key);
      if own.Err? then (Err(own.error), checked)
      else if c.device != Some(device) && Banned(db.bans, device, db.now) then (Err(DeviceBanned), db)
      else if c.device != Some(device) && !KeyPermitted(db.policies, db.policyKeys, device, key)
      then (Err(Forbidden), db)
      else if (key, c.owner) !in db.bodies then (Err(NotFound), db)
      else if forall r | r in db.recipients :: !ReceivedBy(db.recipients[r], device, c.owner, key)
      then (Err(NotFound), db)
      else (Ok(db.bodies[(key, c.owner)]), Touch(db, device))
  }

  // ---------------------------------------------------------------- entries

  predicate Present(db: Db, owner: string, key: string) {
    (key, owner) in db.kv && Unexpired(db.kv[(key, owner)].expiresAt, db.now)
  }

  /** Whether the row can be read as a plain value. */
  function Readable(row: KvEntry): Result<string, AppError> {
    if row.deviceEncrypted then Err(Forbidden)
    else if row.zeroTrust.Some? then Err(ZeroTrustRequired)
    else Ok(row.value)
  }

  function AdminRead(db: Db, base: nat, c: Claims, key: string): (Result<string, AppError>, Db) {
    var (own, checked) := AuthorizeCaller(db, base, c, key);
    if own.Err? then (Err(own.error), checked)
    else if !Present(db, c.owner, key) then (Err(NotFound), db)
    else
      match Readable(db.kv[(key, c.owner)])
      case Err(_) => (Err(Forbidden), db)
      case Ok(value) => (Ok(value), db)
  }

  function AdminWrite(db: Db, base: nat, c: Claims, key: string, body: EntryBody): (Result<(), AppError>, Db) {
    var (own, checked) := AuthorizeCaller(db, base, c, key);
    if own.Err? then (own, checked) else (Ok(()), PutEntry(db, c.owner, key, body))
  }

  function AdminDelete(db: Db, base: nat, c: Claims, key: string): (Result<(), AppError>, Db) {
    var (own, checked) := AuthorizeCaller(db, base, c, key);
    if own.Err? then (own, checked)
    else if (key, c.owner) !in db.kv then (Err(NotFound), db)
    else (Ok(()), DropEntry(db, c.owner, key))
  }

  /** `check_kv_access`: a manual key is limited to the names listed for it. */
  predicate MayAccess(allowed: Option<seq<string>>, key: string) { allowed.None? || key in allowed.value }

  function GetEntry(db: Db, base: nat, c: Claims, allowed: Option<seq<string>>, key: string)
    : (Result<string, AppError>, Db)
  {
    var (own, checked) := AuthorizeCaller(db, base, c, key);
    if own.Err? then (Err(own.error), checked)
    else if !MayAccess(allowed, key) then (Err(Forbidden), db)
    else if !Present(db, c.owner, key) then (Err(NotFound), db)
    else
      match Readable(db.kv[(key, c.owner)])
      case Err(e) => (Err(e), db)
      case Ok(value) => (Ok(value), Slide(db, c.owner, key))
  }

  const RESERVED: string := "NOTIFY_API_KEY"

  function PutByKey(db: Db, base: nat, c: Claims, allowed: Option<seq<string>>, admin: Option<string>, key: string,
                    body: EntryBody): (Result<(), AppError>, Db)
  {
    var (own, checked) := AuthorizeCaller(db, base, c, key);
    if own.Err? then (own, checked)
    else if !MayAccess(allowed, key) then (Err(Forbidden), db)
    else if key == RESERVED && admin != Some(c.owner) then (Err(Forbidden), db)
    else (Ok(()), PutEntry(db, c.owner, key, body))
  }

  function DeleteByKey(db: Db, base: nat, c: Claims, allowed: Option<seq<string>>, key: string)
    : (Result<(), AppError>, Db)
  {
    var (own, checked) := AuthorizeCaller(db, base, c, key);
    if own.Err? then (own, checked)
    else if !MayAccess(allowed, key) then (Err(Forbidden), db)
    else if (key, c.owner) !in db.kv then (Err(NotFound), db)
    else (Ok(()), DropEntry(db, c.owner, key))
  }

  // ---------------------------------------------------------------- device-encrypted entries

  function WriteDeviceKv(db: Db, base: nat, c: Claims, key: string, body: string, devices: seq<Id>)
    : (Result<(), AppError>, Db)
  {
    var (own, checked) := AuthorizeCaller(db, base, c, key);
    if own.Err? then (own, checked)
    else if devices == [] then (Err(Forbidden), db)
    else if !RecipientsValid(db.devices, devices) then (Err(Internal), db)
    else (Ok(()), MarkEncrypted(Resealed(db, c.owner, key, body, devices), c.owner, key))
  }

  // ---------------------------------------------------------------- import

  datatype Line = Skipped | Panics | Entry(key: string, value: string)

  predicate QuotedBy(s: string, quote: char) { s != [] && s[0] == quote && s[|s| - 1] == quote }

  /** `unquote`; a value that is one quote character makes the slice bounds cross. */
  function Unquote(s: string): Option<string> {
    if QuotedBy(s, '"') || QuotedBy(s, '\'') then if |s| < 2 then None else Some(s[1..|s| - 1])
    else Some(s)
  }

  /** The place of the first equals sign, or the length. */
  function FirstEquals(s: string): (n: nat)
    ensures n <= |s| && (n < |s| ==> s[n] == '=') && '=' !in s[..n]
  {
    if s == [] || s[0] == '=' then 0 else 1 + FirstEquals(s[1..])
  }

  function ParseLine(prefix: string, line: string): Line {
    var trimmed := Trim(line);
    if trimmed == [] || trimmed[0] == '#' then Skipped
    else
      var n := FirstEquals(trimmed);
      if n == |trimmed| then Skipped
      else
        match Unquote(Trim(trimmed[n + 1..]))
        case None => Panics
        case Some(value) => Entry(prefix + Trim(trimmed[..n]), value)
  }

  /** The entries of a file, in order. */
  function ParseFile(prefix: string, lines: seq<string>): Result<seq<(string, string)>, AppError> {
    if lines == [] then Ok([])
    else
      match ParseFile(prefix, lines[..|lines| - 1])
      case Err(e) => Err(e)
      case Ok(entries) =>
        match ParseLine(prefix, lines[|lines| - 1])
        case Skipped => Ok(entries)
        case Panics => Err(Internal)
        case Entry(key, value) => Ok(entries + [(key, value)])
  }

  lemma {:induction false} PanicIsFinal(prefix: string, lines: seq<string>, i: nat)
    requires i < |lines| && ParseFile(prefix, lines[..i + 1]) == Err(Internal)
    ensures ParseFile(prefix, lines) == Err(Internal)
    decreases |lines|
  {
    var n := |lines| - 1;
    if i == n {
      assert lines[..i + 1] == lines;
    } else {
      assert lines[..n][..i + 1] == lines[..i + 1];
      PanicIsFinal(prefix, lines[..n], i);
    }
  }

  /** The checks of all names, up to the first refusal. */
  function AuthorizeAll(db: Db, base: nat, c: Claims, entries: seq<(string, string)>): (Result<(), AppError>, Db) {
    if entries == [] then (Ok(()), db)
    else
      var (earlier, checked) := AuthorizeAll(db, base, c, entries[..|entries| - 1]);
      if earlier.Err? then (earlier, checked)
      else AuthorizeCaller(checked, base, c, entries[|entries| - 1].0)
  }

  lemma AuthorizeOneMore(db: Db, base: nat, c: Claims, entries: seq<(string, string)>, i: nat)
    requires i < |entries| && AuthorizeAll(db, base, c, entries[..i]).0.Ok?
    ensures AuthorizeAll(db, base, c, entries[..i + 1])
         == AuthorizeCaller(AuthorizeAll(db, base, c, entries[..i]).1, base, c, entries[i].0)
  {
    hide AuthorizeCaller;
    assert entries[..i + 1][..i] == entries[..i];
  }

  lemma {:induction false} RefusalIsFinal(db: Db, base: nat, c: Claims, entries: seq<(string, string)>, i: nat)
    requires i <= |entries| && AuthorizeAll(db, base, c, entries[..i]).0.Err?
    ensures AuthorizeAll(db, base, c, entries) == AuthorizeAll(db, base, c, entries[..i])
    decreases |entries|
  {
    hide AuthorizeCaller;
    if i == |entries| {
      assert entries[..i] == entries;
    } else {
      var n := |entries| - 1;
      assert entries[..n][..i] == entries[..i];
      RefusalIsFinal(db, base, c, entries[..n], i);
    }
  }

  lemma {:induction false} PassedChecksChangeNothing(db: Db, base: nat, c: Claims, entries: seq<(string, string)>)
    ensures AuthorizeAll(db, base, c, entries).0.Ok? ==> AuthorizeAll(db, base, c, entries).1 == db
  {
    hide AuthorizeCaller;
    if entries != [] {
      PassedChecksChangeNothing(db, base, c, entries[..|entries| - 1]);
      PassedCheckChangesNothing(db, base, c, entries[|entries| - 1].0);
    }
  }

  function PutAll(db: Db, owner: string, options: EntryBody, entries: seq<(string, string)>): Db {
    if entries == [] then db
    else
      var before := PutAll(db, owner, options, entries[..|entries| - 1]);
      var (key, value) := entries[|entries| - 1];
      PutEntry(before, owner, key, ImportBody(before, owner, key, value, options))
  }

  function Import(db: Db, base: nat, c: Claims, prefix: string, options: EntryBody, lines: seq<string>)
    : (Result<nat, AppError>, Db)
  {
    match ParseFile(prefix, lines)
    case Err(e) => (Err(e), db)
    case Ok(entries) =>
      var (own, checked) := AuthorizeAll(db, base, c, entries);
      if own.Err? then (Err(own.error), checked)
      else (Ok(|entries|), PutAll(db, c.owner, options, entries))
  }

  /** The value that the last entry of a name gives it. */
  function LastValue(entries: seq<(string, string)>, key: string): Option<string> {
    if entries == [] then None
    else if entries[|entries| - 1].0 == key then Some(entries[|entries| - 1].1)
    else LastValue(entries[..|entries| - 1], key)
  }

  lemma {:induction false} PutAllStoresLastValues(db: Db, owner: string, options: EntryBody,
                                                  entries: seq<(string, string)>, e: EntryKey)
    ensures var after := PutAll(db, owner, options, entries);
            && after == db.(kv := after.kv)
            && (if e.1 == owner && LastValue(entries, e.0).Some?
                then e in after.kv && after.kv[e].value == LastValue(entries, e.0).value
                else (e in after.kv <==> e in db.kv) && (e in db.kv ==> after.kv[e] == db.kv[e]))
  {
    if entries != [] { PutAllStoresLastValues(db, owner, options, entries[..|entries| - 1], e); }
  }

  lemma {:induction false} PassedChecksPermit(db: Db, base: nat, c: Claims, entries: seq<(string, string)>)
    requires AuthorizeAll(db, base, c, entries).0.Ok? && c.device.Some?
    ensures forall e | e in entries :: KeyPermitted(db.policies, db.policyKeys, c.device.value, e.0)
  {
    hide KeyPermitted, Banned;
    if entries != [] {
      var n := |entries| - 1;
      PassedChecksPermit(db, base, c, entries[..n]);
      PassedChecksChangeNothing(db, base, c, entries[..n]);
      assert entries == entries[..n] + [entries[n]];
    }
  }

  /** An import is all or nothing: if it succeeds, the caller's policy permits every name in the
      file, each name holds the last value given for it and no other entry differs; if it fails,
      no entry differs. */
  lemma ImportIsAllOrNothing(db: Db, base: nat, c: Claims, prefix: string, options: EntryBody, lines: seq<string>,
                             e: EntryKey)
    ensures var (r, after) := Import(db, base, c, prefix, options, lines);
            if r.Err? then after.kv == db.kv
            else
              var entries := ParseFile(prefix, lines).value;
              && r == Ok(|entries|)
              && (c.device.Some? ==>
                    forall x | x in entries :: KeyPermitted(db.policies, db.policyKeys, c.device.value, x.0))
              && (if e.1 == c.owner && LastValue(entries, e.0).Some?
                  then e in after.kv && after.kv[e].value == LastValue(entries, e.0).value
                  else (e in after.kv <==> e in db.kv) && (e in db.kv ==> after.kv[e] == db.kv[e]))
  {
    hide KeyPermitted, ParseFile, AuthorizeAll, PutAll, LastValue;
    if ParseFile(prefix, lines).Ok? {
      var entries := ParseFile(prefix, lines).value;
      ChecksKeepEntries(db, base, c, entries);
      if AuthorizeAll(db, base, c, entries).0.Ok? {
        if c.device.Some? { PassedChecksPermit(db, base, c, entries); }
        PutAllStoresLastValues(db, c.owner, options, entries, e);
      }
    }
  }

  lemma {:induction false} ChecksKeepEntries(db: Db, base: nat, c: Claims, entries: seq<(string, string)>)
    ensures AuthorizeAll(db, base, c, entries).1.kv == db.kv
  {
    if entries != [] { ChecksKeepEntries(db, base, c, entries[..|entries| - 1]); }
  }

  // ---------------------------------------------------------------- banned devices

  /** While a device is banned its credentials authenticate on none of the three paths, and a one-time
      key among them is not used up by trying. */
  lemma BannedCredentialsAreRefused(db: Db, d: Id, k: Id, secret: Secret)
    requires Banned(db.bans, d, db.now) && k in db.apiKeys && db.apiKeys[k].device == Some(d)
    ensures AdminAuth(db, k, secret).Err? && AuthBearer(db, k, secret).Err?
    ensures AuthManual(db, k, secret).0.Err? && AuthManual(db, k, secret).1 == db
  {
    hide Banned, Unexpired;
  }

  /** While a device is banned its credentials authenticate nowhere, it can neither open nor poll
      session requests, none of its requests can be approved, and nothing sealed for it is read. */
  lemma BannedDeviceIsShutOut(db: Db, base: nat, d: Id, k: Id, secret: Secret, c: Claims, key: string)
    requires Banned(db.bans, d, db.now)
    ensures k in db.apiKeys && db.apiKeys[k].device == Some(d) ==>
              && AdminAuth(db, k, secret).Err? && AuthBearer(db, k, secret).Err?
              && AuthManual(db, k, secret).0.Err? && AuthManual(db, k, secret).1 == db
    ensures k in db.challenges && db.challenges[k].device == d ==> CreateRequest(db, k, secret).0.Err?
    ensures k in db.requests && db.requests[k].device == Some(d) ==>
              && (forall owner, only, hours :: Approve(db, owner, only, k, secret, hours).0.Err?)
              && Poll(db, k, secret).0.Err?
    ensures FetchDeviceKv(db, base, c, d, key).0.Err?
    ensures c.device == Some(d) ==> AuthorizeCaller(db, base, c, key) == (Err(DeviceBanned), db)
  {
    hide Banned, KeyPermitted, Unexpired, AdminAuth, AuthBearer, AuthManual;
    if k in db.apiKeys && db.apiKeys[k].device == Some(d) { BannedCredentialsAreRefused(db, d, k, secret); }
  }

  // ---------------------------------------------------------------- time limits

  function HoursGranted(hours: Option<int>): int { if hours.None? then 24 else hours.value }

  /** Any later tables in which the session that an approval minted is as it was minted, and its device
      is not banned. */
  predicate SessionKept(db: Db, c: Claims, r: Id, token: Secret, hours: Option<int>, late: Db)
    requires ApproveSession(db, c, r, token, hours).0.Ok?
  {
    var (k, minted) := (ApproveSession(db, c, r, token, hours).0.value, ApproveSession(db, c, r, token, hours).1);
    && k in late.apiKeys && k in minted.apiKeys && late.apiKeys[k] == minted.apiKeys[k]
    && (late.apiKeys[k].device.Some? ==> !Banned(late.bans, late.apiKeys[k].device.value, late.now))
  }

  /** The session that an approval mints lasts for the approved hours, a day if none are given, if their
      end can be represented; otherwise it never ends. */
  lemma SessionWindow(db: Db, c: Claims, r: Id, token: Secret, hours: Option<int>, late: Db)
    requires ApproveSession(db, c, r, token, hours).0.Ok? && SessionKept(db, c, r, token, hours, late)
    ensures var (k, granted) := (ApproveSession(db, c, r, token, hours).0.value, HoursGranted(hours));
            AdminAuth(late, k, late.apiKeys[k].keyHash.secret).Ok?
            <==> !HoursRepresentable(db.now, granted) || late.now < db.now + granted * 3600
  {
    hide Banned, WrapForDevice, RestrictedCaller;
  }

  /** The session ends at some time exactly when the submitted hours are not negative and lead to a date
      that can be represented. */
  lemma SessionEndsExactlyForRepresentableHours(db: Db, c: Claims, r: Id, token: Secret, hours: Option<int>)
    requires ApproveSession(db, c, r, token, hours).0.Ok?
    ensures (exists late :: SessionKept(db, c, r, token, hours, late)
                            && SessionExpiredAt(late, ApproveSession(db, c, r, token, hours).0.value))
        <==> HoursRepresentable(db.now, HoursGranted(hours))
  {
    hide ApproveSession;
    var k := ApproveSession(db, c, r, token, hours).0.value;
    if HoursRepresentable(db.now, HoursGranted(hours)) {
      var minted := ApproveSession(db, c, r, token, hours).1;
      var late := minted.(now := db.now + HoursGranted(hours) * 3600, bans := map[]);
      MintedSession(db, c, r, token, hours);
      assert SessionKept(db, c, r, token, hours, late);
      SessionWindow(db, c, r, token, hours, late);
      assert SessionExpiredAt(late, k);
    }
    forall late | SessionKept(db, c, r, token, hours, late) && SessionExpiredAt(late, k)
      ensures HoursRepresentable(db.now, HoursGranted(hours))
    {
      SessionWindow(db, c, r, token, hours, late);
    }
  }

  predicate SessionExpiredAt(late: Db, k: Id) {
    k in late.apiKeys && AdminAuth(late, k, late.apiKeys[k].keyHash.secret) == Err(SessionExpired)
  }

  lemma MintedSession(db: Db, c: Claims, r: Id, token: Secret, hours: Option<int>)
    requires ApproveSession(db, c, r, token, hours).0.Ok?
    ensures var (k, minted) := (ApproveSession(db, c, r, token, hours).0.value,
                                ApproveSession(db, c, r, token, hours).1);
            && k in minted.apiKeys && minted.apiKeys[k].kind == Session && minted.apiKeys[k].status == Active
            && minted.apiKeys[k].expiresAt == HoursFromNow(db.now, HoursGranted(hours))
  {
    hide Banned, WrapForDevice, RestrictedCaller;
  }

  /** Approved for minus one hour, a session authenticates at every later time. */
  lemma NegativeHoursNeverEnd(db: Db, c: Claims, r: Id, token: Secret, late: Db)
    requires ApproveSession(db, c, r, token, Some(-1)).0.Ok? && SessionKept(db, c, r, token, Some(-1), late)
    ensures var k := ApproveSession(db, c, r, token, Some(-1)).0.value;
            AdminAuth(late, k, late.apiKeys[k].keyHash.secret).Ok?
  {
    SessionWindow(db, c, r, token, Some(-1), late);
  }

  /** A device with an open request, and its owner's session: minus one hour is a request the server takes. */
  lemma NegativeHoursAreTaken()
    ensures ApproveSession(OpenRequestDb(), Claims("owner", None, 0), 2, 4, Some(-1)).0.Ok?
  {
  }

  function OpenRequestDb(): Db {
    EmptyDb(0).(nextId := 5,
                devices := map[1 := Device("owner", "laptop", "key", "x25519", None)],
                requests := map[2 := SessionRequest(Waiting, REQUEST_SECS, Some(Digest(3)), Some(1), Digest(4),
                                                    None, None, NO_WRAP)])
  }

  lemma InactiveIsRefused(db: Db, k: Id, secret: Secret)
    requires k in db.apiKeys && db.apiKeys[k].status != Active
    ensures AdminAuth(db, k, secret).Err?
  {
  }

  lemma SameRowSameAnswer(db: Db, after: Db, k: Id, secret: Secret)
    requires after.now == db.now && after.bans == db.bans
    requires k in db.apiKeys && k in after.apiKeys && after.apiKeys[k] == db.apiKeys[k]
    ensures AdminAuth(after, k, secret) == AdminAuth(db, k, secret)
  {
  }

  lemma RevokeKeepsTheRest(db: Db, owner: string, name: Option<string>)
    ensures RevokeSessions(db, owner, name) == db.(apiKeys := RevokeSessions(db, owner, name).apiKeys)
  {
  }

  // ---------------------------------------------------------------- what handlers leave behind

  lemma FreshRow(db: Db, c: Claims, name: string, kind: KeyKind, expiresAt: Option<int>, allowed: set<string>)
    requires CreateKey(db, c, name, kind, expiresAt, allowed).0.Ok?
    ensures var (r, after) := CreateKey(db, c, name, kind, expiresAt, allowed);
            && r.value in after.apiKeys && !after.apiKeys[r.value].kind.Session?
            && after.apiKeys[r.value].kind == kind && after.apiKeys[r.value].expiresAt == expiresAt
            && after.apiKeys[r.value].status == (if kind.ApprovalRequired? then PendingApproval else Active)
  {
    hide RestrictedCaller;
  }

  /** A fresh key can be used exactly while it has not expired, if its kind needs no approval; a holder
      whose key needs approval is told to wait until then. */
  lemma FreshKeyWorksUnlessApprovalIsNeeded(db: Db, c: Claims, name: string, kind: KeyKind, expiresAt: Option<int>,
                                            allowed: set<string>, late: int)
    requires CreateKey(db, c, name, kind, expiresAt, allowed).0.Ok?
    ensures var (id, after) := (CreateKey(db, c, name, kind, expiresAt, allowed).0.value,
                                CreateKey(db, c, name, kind, expiresAt, allowed).1);
            id in after.apiKeys
            && LookupManual(after.(now := late), id, after.apiKeys[id].keyHash.secret)
               == if expiresAt.Some? && expiresAt.value <= late then Err(Unauthorized)
                  else if kind.ApprovalRequired? then Err(AwaitingApproval) else Ok(after.apiKeys[id])
  {
    hide CreateKey;
    FreshRow(db, c, name, kind, expiresAt, allowed);
  }

  /** Asking for access closes every earlier approval request for the key; the new one can be granted
      for ten minutes. */
  lemma OnlyTheLatestApprovalIsOpen(db: Db, k: Id, late: Db, owner: string, confirm: Secret)
    requires RequestApproval(db, k, true).Some?
    ensures var after := RequestApproval(db, k, true).value;
            && (forall a | a in after.approvals && after.approvals[a].apiKey == k ::
                  after.approvals[a].status == Open ==> a == db.nextId)
            && (db.nextId in late.approvals && ChooseApproval(late, owner, db.nextId, confirm).Ok?
                && late.approvals[db.nextId].expiresAt == after.approvals[db.nextId].expiresAt ==>
                  late.now < db.now + 10 * 60)
  {
  }

  lemma RevokedRow(db: Db, owner: string, name: Option<string>, k: Id)
    requires k in db.apiKeys
    ensures k in RevokeSessions(db, owner, name).apiKeys
    ensures RevokeSessions(db, owner, name).apiKeys[k]
         == if ActiveSession(db.apiKeys[k], owner, name) then db.apiKeys[k].(status := Revoked) else db.apiKeys[k]
  {
  }

  /** After the logout of an unrestricted caller no session of the owner authenticates. */
  lemma LogoutEndsSessions(db: Db, c: Claims, k: Id, secret: Secret)
    requires RestrictedCaller(db, c).None? && k in db.apiKeys
    requires db.apiKeys[k].owner == c.owner && db.apiKeys[k].kind.Session?
    ensures AdminAuth(Logout(db, c), k, secret).Err?
  {
    hide RestrictedCaller, AdminAuth, RevokeSessions;
    RevokedRow(db, c.owner, None, k);
    InactiveIsRefused(Logout(db, c), k, secret);
  }

  lemma RevokedKeyRow(db: Db, owner: string, revoked: Id, k: Id)
    requires k in db.apiKeys
    ensures var after := RevokeKey(db, owner, revoked);
            && k in after.apiKeys && after.now == db.now && after.bans == db.bans
            && (k != revoked ==> after.apiKeys[k] == db.apiKeys[k])
            && (k == revoked && db.apiKeys[k].owner == owner ==> after.apiKeys[k].status != Active)
  {
    if Revocable(db, owner, revoked) {
      var row := db.apiKeys[revoked].(status := Revoked);
      assert RevokeKey(db, owner, revoked) == db.(apiKeys := db.apiKeys[revoked := row]);
    } else {
      assert RevokeKey(db, owner, revoked) == db;
    }
  }

  /** A restricted device ends its own credential by a logout, and no other one. */
  lemma RestrictedLogoutEndsItself(db: Db, c: Claims, k: Id, secret: Secret)
    requires RestrictedCaller(db, c).Some? && k in db.apiKeys && db.apiKeys[k].owner == c.owner
    ensures k == c.keyId ==> AdminAuth(Logout(db, c), k, secret).Err?
    ensures k != c.keyId ==> AdminAuth(Logout(db, c), k, secret) == AdminAuth(db, k, secret)
  {
    hide RestrictedCaller, AdminAuth, RevokeKey;
    RevokedKeyRow(db, c.owner, c.keyId, k);
    var after := Logout(db, c);
    if k == c.keyId { InactiveIsRefused(after, k, secret); } else { SameRowSameAnswer(db, after, k, secret); }
  }

  lemma MintKeepsRow(db: Db, name: string, kind: KeyKind, expiry: int, c: Claims, k: Id)
    requires k in db.apiKeys && k != db.nextId
    ensures var minted := MintKey(db, name, kind, Some(expiry), c.owner, c.device);
            minted.Some? ==>
              && k in minted.value.apiKeys && minted.value.apiKeys[k] == db.apiKeys[k]
              && minted.value.now == db.now && minted.value.bans == db.bans
  {
  }

  // ---------------------------------------------------------------- the whole interface

  datatype KeyRequest =
    | PostKey(name: string, kind: KeyKind, expiresAt: Option<int>, allowed: set<string>)
    | PostSessionKey
    | PostCliToken(days: Option<int>)
    | PostDeviceToken
    | PostRevoke(key: Id)
    | DeleteKeyRow(key: Id)
    | DeleteRevokedRows
    | PostLogout
    | PostApproval(approval: Id, confirm: Secret)
    | PostRejection(approval: Id)

  datatype DeviceRequest =
    | PostSessionApproval(request: Id, token: Secret, hours: Option<int>)
    | PostSessionRejection(request: Id)
    | PostDevice(name: string, publicKey: string, keyType: string)
    | DeleteDeviceById(device: Id)
    | PostLink(proposal: Id, token: Secret, device: Id)
    | PostDismissal(proposal: Id)
    | PutPolicy(device: Id, body: UpdateRequest)
    | DeleteBan(device: Id)

  datatype EntryRequest =
    | GetDeviceKv(device: Id, key: string)
    | GetValue(key: string)
    | PostValue(key: string, body: EntryBody)
    | DeleteValue(key: string)
    | PostImport(prefix: string, options: EntryBody, lines: seq<string>)
    | PostDeviceKv(key: string, sealed: string, devices: seq<Id>)
    | GetKv(allowed: Option<seq<string>>, key: string)
    | PutKv(allowed: Option<seq<string>>, admin: Option<string>, key: string, body: EntryBody)
    | DeleteKv(allowed: Option<seq<string>>, key: string)

  datatype Request =
    | ForKeys(forKeys: KeyRequest)
    | ForDevices(forDevices: DeviceRequest)
    | ForEntries(forEntries: EntryRequest)

  function HandleKeys(db: Db, c: Claims, request: KeyRequest): Db {
    match request
    case PostKey(name, kind, expiresAt, allowed) => CreateKey(db, c, name, kind, expiresAt, allowed).1
    case PostSessionKey => CreateSessionKey(db, c).1
    case PostCliToken(days) => CreateCliToken(db, c, days).1
    case PostDeviceToken => CreateDeviceToken(db, c).1
    case PostRevoke(k) => RevokeById(db, c, k).1
    case DeleteKeyRow(k) => DeleteById(db, c, k).1
    case DeleteRevokedRows => DeleteRevokedSessions(db, c).1
    case PostLogout => Logout(db, c)
    case PostApproval(a, confirm) => ApproveKey(db, c, a, confirm).1
    case PostRejection(a) => RejectKey(db, c, a).1
  }

  function HandleDevices(db: Db, c: Claims, request: DeviceRequest): Db {
    match request
    case PostSessionApproval(r, token, hours) => ApproveSession(db, c, r, token, hours).1
    case PostSessionRejection(r) => RejectSession(db, c, r).1
    case PostDevice(name, publicKey, keyType) => Register(db, c, name, publicKey, keyType).1
    case DeleteDeviceById(device) => RemoveDevice(db, c, device).1
    case PostLink(p, token, device) => LinkProposed(db, c, p, token, device).1
    case PostDismissal(p) => RejectProposed(db, c, p).1
    case PutPolicy(device, body) => UpdatePolicy(db, c, device, body).1
    case DeleteBan(device) => Unban(db, c, device).1
  }

  function HandleEntries(db: Db, base: nat, c: Claims, request: EntryRequest): Db {
    match request
    case GetDeviceKv(device, key) => FetchDeviceKv(db, base, c, device, key).1
    case GetValue(key) => AdminRead(db, base, c, key).1
    case PostValue(key, body) => AdminWrite(db, base, c, key, body).1
    case DeleteValue(key) => AdminDelete(db, base, c, key).1
    case PostImport(prefix, options, lines) => Import(db, base, c, prefix, options, lines).1
    case PostDeviceKv(key, sealed, devices) => WriteDeviceKv(db, base, c, key, sealed, devices).1
    case GetKv(allowed, key) => GetEntry(db, base, c, allowed, key).1
    case PutKv(allowed, admin, key, body) => PutByKey(db, base, c, allowed, admin, key, body).1
    case DeleteKv(allowed, key) => DeleteByKey(db, base, c, allowed, key).1
  }

  /** The tables after any authenticated request that can change them. */
  function Handle(db: Db, base: nat, c: Claims, request: Request): Db {
    match request
    case ForKeys(q) => HandleKeys(db, c, q)
    case ForDevices(q) => HandleDevices(db, c, q)
    case ForEntries(q) => HandleEntries(db, base, c, q)
  }
}
