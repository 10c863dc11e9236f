/** Every handler, run without interruption, is a run of the statements of `Audit`; so what holds in
    every run holds for the handlers, and a restricted device is confined in every reachable state. */
module HandlerRuns {
  import opened Basics
  import opened Policy
  import opened Bans
  import opened Tables
  import opened DeviceDeletion
  import opened Sessions
  import opened Credentials
  import opened Integrity
  import opened Audit
  import opened AuditInvariant
  import opened Runs
  import opened Guarantees
  import opened Entries
  import opened Handlers
  import opened Confinement

  // ---------------------------------------------------------------- the statements of each handler

  /** The statements that a credential handler executes. */
  function KeyActions(db: Db, c: Claims, request: KeyRequest): seq<Action> {
    var allowed := MayManageCredentials(db, c);
    match request
    case PostKey(name, kind, expiresAt, names) =>
      if CreateKey(db, c, name, kind, expiresAt, names).0.Err? then []
      else [OnKeys(Mint(c, name, kind, expiresAt)), OnTables(AllowNames(db.nextId, names))]
    case PostSessionKey =>
      if !allowed then []
      else [OnKeys(RevokeOwned(c.owner, Some(CLI_SESSION))),
            OnKeys(Mint(c, CLI_SESSION, Session, Some(db.now + 15 * 3600)))]
    case PostCliToken(days) =>
      if !allowed then [] else [OnKeys(Mint(c, "kv-cli", ApprovalToken, Some(db.now + CliDays(days) * DAY)))]
    case PostDeviceToken =>
      if !allowed then [] else [OnKeys(Mint(c, "kv-approver device", ApprovalToken, Some(db.now + 180 * DAY)))]
    case PostRevoke(k) => if !MayManageKey(db, c, k) then [] else [OnKeys(RevokeOne(c.owner, k))]
    case DeleteKeyRow(k) => if !MayManageKey(db, c, k) then [] else [OnKeys(DeleteOne(c.owner, k))]
    case DeleteRevokedRows => if !allowed then [] else [OnKeys(DeleteRevoked(c.owner))]
    case PostLogout =>
      if allowed then [OnKeys(RevokeOwned(c.owner, None))]
      else if c.keyId in db.apiKeys && db.apiKeys[c.keyId].status == Active then [OnKeys(RevokeOne(c.owner, c.keyId))]
      else []
    case PostApproval(a, confirm) =>
      if ApproveKey(db, c, a, confirm).0.Err? then []
      else [OnApprovals(ReadApproval(c.owner, a, confirm)), OnApprovals(Grant(a, db.approvals[a].apiKey))]
    case PostRejection(a) => if !allowed then [] else [OnApprovals(Decline(c.owner, a))]
  }

  function DeviceActions(db: Db, c: Claims, request: DeviceRequest): seq<Action> {
    var allowed := MayManageCredentials(db, c);
    match request
    case PostSessionApproval(r, token, hours) =>
      [OnProtocol(ApproveRequest(c, RestrictedCaller(db, c), r, token, HoursGranted(hours)))]
    case PostSessionRejection(r) =>
      if RejectSession(db, c, r).0.Err? then [] else [OnProtocol(RejectRequest(r))]
    case PostDevice(name, publicKey, keyType) =>
      if !allowed then [] else [OnDevices(Enrol(c.owner, name, publicKey, keyType))]
    case DeleteDeviceById(device) =>
      if c.device == Some(device) || !allowed then [] else [OnDevices(DeleteDevice(c.owner, device))]
    case PostLink(p, token, device) => if !allowed then [] else [OnDevices(LinkDevice(c.owner, p, token, device))]
    case PostDismissal(p) => if !allowed then [] else [OnDevices(DismissDevice(p))]
    case PutPolicy(device, body) =>
      if UpdatePolicy(db, c, device, body).0.Err? then []
      else [OnDevices(SavePolicy(c.owner, device, Validated(body).value))]
    case DeleteBan(device) => if c.device.Some? then [] else [OnTables(LiftOne(c.owner, device))]
  }

  /** The violation that a refused check records. */
  function CheckActions(db: Db, base: nat, c: Claims, key: string): seq<Action> {
    if c.device.None? || Banned(db.bans, c.device.value, db.now)
       || KeyPermitted(db.policies, db.policyKeys, c.device.value, key) then []
    else [OnTables(Violate(c.device.value, c.owner, base, key))]
  }

  /** The checks of an import end with the first refusal. */
  function ChecksActions(db: Db, base: nat, c: Claims, entries: seq<(string, string)>): seq<Action> {
    if entries == [] then []
    else
      var n := |entries| - 1;
      if AuthorizeAll(db, base, c, entries[..n]).0.Err? then ChecksActions(db, base, c, entries[..n])
      else CheckActions(db, base, c, entries[n].0)
  }

  /** The rows of an import, one statement each. */
  function RowActions(owner: string, options: EntryBody, entries: seq<(string, string)>): seq<Action> {
    if entries == [] then []
    else
      var n := |entries| - 1;
      RowActions(owner, options, entries[..n])
      + [OnTables(WriteEntries(ImportRow(owner, entries[n].0, entries[n].1, options)))]
  }

  /** The write of a handler that has succeeded. */
  function WriteOf(c: Claims, request: EntryRequest): seq<Action>
    requires !request.PostImport?
  {
    match request
    case GetDeviceKv(device, _) => [OnTables(TouchDevice(device))]
    case GetValue(_) => []
    case PostValue(key, body) => [OnTables(WriteEntries(Put(c.owner, key, body)))]
    case DeleteValue(key) => [OnTables(WriteEntries(Drop(c.owner, key)))]
    case PostDeviceKv(key, sealed, devices) => [OnTables(WriteEntries(Seal(c.owner, key, sealed, devices)))]
    case GetKv(_, key) => [OnTables(WriteEntries(Extend(c.owner, key)))]
    case PutKv(_, _, key, body) => [OnTables(WriteEntries(Put(c.owner, key, body)))]
    case DeleteKv(_, key) => [OnTables(WriteEntries(Drop(c.owner, key)))]
  }

  /** Whether the handler of the request succeeds. */
  predicate Succeeds(db: Db, base: nat, c: Claims, request: EntryRequest) {
    match request
    case GetDeviceKv(device, key) => FetchDeviceKv(db, base, c, device, key).0.Ok?
    case GetValue(key) => AdminRead(db, base, c, key).0.Ok?
    case PostValue(key, body) => AdminWrite(db, base, c, key, body).0.Ok?
    case DeleteValue(key) => AdminDelete(db, base, c, key).0.Ok?
    case PostImport(prefix, options, lines) => Import(db, base, c, prefix, options, lines).0.Ok?
    case PostDeviceKv(key, sealed, devices) => WriteDeviceKv(db, base, c, key, sealed, devices).0.Ok?
    case GetKv(allowed, key) => GetEntry(db, base, c, allowed, key).0.Ok?
    case PutKv(allowed, admin, key, body) => PutByKey(db, base, c, allowed, admin, key, body).0.Ok?
    case DeleteKv(allowed, key) => DeleteByKey(db, base, c, allowed, key).0.Ok?
  }

  /** The statements that an entry handler executes: its write, or the violation that refused it. */
  function EntryActions(db: Db, base: nat, c: Claims, request: EntryRequest): seq<Action> {
    match request
    case PostImport(prefix, options, lines) =>
      (match ParseFile(prefix, lines)
       case Err(_) => []
       case Ok(entries) =>
         if Succeeds(db, base, c, request) then RowActions(c.owner, options, entries)
         else ChecksActions(db, base, c, entries))
    case _ =>
      if Succeeds(db, base, c, request) then WriteOf(c, request)
      else if request.GetDeviceKv?
              && (request.device !in db.devices || db.devices[request.device].owner != c.owner) then []
      else CheckActions(db, base, c, request.key)
  }

  function ActionsOf(db: Db, base: nat, c: Claims, request: Request): seq<Action> {
    match request
    case ForKeys(q) => KeyActions(db, c, q)
    case ForDevices(q) => DeviceActions(db, c, q)
    case ForEntries(q) => EntryActions(db, base, c, q)
  }

  // ---------------------------------------------------------------- each handler is those statements

  lemma MintIsStep(w: World, c: Claims, name: string, kind: KeyKind, expiresAt: Option<int>)
    requires c in w.claims
    ensures Step(w, OnKeys(Mint(c, name, kind, expiresAt))).db
         == match MintKey(w.db, name, kind, expiresAt, c.owner, c.device) case None => w.db case Some(minted) => minted
    ensures Step(w, OnKeys(Mint(c, name, kind, expiresAt))).claims == w.claims
  {
  }

  lemma CreateKeyIsRun(w: World, c: Claims, name: string, kind: KeyKind, expiresAt: Option<int>, names: set<string>)
    requires c in w.claims && CreateKey(w.db, c, name, kind, expiresAt, names).0.Ok?
    ensures Steps(w, [OnKeys(Mint(c, name, kind, expiresAt)), OnTables(AllowNames(w.db.nextId, names))]).db
         == CreateKey(w.db, c, name, kind, expiresAt, names).1
  {
    hide RestrictedCaller;
    TwoSteps(w, OnKeys(Mint(c, name, kind, expiresAt)), OnTables(AllowNames(w.db.nextId, names)));
    MintIsStep(w, c, name, kind, expiresAt);
    hide CallerMintStep;
  }

  lemma SessionKeyIsRun(w: World, c: Claims)
    requires c in w.claims && MayManageCredentials(w.db, c)
    ensures Steps(w, [OnKeys(RevokeOwned(c.owner, Some(CLI_SESSION))),
                      OnKeys(Mint(c, CLI_SESSION, Session, Some(w.db.now + 15 * 3600)))]).db
         == CreateSessionKey(w.db, c).1
  {
    hide RestrictedCaller, RevokeSessions;
    var revoke := OnKeys(RevokeOwned(c.owner, Some(CLI_SESSION)));
    TwoSteps(w, revoke, OnKeys(Mint(c, CLI_SESSION, Session, Some(w.db.now + 15 * 3600))));
    RevokeKeepsTheRest(w.db, c.owner, Some(CLI_SESSION));
    MintIsStep(Step(w, revoke), c, CLI_SESSION, Session, Some(w.db.now + 15 * 3600));
    hide CallerMintStep;
  }

  lemma ApprovalIsRun(w: World, c: Claims, a: Id, confirm: Secret)
    requires ApproveKey(w.db, c, a, confirm).0.Ok?
    ensures Steps(w, [OnApprovals(ReadApproval(c.owner, a, confirm)), OnApprovals(Grant(a, w.db.approvals[a].apiKey))]).db
         == ApproveKey(w.db, c, a, confirm).1
  {
    hide RestrictedCaller, GrantApproval;
    TwoSteps(w, OnApprovals(ReadApproval(c.owner, a, confirm)), OnApprovals(Grant(a, w.db.approvals[a].apiKey)));
  }

  lemma KeyRequestIsRun(w: World, c: Claims, request: KeyRequest)
    requires c in w.claims
    ensures Steps(w, KeyActions(w.db, c, request)).db == HandleKeys(w.db, c, request)
  {
    hide Step, RestrictedCaller, RevokeSessions, GrantApproval, CreateSessionKey, CreateKey, MintKey;
    match request
    case PostKey(name, kind, expiresAt, names) =>
      if CreateKey(w.db, c, name, kind, expiresAt, names).0.Ok? { CreateKeyIsRun(w, c, name, kind, expiresAt, names); }
      else { FailedCreateKey(w.db, c, name, kind, expiresAt, names); }
    case PostSessionKey =>
      if MayManageCredentials(w.db, c) { SessionKeyIsRun(w, c); } else { FailedSessionKey(w.db, c); }
    case PostApproval(a, confirm) =>
      if ApproveKey(w.db, c, a, confirm).0.Ok? { ApprovalIsRun(w, c, a, confirm); }
    case PostCliToken(_) => TokenRequestIsRun(w, c, request);
    case PostDeviceToken => TokenRequestIsRun(w, c, request);
    case _ => SimpleKeyRequestIsRun(w, c, request);
  }

  lemma FailedCreateKey(db: Db, c: Claims, name: string, kind: KeyKind, expiresAt: Option<int>, names: set<string>)
    requires CreateKey(db, c, name, kind, expiresAt, names).0.Err?
    ensures CreateKey(db, c, name, kind, expiresAt, names).1 == db
  {
  }

  lemma FailedSessionKey(db: Db, c: Claims)
    requires !MayManageCredentials(db, c)
    ensures CreateSessionKey(db, c).1 == db
  {
  }

  lemma TokenRequestIsRun(w: World, c: Claims, request: KeyRequest)
    requires c in w.claims && (request.PostCliToken? || request.PostDeviceToken?)
    ensures Steps(w, KeyActions(w.db, c, request)).db == HandleKeys(w.db, c, request)
  {
    hide RestrictedCaller, Steps, CallerMintStep, MintKey, CliDays;
    var actions := KeyActions(w.db, c, request);
    if |actions| == 1 { OneStep(w, actions[0]); } else { NoSteps(w); }
    match request
    case PostCliToken(days) => TokenIsStep(w, c, "kv-cli", w.db.now + CliDays(days) * DAY);
    case PostDeviceToken => TokenIsStep(w, c, "kv-approver device", w.db.now + 180 * DAY);
  }

  /** The handlers of one statement. */
  lemma SimpleKeyRequestIsRun(w: World, c: Claims, request: KeyRequest)
    requires !request.PostKey? && !request.PostSessionKey? && !request.PostApproval?
    requires !request.PostCliToken? && !request.PostDeviceToken?
    ensures Steps(w, KeyActions(w.db, c, request)).db == HandleKeys(w.db, c, request)
  {
    hide RestrictedCaller, RevokeSessions, DeleteApiKeys, RevokedSessions, Steps, RevokeKey, DeleteKey,
      DeclineApproval, MayManageKey, Revocable, Deletable;
    if request.PostRevoke? || request.DeleteKeyRow? {
      OneKeyRequestIsRun(w, c, request);
    } else {
      var actions := KeyActions(w.db, c, request);
      if |actions| == 1 { OneStep(w, actions[0]); } else { NoSteps(w); }
    }
  }

  lemma OneKeyRequestIsRun(w: World, c: Claims, request: KeyRequest)
    requires request.PostRevoke? || request.DeleteKeyRow?
    ensures Steps(w, KeyActions(w.db, c, request)).db == HandleKeys(w.db, c, request)
  {
    hide Steps, RevokeKey, DeleteKey, MayManageKey, Revocable, Deletable;
    RevokingIsGuarded(w.db, c.owner, request.key);
    var actions := KeyActions(w.db, c, request);
    if |actions| == 1 { OneStep(w, actions[0]); } else { NoSteps(w); }
  }

  lemma RevokingIsGuarded(db: Db, owner: string, k: Id)
    ensures !Revocable(db, owner, k) ==> RevokeKey(db, owner, k) == db
    ensures !Deletable(db, owner, k) ==> DeleteKey(db, owner, k) == db
  {
  }

  lemma TokenIsStep(w: World, c: Claims, name: string, expiresAt: int)
    requires c in w.claims
    ensures CallerMintStep(w, c, name, ApprovalToken, Some(expiresAt)).db
         == match MintKey(w.db, name, ApprovalToken, Some(expiresAt), c.owner, c.device)
            case None => w.db case Some(minted) => minted
  {
  }

  lemma NoSteps(w: World)
    ensures Steps(w, []) == w
  {
  }

  lemma DeviceRequestIsRun(w: World, c: Claims, request: DeviceRequest)
    requires c in w.claims && ForeignKeysHold(w.db)
    ensures Steps(w, DeviceActions(w.db, c, request)).db == HandleDevices(w.db, c, request)
  {
    hide DeviceActions, HandleDevices, ForeignKeysHold;
    if request.DeleteBan? || request.PutPolicy? {
      PolicyRequestIsRun(w, c, request);
    } else if request.PostSessionApproval? || request.PostSessionRejection? {
      SessionDecisionIsRun(w, c, request);
    } else {
      EnrolmentRequestIsRun(w, c, request);
    }
  }

  lemma SessionDecisionIsRun(w: World, c: Claims, request: DeviceRequest)
    requires c in w.claims && (request.PostSessionApproval? || request.PostSessionRejection?)
    ensures Steps(w, DeviceActions(w.db, c, request)).db == HandleDevices(w.db, c, request)
  {
    hide RestrictedCaller, Steps, Approve, MarkRejected;
    var actions := DeviceActions(w.db, c, request);
    if |actions| == 1 { OneStep(w, actions[0]); } else { NoSteps(w); }
    if request.PostSessionApproval? { FailedApproval(w.db, c, request.request, request.token, request.hours); }
  }

  lemma EnrolmentRequestIsRun(w: World, c: Claims, request: DeviceRequest)
    requires request.PostDevice? || request.DeleteDeviceById? || request.PostLink? || request.PostDismissal?
    ensures Steps(w, DeviceActions(w.db, c, request)).db == HandleDevices(w.db, c, request)
  {
    hide RestrictedCaller, Steps, EnrolDevice, AfterDelete, LinkProposal, DismissProposal;
    var actions := DeviceActions(w.db, c, request);
    if |actions| == 1 { OneStep(w, actions[0]); } else { NoSteps(w); }
  }

  lemma PolicyRequestIsRun(w: World, c: Claims, request: DeviceRequest)
    requires (request.DeleteBan? || request.PutPolicy?) && ForeignKeysHold(w.db)
    ensures Steps(w, DeviceActions(w.db, c, request)).db == HandleDevices(w.db, c, request)
  {
    hide RestrictedCaller, Steps, Validated, LiftBan, ForeignKeysHold, SavedPolicies, SavedKeys;
    if request.DeleteBan? { LiftIsStep(w, c, request.device); }
    var actions := DeviceActions(w.db, c, request);
    if |actions| == 1 { OneStep(w, actions[0]); } else { NoSteps(w); }
  }

  lemma FailedApproval(db: Db, c: Claims, r: Id, token: Secret, hours: Option<int>)
    ensures ApproveSession(db, c, r, token, hours).0.Err? ==> ApproveSession(db, c, r, token, hours).1 == db
  {
  }

  lemma LiftIsStep(w: World, c: Claims, device: Id)
    requires ForeignKeysHold(w.db)
    ensures c.device.None? ==> Step(w, OnTables(LiftOne(c.owner, device))).db == Unban(w.db, c, device).1
    ensures c.device.Some? ==> Unban(w.db, c, device).1 == w.db
  {
  }

  /** What the statements of entries rely on. */
  predicate EntriesSound(db: Db) {
    && db.bans.Keys <= db.devices.Keys && RecipientsReferTo(db.recipients, db.devices)
    && forall r | r in db.recipients :: r < db.nextId
  }

  lemma CheckIsRun(w: World, base: nat, c: Claims, key: string)
    requires EntriesSound(w.db)
    ensures Steps(w, CheckActions(w.db, base, c, key)).db == AuthorizeCaller(w.db, base, c, key).1
  {
    hide KeyPermitted, RecipientsReferTo, Steps;
    var actions := CheckActions(w.db, base, c, key);
    if |actions| == 1 {
      OneStep(w, actions[0]);
      ViolationRows(w.db.bans, c.device.value, c.owner, base, w.db.now, key);
      hide AfterViolation, Banned;
    } else {
      NoSteps(w);
    }
  }

  lemma ViolationRows(bans: BanTable, device: Id, owner: string, base: nat, now: int, key: string)
    ensures AfterViolation(bans, device, owner, base, now, key).Keys == bans.Keys + {device}
  {
  }

  lemma {:induction false} ChecksAreRun(w: World, base: nat, c: Claims, entries: seq<(string, string)>)
    requires EntriesSound(w.db)
    ensures Steps(w, ChecksActions(w.db, base, c, entries)).db == AuthorizeAll(w.db, base, c, entries).1
  {
    hide EntriesSound, AuthorizeCaller, CheckActions;
    if entries == [] {
      NoSteps(w);
    } else {
      var n := |entries| - 1;
      ChecksAreRun(w, base, c, entries[..n]);
      PassedChecksChangeNothing(w.db, base, c, entries[..n]);
      CheckIsRun(w, base, c, entries[n].0);
    }
  }

  /** A statement that keeps ids and foreign keys of the recipients is a step. */
  lemma WriteIsStep(w: World, e: EntryStatement)
    requires EntriesSound(WriteResult(w.db, e)) && WriteResult(w.db, e).devices == w.db.devices
    requires var after := WriteResult(w.db, e);
             after == w.db.(kv := after.kv, bodies := after.bodies, recipients := after.recipients,
                            nextId := after.nextId)
    ensures Step(w, OnTables(WriteEntries(e))) == w.(db := WriteResult(w.db, e))
  {
    hide WriteResult, RecipientsReferTo;
  }

  lemma PutIsWrite(w: World, owner: string, key: string, body: EntryBody)
    requires EntriesSound(w.db)
    ensures Step(w, OnTables(WriteEntries(Put(owner, key, body)))) == w.(db := PutEntry(w.db, owner, key, body))
    ensures EntriesSound(PutEntry(w.db, owner, key, body))
  {
    hide RecipientsReferTo, Step;
    WriteIsStep(w, Put(owner, key, body));
  }

  lemma ImportIsWrite(w: World, owner: string, key: string, value: string, options: EntryBody)
    requires EntriesSound(w.db)
    ensures var after := PutEntry(w.db, owner, key, ImportBody(w.db, owner, key, value, options));
            && Step(w, OnTables(WriteEntries(ImportRow(owner, key, value, options)))) == w.(db := after)
            && EntriesSound(after)
  {
    hide RecipientsReferTo, Step, ImportBody;
    WriteIsStep(w, ImportRow(owner, key, value, options));
  }

  lemma DropIsWrite(w: World, owner: string, key: string)
    requires EntriesSound(w.db)
    ensures Step(w, OnTables(WriteEntries(Drop(owner, key)))) == w.(db := DropEntry(w.db, owner, key))
  {
    hide RecipientsReferTo, Step;
    WriteIsStep(w, Drop(owner, key));
  }

  lemma ExtendIsWrite(w: World, owner: string, key: string)
    requires EntriesSound(w.db) && (key, owner) in w.db.kv
    ensures Step(w, OnTables(WriteEntries(Extend(owner, key)))) == w.(db := Slide(w.db, owner, key))
  {
    hide RecipientsReferTo, Step, Slide;
    SlideTouchesOne(w.db, owner, key);
    WriteIsStep(w, Extend(owner, key));
  }

  lemma {:induction false} NewRecipientsRefer(db: Db, first: Id, owner: string, key: string, devices: seq<Id>)
    requires forall d | d in devices :: d in db.devices
    ensures RecipientsReferTo(NewRecipients(first, owner, key, devices), db.devices)
  {
    if devices != [] {
      var n := |devices| - 1;
      NewRecipientsRefer(db, first, owner, key, devices[..n]);
      assert devices[n] in devices;
    }
  }

  lemma MergedRecipients(db: Db, owner: string, key: string, devices: seq<Id>)
    requires RecipientsReferTo(db.recipients, db.devices) && forall r | r in db.recipients :: r < db.nextId
    requires forall d | d in devices :: d in db.devices
    ensures var rows := WithoutEntry(db.recipients, owner, key) + NewRecipients(db.nextId, owner, key, devices);
            RecipientsReferTo(rows, db.devices) && forall r | r in rows :: r < db.nextId + |devices|
  {
    NewRecipientsAre(db.nextId, owner, key, devices);
    NewRecipientsRefer(db, db.nextId, owner, key, devices);
  }

  lemma SealIsWrite(w: World, owner: string, key: string, sealed: string, devices: seq<Id>)
    requires EntriesSound(w.db) && RecipientsValid(w.db.devices, devices)
    ensures Step(w, OnTables(WriteEntries(Seal(owner, key, sealed, devices))))
         == w.(db := MarkEncrypted(Resealed(w.db, owner, key, sealed, devices), owner, key))
  {
    hide RecipientsReferTo, Step, WithoutEntry, NewRecipients, MarkEncrypted;
    MergedRecipients(w.db, owner, key, devices);
    MarkChangesOneRow(Resealed(w.db, owner, key, sealed, devices), owner, key);
    WriteIsStep(w, Seal(owner, key, sealed, devices));
  }

  lemma {:induction false} RowsAreRun(w: World, owner: string, options: EntryBody, entries: seq<(string, string)>)
    requires EntriesSound(w.db)
    ensures Steps(w, RowActions(owner, options, entries)) == w.(db := PutAll(w.db, owner, options, entries))
    ensures EntriesSound(PutAll(w.db, owner, options, entries))
  {
    hide EntriesSound, Step, PutEntry, ImportBody;
    if entries != [] {
      var n := |entries| - 1;
      RowsAreRun(w, owner, options, entries[..n]);
      var actions := RowActions(owner, options, entries);
      assert actions[..|actions| - 1] == RowActions(owner, options, entries[..n]);
      ImportIsWrite(Steps(w, RowActions(owner, options, entries[..n])), owner, entries[n].0, entries[n].1, options);
    }
  }

  lemma ImportIsRun(w: World, base: nat, c: Claims, request: EntryRequest)
    requires EntriesSound(w.db) && request.PostImport?
    ensures Steps(w, EntryActions(w.db, base, c, request)).db == HandleEntries(w.db, base, c, request)
  {
    hide EntriesSound, Steps, ParseFile, PutAll, AuthorizeAll, ChecksActions, RowActions;
    NoSteps(w);
    if ParseFile(request.prefix, request.lines).Ok? {
      var entries := ParseFile(request.prefix, request.lines).value;
      ChecksAreRun(w, base, c, entries);
      RowsAreRun(w, c.owner, request.options, entries);
    }
  }

  /** A refused request leaves what its check has left. */
  lemma RefusedRequest(db: Db, base: nat, c: Claims, request: EntryRequest)
    requires !request.PostImport? && !Succeeds(db, base, c, request)
    ensures HandleEntries(db, base, c, request)
         == if request.GetDeviceKv? && (request.device !in db.devices || db.devices[request.device].owner != c.owner)
            then db else AuthorizeCaller(db, base, c, request.key).1
  {
    hide KeyPermitted, Banned, AfterViolation, PutEntry, DropEntry, Slide, MarkEncrypted, Resealed, RecipientsValid,
      Readable, MayAccess, Touch;
  }

  /** A served request is its one write. */
  lemma ServedRequest(w: World, base: nat, c: Claims, request: EntryRequest)
    requires EntriesSound(w.db) && !request.PostImport? && Succeeds(w.db, base, c, request)
    ensures Steps(w, WriteOf(c, request)).db == HandleEntries(w.db, base, c, request)
  {
    hide EntriesSound, Steps, Step, AuthorizeCaller, PutEntry, DropEntry, Slide, MarkEncrypted, Resealed,
      RecipientsValid, Readable, MayAccess, Touch, Banned, KeyPermitted;
    var actions := WriteOf(c, request);
    if |actions| == 1 { OneStep(w, actions[0]); } else { NoSteps(w); }
    match request
    case GetDeviceKv(device, _) => TouchIsStep(w, device);
    case GetValue(_) =>
    case PostValue(key, body) => PutIsWrite(w, c.owner, key, body);
    case DeleteValue(key) => DropIsWrite(w, c.owner, key);
    case PostDeviceKv(key, sealed, devices) => SealIsWrite(w, c.owner, key, sealed, devices);
    case GetKv(_, key) => ExtendIsWrite(w, c.owner, key);
    case PutKv(_, _, key, body) => PutIsWrite(w, c.owner, key, body);
    case DeleteKv(_, key) => DropIsWrite(w, c.owner, key);
  }

  lemma TouchIsStep(w: World, device: Id)
    ensures Step(w, OnTables(TouchDevice(device))) == w.(db := Touch(w.db, device))
  {
  }

  lemma EntryRequestIsRun(w: World, base: nat, c: Claims, request: EntryRequest)
    requires EntriesSound(w.db)
    ensures Steps(w, EntryActions(w.db, base, c, request)).db == HandleEntries(w.db, base, c, request)
  {
    hide EntriesSound, Steps, HandleEntries, Succeeds, CheckActions, WriteOf, AuthorizeCaller;
    if request.PostImport? {
      ImportIsRun(w, base, c, request);
    } else if Succeeds(w.db, base, c, request) {
      ServedRequest(w, base, c, request);
    } else {
      RefusedRequest(w.db, base, c, request);
      CheckIsRun(w, base, c, request.key);
      NoSteps(w);
    }
  }

  lemma SoundEntries(w: World)
    requires Sound(w)
    ensures EntriesSound(w.db) && ForeignKeysHold(w.db)
  {
    hide Traced;
  }

  /** In every run, each handler leaves the tables exactly as the statements of a longer run do. */
  lemma HandlersAreRuns(now: int, actions: seq<Action>, base: nat, c: Claims, request: Request)
    requires c in Exec(now, actions).claims || request.ForEntries?
    ensures var db := Exec(now, actions).db;
            Exec(now, actions + ActionsOf(db, base, c, request)).db == Handle(db, base, c, request)
  {
    hide Exec, Sound, HandleKeys, HandleDevices, HandleEntries, KeyActions, DeviceActions, EntryActions, EntriesSound,
      ForeignKeysHold;
    var w := Exec(now, actions);
    RunIsSound(now, actions);
    SoundEntries(w);
    ExecThenSteps(now, actions, ActionsOf(w.db, base, c, request));
    match request
    case ForKeys(q) => KeyRequestIsRun(w, c, q);
    case ForDevices(q) => DeviceRequestIsRun(w, c, q);
    case ForEntries(q) => EntryRequestIsRun(w, base, c, q);
  }

  /** So every handler keeps foreign keys, ownership and attribution. */
  lemma HandlersKeepTablesIntact(now: int, actions: seq<Action>, base: nat, c: Claims, request: Request)
    requires c in Exec(now, actions).claims || request.ForEntries?
    ensures Intact(Handle(Exec(now, actions).db, base, c, request))
  {
    hide Exec, Intact, Handle, ActionsOf;
    HandlersAreRuns(now, actions, base, c, request);
    TablesAreIntact(now, actions + ActionsOf(Exec(now, actions).db, base, c, request));
  }

  // ---------------------------------------------------------------- confinement in every run

  /** However old a claim is, its credential still carries the claimed device. */
  lemma ClaimsKeepDevice(w: World, c: Claims)
    requires Sound(w) && c in w.claims && c.keyId in w.db.apiKeys
    ensures w.db.apiKeys[c.keyId].device == c.device && w.db.apiKeys[c.keyId].owner == c.owner
  {
    hide Intact, AuditSound;
    CallerOriginated(w, c);
    var j := CreatingEntry(w, c.keyId);
    var e :| e in w.log && CreatesCredential(e, c.keyId, c.owner, c.device);
    var i :| 0 <= i < |w.log| && w.log[i] == e;
    KeyIsMintedOnce(w.log, i, j, c.keyId);
  }

  /** In every run, whatever a request of a restricted device asks for, nothing outside the device's
      own slice of the tables changes. (Entry requests are also open to `X-Api-Key` callers.) */
  lemma RestrictedDevicesAreConfined(now: int, actions: seq<Action>, base: nat, c: Claims, request: Request, d: Id)
    requires c.device == Some(d) && (c in Exec(now, actions).claims || request.ForEntries?)
    requires IsRestricted(Exec(now, actions).db.policies, Exec(now, actions).db.policyKeys, d)
    ensures Confined(Exec(now, actions).db, Handle(Exec(now, actions).db, base, c, request), d)
  {
    hide Exec, Confined, Handle, IsRestricted, Traced, Intact;
    var w := Exec(now, actions);
    RunIsSound(now, actions);
    if c in w.claims {
      if c.keyId in w.db.apiKeys { ClaimsKeepDevice(w, c); }
      RestrictedDeviceIsConfined(w.db, base, c, request, d);
    } else {
      EntryHandlersAreConfined(w, base, c, request, d);
    }
  }

  lemma EntryHandlersAreConfined(w: World, base: nat, c: Claims, request: Request, d: Id)
    requires Sound(w) && c.device == Some(d) && request.ForEntries?
    ensures Confined(w.db, Handle(w.db, base, c, request), d)
  {
    hide Confined, HandleEntries, Traced;
    EntryRequestsConfined(w.db, base, c, request.forEntries, d);
  }
}
