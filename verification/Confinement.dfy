/** A device with a key policy cannot reach beyond its own slice of the tables. */
module Confinement {
  import opened Basics
  import opened Policy
  import opened Bans
  import opened Tables
  import opened DeviceDeletion
  import opened Sessions
  import opened Credentials
  import opened Integrity
  import opened Entries
  import opened Handlers

  // ---------------------------------------------------------------- what lies outside a device's slice

  predicate Refused(db: Db, d: Id, key: string) { !KeyPermitted(db.policies, db.policyKeys, d, key) }

  function RefusedEntries(db: Db, d: Id): map<EntryKey, KvEntry> {
    map e | e in db.kv && Refused(db, d, e.0) :: db.kv[e]
  }

  function RefusedBodies(db: Db, d: Id): map<EntryKey, string> {
    map e | e in db.bodies && Refused(db, d, e.0) :: db.bodies[e]
  }

  function RefusedRecipients(db: Db, d: Id): map<Id, Recipient> {
    map r | r in db.recipients && Refused(db, d, db.recipients[r].kvKey) :: db.recipients[r]
  }

  function Unseen(devices: map<Id, Device>): map<Id, Device> { map x | x in devices :: devices[x].(lastSeen := None) }

  /** Nothing outside the slice of device `d` differs: no credential, approval, allowed name or
      session request of anyone else, no device except when it was last seen, no policy, nobody
      else's ban, no challenge or proposal, and no entry whose name the policy of `d` refuses. */
  ghost predicate Confined(db: Db, after: Db, d: Id) {
    && KeysOfOthers(after, d) == KeysOfOthers(db, d)
    && AllowedOfOthers(after, d) == AllowedOfOthers(db, d)
    && ApprovalsOfOthers(after, d) == ApprovalsOfOthers(db, d)
    && RequestsOfOthers(after, d) == RequestsOfOthers(db, d)
    && Unseen(after.devices) == Unseen(db.devices)
    && after.policies == db.policies && after.policyKeys == db.policyKeys
    && after.bans - {d} == db.bans - {d}
    && after.challenges == db.challenges && after.proposals == db.proposals
    && RefusedEntries(after, d) == RefusedEntries(db, d)
    && RefusedBodies(after, d) == RefusedBodies(db, d)
    && RefusedRecipients(after, d) == RefusedRecipients(db, d)
  }

  lemma ConfinedTransitive(db: Db, mid: Db, after: Db, d: Id)
    requires Confined(db, mid, d) && Confined(mid, after, d)
    ensures Confined(db, after, d)
  {
    hide KeysOfOthers, AllowedOfOthers, ApprovalsOfOthers, RequestsOfOthers, Unseen, RefusedEntries, RefusedBodies,
      RefusedRecipients;
  }

  // ---------------------------------------------------------------- credentials of the device itself

  /** Changing the status of one of the device's own credentials. */
  lemma OwnStatusConfined(db: Db, d: Id, k: Id, status: KeyStatus)
    requires k in db.apiKeys && db.apiKeys[k].device == Some(d)
    ensures Confined(db, db.(apiKeys := db.apiKeys[k := db.apiKeys[k].(status := status)]), d)
  {
    var after := db.(apiKeys := db.apiKeys[k := db.apiKeys[k].(status := status)]);
    assert KeysOfDevice(after, d) == KeysOfDevice(db, d);
    assert KeysOfOthers(after, d) == KeysOfOthers(db, d);
  }

  /** Deleting one of them takes only its own dependents along. */
  lemma OwnDeletionConfined(db: Db, d: Id, k: Id)
    requires k in db.apiKeys && db.apiKeys[k].device == Some(d)
    requires RequestKeysAttributed(db.requests, db.apiKeys)
    ensures Confined(db, DeleteApiKeys(db, {k}), d)
  {
    hide RefusedEntries, RefusedBodies, RefusedRecipients, Unseen;
    var after := DeleteApiKeys(db, {k});
    assert KeysOfDevice(after, d) == KeysOfDevice(db, d) - {k};
    assert KeysOfOthers(after, d) == KeysOfOthers(db, d);
    OwnRequestsLoseKey(db, d, k);
    OwnDependentsGo(db, d, k);
    SameEntries(db, after, d);
  }

  lemma OwnRequestsLoseKey(db: Db, d: Id, k: Id)
    requires k in db.apiKeys && db.apiKeys[k].device == Some(d)
    requires RequestKeysAttributed(db.requests, db.apiKeys)
    ensures RequestsOfOthers(DeleteApiKeys(db, {k}), d) == RequestsOfOthers(db, d)
  {
  }

  lemma OwnDependentsGo(db: Db, d: Id, k: Id)
    requires k in db.apiKeys && db.apiKeys[k].device == Some(d)
    ensures AllowedOfOthers(DeleteApiKeys(db, {k}), d) == AllowedOfOthers(db, d)
    ensures ApprovalsOfOthers(DeleteApiKeys(db, {k}), d) == ApprovalsOfOthers(db, d)
  {
    assert KeysOfDevice(DeleteApiKeys(db, {k}), d) == KeysOfDevice(db, d) - {k};
    var after := DeleteApiKeys(db, {k});
    assert AllowedOfOthers(after, d) <= AllowedOfOthers(db, d);
    assert AllowedOfOthers(db, d) <= AllowedOfOthers(after, d);
  }

  lemma SameEntries(db: Db, after: Db, d: Id)
    requires after.policies == db.policies && after.policyKeys == db.policyKeys
    requires after.kv == db.kv && after.bodies == db.bodies && after.recipients == db.recipients
    ensures RefusedEntries(after, d) == RefusedEntries(db, d)
    ensures RefusedBodies(after, d) == RefusedBodies(db, d)
    ensures RefusedRecipients(after, d) == RefusedRecipients(db, d)
  {
    hide KeyPermitted;
  }

  /** The claims are those of device `d`, and if the credential still exists it still is the device's. */
  predicate CallerIs(db: Db, c: Claims, d: Id) {
    c.device == Some(d) && (c.keyId in db.apiKeys ==> db.apiKeys[c.keyId].device == Some(d))
  }

  /** Every credential request of a restricted device stays in its slice. */
  lemma KeyRequestsConfined(db: Db, c: Claims, request: KeyRequest, d: Id)
    requires Intact(db) && CallerIs(db, c, d) && IsRestricted(db.policies, db.policyKeys, d)
    ensures Confined(db, HandleKeys(db, c, request), d)
  {
    hide IsRestricted, Confined, DeleteApiKeys;
    Unchanged(db, d);
    match request
    case PostRevoke(k) =>
      if MayManageKey(db, c, k) && Revocable(db, c.owner, k) { OwnStatusConfined(db, d, k, Revoked); }
    case DeleteKeyRow(k) =>
      if MayManageKey(db, c, k) && Deletable(db, c.owner, k) { OwnDeletionConfined(db, d, k); }
    case PostLogout =>
      if Revocable(db, c.owner, c.keyId) { OwnStatusConfined(db, d, c.keyId, Revoked); }
    case _ =>
  }

  lemma Unchanged(db: Db, d: Id)
    ensures Confined(db, db, d)
  {
  }

  // ---------------------------------------------------------------- session requests and devices

  /** A restricted device can approve session requests for itself only, and change no device,
      policy, ban or proposal. */
  lemma DeviceRequestsConfined(db: Db, c: Claims, request: DeviceRequest, d: Id)
    requires Intact(db) && CallerIs(db, c, d) && IsRestricted(db.policies, db.policyKeys, d)
    ensures Confined(db, HandleDevices(db, c, request), d)
  {
    hide IsRestricted, Confined, Approve, Intact, Validated;
    Unchanged(db, d);
    match request
    case PostSessionApproval(r, token, hours) =>
      ApprovalConfined(db, c.owner, d, r, token, HoursGranted(hours));
    case _ =>
  }

  lemma ApprovalConfined(db: Db, owner: string, d: Id, r: Id, token: Secret, hours: int)
    requires Intact(db)
    ensures Confined(db, Approve(db, owner, Some(d), r, token, hours).1, d)
  {
    hide RefusedEntries, RefusedBodies, RefusedRecipients, Intact, AllowedOfOthers, ApprovalsOfOthers, KeysOfOthers,
      RequestsOfOthers, Unseen;
    var after := Approve(db, owner, Some(d), r, token, hours).1;
    if Approve(db, owner, Some(d), r, token, hours).0.Ok? {
      NextIdIsFree(db);
      FreshKeyOfDevice(db, after, d);
      DependentsOfFreshKey(db, after, d);
      OwnRequestChanges(db, after, d, r);
      SameEntries(db, after, d);
    }
  }

  lemma FreshKeyOfDevice(db: Db, after: Db, d: Id)
    requires db.nextId !in db.apiKeys && db.nextId in after.apiKeys && after.apiKeys[db.nextId].device == Some(d)
    requires after.apiKeys == db.apiKeys[db.nextId := after.apiKeys[db.nextId]]
    ensures KeysOfDevice(after, d) == KeysOfDevice(db, d) + {db.nextId}
    ensures KeysOfOthers(after, d) == KeysOfOthers(db, d)
  {
    assert KeysOfDevice(after, d) == KeysOfDevice(db, d) + {db.nextId};
  }

  lemma OwnRequestChanges(db: Db, after: Db, d: Id, r: Id)
    requires r in db.requests && r in after.requests
    requires after.requests == db.requests[r := after.requests[r]]
    requires db.requests[r].device == Some(d) && after.requests[r].device == Some(d)
    ensures RequestsOfOthers(after, d) == RequestsOfOthers(db, d)
  {
  }

  lemma NextIdIsFree(db: Db)
    requires Intact(db)
    ensures db.nextId !in db.apiKeys
    ensures forall row | row in db.allowedKeys :: row.0 != db.nextId
    ensures forall a | a in db.approvals :: db.approvals[a].apiKey != db.nextId
  {
  }

  lemma DependentsOfFreshKey(db: Db, after: Db, d: Id)
    requires after.allowedKeys == db.allowedKeys && after.approvals == db.approvals
    requires KeysOfDevice(after, d) == KeysOfDevice(db, d) + {db.nextId}
    requires forall row | row in db.allowedKeys :: row.0 != db.nextId
    requires forall a | a in db.approvals :: db.approvals[a].apiKey != db.nextId
    ensures AllowedOfOthers(after, d) == AllowedOfOthers(db, d)
    ensures ApprovalsOfOthers(after, d) == ApprovalsOfOthers(db, d)
  {
  }

  // ---------------------------------------------------------------- entries

  lemma OwnBanConfined(db: Db, bans: BanTable, d: Id)
    requires bans - {d} == db.bans - {d}
    ensures Confined(db, db.(bans := bans), d)
  {
    SameEntries(db, db.(bans := bans), d);
    hide RefusedEntries, RefusedBodies, RefusedRecipients, Unseen;
  }

  /** A check passes only for permitted names, and otherwise changes at most the caller's own ban. */
  lemma CheckConfined(db: Db, base: nat, c: Claims, d: Id, key: string)
    requires c.device == Some(d)
    ensures Confined(db, AuthorizeCaller(db, base, c, key).1, d)
    ensures AuthorizeCaller(db, base, c, key).0.Ok? ==>
              !Refused(db, d, key) && AuthorizeCaller(db, base, c, key).1 == db
  {
    hide Confined, KeyPermitted;
    Unchanged(db, d);
    var bans := AfterViolation(db.bans, d, c.owner, base, db.now, key);
    assert bans - {d} == db.bans - {d};
    OwnBanConfined(db, bans, d);
  }

  /** The recipients of all other names are the same. */
  predicate RecipientsKept(before: map<Id, Recipient>, after: map<Id, Recipient>, key: string) {
    && (forall r | r in before && before[r].kvKey != key :: r in after && after[r] == before[r])
    && (forall r | r in after && after[r].kvKey != key :: r in before && before[r] == after[r])
  }

  /** Changing what is stored under one permitted name. */
  lemma PermittedNameConfined(db: Db, after: Db, d: Id, owner: string, key: string)
    requires !Refused(db, d, key)
    requires after == db.(kv := after.kv, bodies := after.bodies, recipients := after.recipients, nextId := after.nextId)
    requires after.kv - {(key, owner)} == db.kv - {(key, owner)}
    requires after.bodies - {(key, owner)} == db.bodies - {(key, owner)}
    requires RecipientsKept(db.recipients, after.recipients, key)
    ensures Confined(db, after, d)
  {
    hide RefusedEntries, RefusedBodies, RefusedRecipients, KeyPermitted, Refused, Unseen;
    RefusedEntriesKept(db, after, d, owner, key);
    RefusedRecipientsKept(db, after, d, key);
  }

  lemma RefusedEntriesKept(db: Db, after: Db, d: Id, owner: string, key: string)
    requires !Refused(db, d, key) && after.policies == db.policies && after.policyKeys == db.policyKeys
    requires after.kv - {(key, owner)} == db.kv - {(key, owner)}
    requires after.bodies - {(key, owner)} == db.bodies - {(key, owner)}
    ensures RefusedEntries(after, d) == RefusedEntries(db, d) && RefusedBodies(after, d) == RefusedBodies(db, d)
  {
    hide KeyPermitted;
    SameElsewhere(after.kv, db.kv, key, owner);
    SameElsewhere(after.bodies, db.bodies, key, owner);
  }

  lemma RefusedRecipientsKept(db: Db, after: Db, d: Id, key: string)
    requires !Refused(db, d, key) && after.policies == db.policies && after.policyKeys == db.policyKeys
    requires RecipientsKept(db.recipients, after.recipients, key)
    ensures RefusedRecipients(after, d) == RefusedRecipients(db, d)
  {
    hide KeyPermitted;
  }

  lemma SameElsewhere<V>(a: map<EntryKey, V>, b: map<EntryKey, V>, key: string, owner: string)
    requires a - {(key, owner)} == b - {(key, owner)}
    ensures forall e: EntryKey | e.0 != key && e in a :: e in b && a[e] == b[e]
    ensures forall e: EntryKey | e.0 != key && e in b :: e in a && a[e] == b[e]
  {
    forall e: EntryKey | e.0 != key && e in a ensures e in b && a[e] == b[e] {
      assert e in a - {(key, owner)} && (b - {(key, owner)})[e] == b[e];
    }
    forall e: EntryKey | e.0 != key && e in b ensures e in a && a[e] == b[e] {
      assert e in b - {(key, owner)} && (a - {(key, owner)})[e] == a[e];
    }
  }

  /** An entry of a permitted name may be written, dropped or extended. */
  lemma EntryConfined(db: Db, after: Db, d: Id, owner: string, key: string)
    requires !Refused(db, d, key) && after == db.(kv := after.kv)
    requires after.kv - {(key, owner)} == db.kv - {(key, owner)}
    ensures Confined(db, after, d)
  {
    hide Confined, Refused;
    PermittedNameConfined(db, after, d, owner, key);
  }

  lemma PutConfined(db: Db, d: Id, owner: string, key: string, body: EntryBody)
    requires !Refused(db, d, key)
    ensures Confined(db, PutEntry(db, owner, key, body), d)
  {
    hide Confined, Refused;
    var after := PutEntry(db, owner, key, body);
    assert after.kv - {(key, owner)} == db.kv - {(key, owner)};
    EntryConfined(db, after, d, owner, key);
  }

  lemma DropConfined(db: Db, d: Id, owner: string, key: string)
    requires !Refused(db, d, key)
    ensures Confined(db, DropEntry(db, owner, key), d)
  {
    hide Confined, Refused;
    EntryConfined(db, DropEntry(db, owner, key), d, owner, key);
  }

  lemma SlideConfined(db: Db, d: Id, owner: string, key: string)
    requires !Refused(db, d, key) && (key, owner) in db.kv
    ensures Confined(db, Slide(db, owner, key), d)
  {
    hide Confined, Refused, Slide;
    var after := Slide(db, owner, key);
    SlideTouchesOne(db, owner, key);
    EntryConfined(db, after, d, owner, key);
  }

  lemma TouchConfined(db: Db, d: Id, device: Id)
    ensures Confined(db, Touch(db, device), d)
  {
    hide RefusedEntries, RefusedBodies, RefusedRecipients;
    SameEntries(db, Touch(db, device), d);
  }

  lemma NewRecipientsKept(db: Db, owner: string, key: string, devices: seq<Id>)
    requires forall r | r in db.recipients :: r < db.nextId
    ensures RecipientsKept(db.recipients, WithoutEntry(db.recipients, owner, key)
                                          + NewRecipients(db.nextId, owner, key, devices), key)
  {
    NewRecipientsAre(db.nextId, owner, key, devices);
  }

  lemma WriteConfined(db: Db, base: nat, c: Claims, d: Id, key: string, sealed: string, devices: seq<Id>)
    requires c.device == Some(d) && forall r | r in db.recipients :: r < db.nextId
    ensures Confined(db, WriteDeviceKv(db, base, c, key, sealed, devices).1, d)
  {
    hide Confined, Refused, AuthorizeCaller;
    CheckConfined(db, base, c, d, key);
    Unchanged(db, d);
    var after := WriteDeviceKv(db, base, c, key, sealed, devices).1;
    if WriteDeviceKv(db, base, c, key, sealed, devices).0.Ok? {
      NewRecipientsKept(db, c.owner, key, devices);
      assert after.kv - {(key, c.owner)} == db.kv - {(key, c.owner)};
      assert after.bodies - {(key, c.owner)} == db.bodies - {(key, c.owner)};
      PermittedNameConfined(db, after, d, c.owner, key);
    }
  }

  // ---------------------------------------------------------------- import

  lemma {:induction false} ChecksConfined(db: Db, base: nat, c: Claims, d: Id, entries: seq<(string, string)>)
    requires c.device == Some(d)
    ensures Confined(db, AuthorizeAll(db, base, c, entries).1, d)
    ensures AuthorizeAll(db, base, c, entries).0.Ok? ==>
              AuthorizeAll(db, base, c, entries).1 == db && forall e | e in entries :: !Refused(db, d, e.0)
  {
    hide Confined, Refused, AuthorizeCaller;
    if entries == [] {
      Unchanged(db, d);
    } else {
      var n := |entries| - 1;
      ChecksConfined(db, base, c, d, entries[..n]);
      assert entries == entries[..n] + [entries[n]];
      CheckConfined(AuthorizeAll(db, base, c, entries[..n]).1, base, c, d, entries[n].0);
    }
  }

  lemma {:induction false} PutAllConfined(db: Db, d: Id, owner: string, options: EntryBody, entries: seq<(string, string)>)
    requires forall e | e in entries :: !Refused(db, d, e.0)
    ensures Confined(db, PutAll(db, owner, options, entries), d)
    ensures PutAll(db, owner, options, entries) == db.(kv := PutAll(db, owner, options, entries).kv)
  {
    hide Confined, KeyPermitted;
    if entries == [] {
      Unchanged(db, d);
    } else {
      var n := |entries| - 1;
      PutAllConfined(db, d, owner, options, entries[..n]);
      var before := PutAll(db, owner, options, entries[..n]);
      var (key, value) := entries[n];
      assert entries[n] in entries;
      PutConfined(before, d, owner, key, ImportBody(before, owner, key, value, options));
      ConfinedTransitive(db, before, PutAll(db, owner, options, entries), d);
    }
  }

  lemma ImportConfined(db: Db, base: nat, c: Claims, d: Id, prefix: string, options: EntryBody, lines: seq<string>)
    requires c.device == Some(d)
    ensures Confined(db, Import(db, base, c, prefix, options, lines).1, d)
  {
    hide Confined, Refused, AuthorizeAll, PutAll, ParseFile;
    Unchanged(db, d);
    if ParseFile(prefix, lines).Ok? {
      var entries := ParseFile(prefix, lines).value;
      ChecksConfined(db, base, c, d, entries);
      if AuthorizeAll(db, base, c, entries).0.Ok? { PutAllConfined(db, d, c.owner, options, entries); }
    }
  }

  // ---------------------------------------------------------------- all requests

  lemma EntryRequestsConfined(db: Db, base: nat, c: Claims, request: EntryRequest, d: Id)
    requires c.device == Some(d) && forall r | r in db.recipients :: r < db.nextId
    ensures Confined(db, HandleEntries(db, base, c, request), d)
  {
    hide Confined, Refused, AuthorizeCaller, KeyPermitted, PutEntry, DropEntry, Slide, Touch, Import, WriteDeviceKv,
      Readable, MayAccess, Banned;
    Unchanged(db, d);
    match request
    case GetDeviceKv(device, key) =>
      CheckConfined(db, base, c, d, key);
      TouchConfined(db, d, device);
    case GetValue(key) => CheckConfined(db, base, c, d, key);
    case PostValue(key, body) => StoreConfined(db, base, c, d, key, body);
    case DeleteValue(key) => StoreConfined(db, base, c, d, key, EntryBody("", None, false, false, None));
    case PostImport(prefix, options, lines) => ImportConfined(db, base, c, d, prefix, options, lines);
    case PostDeviceKv(key, sealed, devices) => WriteConfined(db, base, c, d, key, sealed, devices);
    case GetKv(_, key) => StoreConfined(db, base, c, d, key, EntryBody("", None, false, false, None));
    case PutKv(_, _, key, body) => StoreConfined(db, base, c, d, key, body);
    case DeleteKv(_, key) => StoreConfined(db, base, c, d, key, EntryBody("", None, false, false, None));
  }

  /** What a passed check lets a handler do with the entry of that name. */
  lemma StoreConfined(db: Db, base: nat, c: Claims, d: Id, key: string, body: EntryBody)
    requires c.device == Some(d)
    ensures Confined(db, AuthorizeCaller(db, base, c, key).1, d)
    ensures AuthorizeCaller(db, base, c, key).0.Ok? ==>
              && Confined(db, PutEntry(db, c.owner, key, body), d)
              && Confined(db, DropEntry(db, c.owner, key), d)
              && ((key, c.owner) in db.kv ==> Confined(db, Slide(db, c.owner, key), d))
  {
    hide Confined, Refused, AuthorizeCaller;
    CheckConfined(db, base, c, d, key);
    if AuthorizeCaller(db, base, c, key).0.Ok? {
      PutConfined(db, d, c.owner, key, body);
      DropConfined(db, d, c.owner, key);
      if (key, c.owner) in db.kv { SlideConfined(db, d, c.owner, key); }
    }
  }

  /** Whatever a restricted device asks for, only its own slice changes. */
  lemma RestrictedDeviceIsConfined(db: Db, base: nat, c: Claims, request: Request, d: Id)
    requires Intact(db) && CallerIs(db, c, d) && IsRestricted(db.policies, db.policyKeys, d)
    ensures Confined(db, Handle(db, base, c, request), d)
  {
    hide Confined, IsRestricted, HandleKeys, HandleDevices, HandleEntries;
    match request
    case ForKeys(q) => KeyRequestsConfined(db, c, q, d);
    case ForDevices(q) => DeviceRequestsConfined(db, c, q, d);
    case ForEntries(q) => EntryRequestsConfined(db, base, c, q, d);
  }
}
