/** Exactly when each request about an entry succeeds, and which columns of which rows it changes. */
module EntryAccess {
  import opened Basics
  import opened Policy
  import opened Bans
  import opened Tables
  import opened Entries
  import opened Handlers
  import opened Effects

  // ---------------------------------------------------------------- reading

  /** There is an entry under the name that is not over and is neither sealed nor zero-trust. */
  predicate PlainEntry(db: Db, owner: string, key: string) {
    && (key, owner) in db.kv
    && (db.kv[(key, owner)].expiresAt.Some? ==> db.now < db.kv[(key, owner)].expiresAt.value)
    && !db.kv[(key, owner)].deviceEncrypted && db.kv[(key, owner)].zeroTrust.None?
  }

  /** A read succeeds exactly for a plain entry, with a passed device check and, for a listed key, a listed name. */
  lemma ReadSucceedsExactly(db: Db, base: nat, c: Claims, allowed: Option<seq<string>>, key: string)
    ensures GetEntry(db, base, c, allowed, key).0.Ok? <==>
              && AuthorizeCaller(db, base, c, key).0.Ok? && (allowed.Some? ==> key in allowed.value)
              && PlainEntry(db, c.owner, key)
    ensures AdminRead(db, base, c, key).0.Ok?
       <==> AuthorizeCaller(db, base, c, key).0.Ok? && PlainEntry(db, c.owner, key)
    ensures GetEntry(db, base, c, allowed, key).0.Ok? ==>
              GetEntry(db, base, c, allowed, key).0 == Ok(db.kv[(key, c.owner)].value)
    ensures AdminRead(db, base, c, key).0.Ok? ==> AdminRead(db, base, c, key).0 == Ok(db.kv[(key, c.owner)].value)
  {
    hide AuthorizeCaller, Slide;
  }

  /** The end of an entry after it has been read through `/kv`: a sliding lifetime starts again. */
  function EndAfterRead(row: KvEntry, now: int): Option<int> {
    if row.sliding && row.ttlSecs.Some? then Some(now + row.ttlSecs.value) else row.expiresAt
  }

  lemma ReadSlides(db: Db, base: nat, c: Claims, allowed: Option<seq<string>>, key: string)
    ensures GetEntry(db, base, c, allowed, key).0.Ok? ==>
              (key, c.owner) in db.kv && GetEntry(db, base, c, allowed, key).1 == Slide(db, c.owner, key)
    ensures GetEntry(db, base, c, allowed, key).0.Err? ==> GetEntry(db, base, c, allowed, key).1.kv == db.kv
  {
    hide AuthorizeCaller, Slide;
    CheckKeepsEntries(db, base, c, key);
  }

  lemma SlideMovesTheEnd(db: Db, owner: string, key: string)
    requires (key, owner) in db.kv
    ensures (key, owner) in Slide(db, owner, key).kv
    ensures var (row, after) := (db.kv[(key, owner)], Slide(db, owner, key).kv[(key, owner)]);
            && after.value == row.value && after.deviceEncrypted == row.deviceEncrypted
            && after.zeroTrust == row.zeroTrust && after.expiresAt == EndAfterRead(row, db.now)
  {
    if db.kv[(key, owner)].sliding && db.kv[(key, owner)].ttlSecs.Some? {
      SlidingRow(db, owner, key);
    }
  }

  lemma SlidingRow(db: Db, owner: string, key: string)
    requires (key, owner) in db.kv && db.kv[(key, owner)].sliding && db.kv[(key, owner)].ttlSecs.Some?
    ensures var row := db.kv[(key, owner)];
            Slide(db, owner, key).kv == db.kv[(key, owner) := row.(expiresAt := Some(db.now + row.ttlSecs.value))]
  {
  }

  /** So while its row stays, the owner can read it again exactly until then. */
  lemma ReadEntryLives(db: Db, base: nat, c: Claims, allowed: Option<seq<string>>, key: string, late: Db,
                       reader: Claims)
    requires GetEntry(db, base, c, allowed, key).0.Ok?
    requires EntryKept(GetEntry(db, base, c, allowed, key).1, late, c.owner, key)
    requires reader.owner == c.owner && AuthorizeCaller(late, base, reader, key).0.Ok?
    ensures (key, c.owner) in db.kv
    ensures var end := EndAfterRead(db.kv[(key, c.owner)], db.now);
            GetEntry(late, base, reader, None, key).0
            == if end.Some? && end.value <= late.now then Err(NotFound) else Ok(db.kv[(key, c.owner)].value)
  {
    hide AuthorizeCaller, GetEntry, AdminRead, Slide, EndAfterRead;
    ReadSlides(db, base, c, allowed, key);
    SlideMovesTheEnd(db, c.owner, key);
    ReadSucceedsExactly(db, base, c, allowed, key);
    ReadSucceedsExactly(late, base, reader, None, key);
    if late.kv[(key, c.owner)].expiresAt.Some? && late.kv[(key, c.owner)].expiresAt.value <= late.now {
      MissingIsNotFound(late, base, reader, key);
    }
  }

  lemma MissingIsNotFound(db: Db, base: nat, reader: Claims, key: string)
    requires AuthorizeCaller(db, base, reader, key).0.Ok?
    requires (key, reader.owner) in db.kv ==>
               db.kv[(key, reader.owner)].expiresAt.Some? && db.kv[(key, reader.owner)].expiresAt.value <= db.now
    ensures GetEntry(db, base, reader, None, key) == (Err(NotFound), db)
    ensures AdminRead(db, base, reader, key) == (Err(NotFound), db)
  {
    hide AuthorizeCaller, Slide;
  }

  /** A read through `/kv` moves no other entry, and one by an administrator moves none. */
  lemma ReadMovesNoOther(db: Db, base: nat, c: Claims, allowed: Option<seq<string>>, key: string)
    ensures GetEntry(db, base, c, allowed, key).1.kv - {(key, c.owner)} == db.kv - {(key, c.owner)}
    ensures AdminRead(db, base, c, key).1.kv == db.kv
  {
    hide AuthorizeCaller, GetEntry, Slide;
    CheckKeepsEntries(db, base, c, key);
    ReadSlides(db, base, c, allowed, key);
    if (key, c.owner) in db.kv { SlideTouchesOne(db, c.owner, key); }
  }

  // ---------------------------------------------------------------- writing

  /** The columns of an entry after a write at time `now`; the mark of a sealed entry stays. */
  predicate WrittenRow(db: Db, after: Db, owner: string, key: string, body: EntryBody) {
    && (key, owner) in after.kv
    && after.kv[(key, owner)].value == body.value
    && after.kv[(key, owner)].ttlSecs == body.ttlSecs
    && after.kv[(key, owner)].sliding == body.sliding
    && after.kv[(key, owner)].openAccess == body.openAccess
    && after.kv[(key, owner)].zeroTrust == body.zeroTrust
    && after.kv[(key, owner)].expiresAt == (if body.ttlSecs.Some? then Some(db.now + body.ttlSecs.value) else None)
    && (after.kv[(key, owner)].deviceEncrypted <==> (key, owner) in db.kv && db.kv[(key, owner)].deviceEncrypted)
    && after.kv - {(key, owner)} == db.kv - {(key, owner)}
  }

  lemma PutWrites(db: Db, owner: string, key: string, body: EntryBody)
    ensures WrittenRow(db, PutEntry(db, owner, key, body), owner, key, body)
  {
  }

  /** A write succeeds exactly if the device check passes; by key, also the name must be listed, and only the
      administrator writes the reserved name. It sets all columns of this row and of no other. */
  lemma WriteSucceedsExactly(db: Db, base: nat, c: Claims, allowed: Option<seq<string>>, admin: Option<string>,
                             key: string, body: EntryBody)
    ensures AdminWrite(db, base, c, key, body).0.Ok? <==> AuthorizeCaller(db, base, c, key).0.Ok?
    ensures AdminWrite(db, base, c, key, body).0.Ok? ==>
              WrittenRow(db, AdminWrite(db, base, c, key, body).1, c.owner, key, body)
    ensures PutByKey(db, base, c, allowed, admin, key, body).0.Ok? <==>
              && AuthorizeCaller(db, base, c, key).0.Ok? && (allowed.Some? ==> key in allowed.value)
              && (key == "NOTIFY_API_KEY" ==> admin == Some(c.owner))
    ensures PutByKey(db, base, c, allowed, admin, key, body).0.Ok? ==>
              WrittenRow(db, PutByKey(db, base, c, allowed, admin, key, body).1, c.owner, key, body)
  {
    hide AuthorizeCaller, PutEntry, WrittenRow;
    PutWrites(db, c.owner, key, body);
  }

  /** A delete by key succeeds exactly if its checks pass and the row exists; it takes this row and no other. */
  lemma DeleteSucceedsExactly(db: Db, base: nat, c: Claims, allowed: Option<seq<string>>, key: string)
    ensures DeleteByKey(db, base, c, allowed, key).0.Ok? <==>
              && AuthorizeCaller(db, base, c, key).0.Ok? && (allowed.Some? ==> key in allowed.value)
              && (key, c.owner) in db.kv
    ensures DeleteByKey(db, base, c, allowed, key).0.Ok? ==>
              DeleteByKey(db, base, c, allowed, key).1.kv == db.kv - {(key, c.owner)}
  {
    hide AuthorizeCaller;
  }

  // ---------------------------------------------------------------- import

  lemma {:induction false} ChecksPassExactly(db: Db, base: nat, c: Claims, entries: seq<(string, string)>)
    ensures AuthorizeAll(db, base, c, entries).0.Ok?
       <==> forall e | e in entries :: AuthorizeCaller(db, base, c, e.0).0.Ok?
  {
    hide AuthorizeCaller;
    if entries != [] {
      var n := |entries| - 1;
      ChecksPassExactly(db, base, c, entries[..n]);
      PassedChecksChangeNothing(db, base, c, entries[..n]);
      assert entries == entries[..n] + [entries[n]];
    }
  }

  /** An import succeeds exactly if its file is read and every name of it passes the device check. */
  lemma ImportSucceedsExactly(db: Db, base: nat, c: Claims, prefix: string, options: EntryBody, lines: seq<string>)
    ensures Import(db, base, c, prefix, options, lines).0.Ok? <==>
              && ParseFile(prefix, lines).Ok?
              && forall e | e in ParseFile(prefix, lines).value :: AuthorizeCaller(db, base, c, e.0).0.Ok?
  {
    hide AuthorizeCaller, AuthorizeAll, ParseFile, PutAll;
    if ParseFile(prefix, lines).Ok? { ChecksPassExactly(db, base, c, ParseFile(prefix, lines).value); }
  }

  /** The row of an imported name: the last value given for it with the options of the request, and the zero-trust
      columns and the mark that it had before. */
  predicate ImportedRow(db: Db, row: KvEntry, e: EntryKey, value: string, options: EntryBody) {
    && row.value == value && row.ttlSecs == options.ttlSecs && row.sliding == options.sliding
    && row.openAccess == options.openAccess
    && row.expiresAt == (if options.ttlSecs.Some? then Some(db.now + options.ttlSecs.value) else None)
    && row.zeroTrust == (if e in db.kv then db.kv[e].zeroTrust else None)
    && (row.deviceEncrypted <==> e in db.kv && db.kv[e].deviceEncrypted)
  }

  lemma {:induction false} ImportSetsColumns(db: Db, owner: string, options: EntryBody, entries: seq<(string, string)>,
                                             e: EntryKey)
    ensures var after := PutAll(db, owner, options, entries);
            && after.now == db.now
            && (if e.1 == owner && LastValue(entries, e.0).Some?
                then e in after.kv && ImportedRow(db, after.kv[e], e, LastValue(entries, e.0).value, options)
                else (e in after.kv <==> e in db.kv) && (e in db.kv ==> after.kv[e] == db.kv[e]))
  {
    if entries != [] { ImportSetsColumns(db, owner, options, entries[..|entries| - 1], e); }
  }

  lemma ImportedEntriesAre(db: Db, base: nat, c: Claims, prefix: string, options: EntryBody, lines: seq<string>,
                           e: EntryKey)
    requires Import(db, base, c, prefix, options, lines).0.Ok?
    ensures var after := Import(db, base, c, prefix, options, lines).1;
            ParseFile(prefix, lines).Ok? &&
            if e.1 == c.owner && LastValue(ParseFile(prefix, lines).value, e.0).Some?
            then e in after.kv
                 && ImportedRow(db, after.kv[e], e, LastValue(ParseFile(prefix, lines).value, e.0).value, options)
            else (e in after.kv <==> e in db.kv) && (e in db.kv ==> after.kv[e] == db.kv[e])
  {
    hide AuthorizeAll, ParseFile, PutAll, LastValue, ImportedRow;
    ImportSetsColumns(db, c.owner, options, ParseFile(prefix, lines).value, e);
  }

  // ---------------------------------------------------------------- device-encrypted entries

  /** A device-encrypted write succeeds exactly for a passed check and a nonempty list of existing devices, none of
      them twice; it leaves every other entry, body and recipient, and the other columns of the
      entry; a new one has no value, no end and no open access. */
  lemma SealSucceedsExactly(db: Db, base: nat, c: Claims, key: string, sealed: string, devices: seq<Id>, e: EntryKey)
    ensures WriteDeviceKv(db, base, c, key, sealed, devices).0.Ok? <==>
              && AuthorizeCaller(db, base, c, key).0.Ok? && devices != []
              && (forall d | d in devices :: d in db.devices)
              && (forall i, j | 0 <= i < j < |devices| :: devices[i] != devices[j])
    ensures WriteDeviceKv(db, base, c, key, sealed, devices).0.Ok? ==>
              var after := WriteDeviceKv(db, base, c, key, sealed, devices).1;
              && (e != (key, c.owner) ==> (e in after.kv <==> e in db.kv) && (e in after.bodies <==> e in db.bodies))
              && (e != (key, c.owner) && e in db.kv ==> after.kv[e] == db.kv[e])
              && (e != (key, c.owner) && e in db.bodies ==> after.bodies[e] == db.bodies[e])
              && (key, c.owner) in after.kv
              && ((key, c.owner) in db.kv ==>
                    after.kv[(key, c.owner)] == db.kv[(key, c.owner)].(deviceEncrypted := true))
              && ((key, c.owner) !in db.kv ==>
                    after.kv[(key, c.owner)] == KvEntry("", None, false, None, false, None, true))
  {
    hide AuthorizeCaller, NewRecipients, WithoutEntry;
  }

  lemma OtherRecipientsStay(db: Db, base: nat, c: Claims, key: string, sealed: string, devices: seq<Id>, d: Id,
                            owner: string, name: string)
    requires WriteDeviceKv(db, base, c, key, sealed, devices).0.Ok? && (name, owner) != (key, c.owner)
    requires forall x | x in db.recipients :: x < db.nextId
    ensures Received(WriteDeviceKv(db, base, c, key, sealed, devices).1.recipients, d, owner, name)
       <==> Received(db.recipients, d, owner, name)
  {
    hide WriteDeviceKv, NewRecipients;
    WrittenForDevices(db, base, c, key, sealed, devices);
    NewRecipientsAre(db.nextId, c.owner, key, devices);
    var after := WriteDeviceKv(db, base, c, key, sealed, devices).1;
    if Received(db.recipients, d, owner, name) {
      var r :| r in db.recipients && ReceivedBy(db.recipients[r], d, owner, name);
      assert r in after.recipients && after.recipients[r] == db.recipients[r];
    }
  }

  /** A device fetches exactly what is sealed for it: the owner asks, the caller's own device passes its check, and
      another device of the path is neither banned nor refused the name. The fetch is noted at the device. */
  lemma FetchSucceedsExactly(db: Db, base: nat, c: Claims, device: Id, key: string)
    ensures var (r, after) := FetchDeviceKv(db, base, c, device, key);
            && (r.Ok? <==>
                  && device in db.devices && db.devices[device].owner == c.owner
                  && AuthorizeCaller(db, base, c, key).0.Ok?
                  && (c.device != Some(device) ==>
                        !Banned(db.bans, device, db.now) && KeyPermitted(db.policies, db.policyKeys, device, key))
                  && (key, c.owner) in db.bodies
                  && exists x | x in db.recipients :: db.recipients[x] == Recipient(key, c.owner, device))
            && (r.Ok? ==> r == Ok(db.bodies[(key, c.owner)])
                          && after.devices == db.devices[device := db.devices[device].(lastSeen := Some(db.now))])
            && (r.Err? ==> after.devices == db.devices)
  {
    hide KeyPermitted, Banned, AuthorizeCaller;
    CheckKeepsDevices(db, base, c, key);
  }

  lemma CheckKeepsDevices(db: Db, base: nat, c: Claims, key: string)
    ensures AuthorizeCaller(db, base, c, key).1.devices == db.devices
  {
  }
}
