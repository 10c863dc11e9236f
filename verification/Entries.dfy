/** The statements that write entries, sealed bodies and their recipients. */
module Entries {
  import opened Basics
  import opened Tables

  /** The columns that a write sets. */
  datatype EntryBody = EntryBody(value: string, ttlSecs: Option<int>, sliding: bool, openAccess: bool,
                                 zeroTrust: Option<string>)

  function ExpiresAt(now: int, ttlSecs: Option<int>): Option<int> {
    if ttlSecs.None? then None else Some(now + ttlSecs.value)
  }

  /** The upsert of a whole entry; the device-encrypted mark of an existing row stays. */
  function PutEntry(db: Db, owner: string, key: string, body: EntryBody): Db {
    var marked := (key, owner) in db.kv && db.kv[(key, owner)].deviceEncrypted;
    db.(kv := db.kv[(key, owner) := KvEntry(body.value, body.ttlSecs, body.sliding, ExpiresAt(db.now, body.ttlSecs),
                                            body.openAccess, body.zeroTrust, marked)])
  }

  function DropEntry(db: Db, owner: string, key: string): Db { db.(kv := db.kv - {(key, owner)}) }

  /** The sliding extension of a read. */
  function Slide(db: Db, owner: string, key: string): Db
    requires (key, owner) in db.kv
  {
    var row := db.kv[(key, owner)];
    if row.sliding && row.ttlSecs.Some?
    then db.(kv := db.kv[(key, owner) := row.(expiresAt := ExpiresAt(db.now, row.ttlSecs))]) else db
  }

  lemma SlideTouchesOne(db: Db, owner: string, key: string)
    requires (key, owner) in db.kv
    ensures Slide(db, owner, key).kv - {(key, owner)} == db.kv - {(key, owner)}
    ensures Slide(db, owner, key) == db.(kv := Slide(db, owner, key).kv)
  {
  }

  /** An import keeps the zero-trust columns of an existing row. */
  function ImportBody(db: Db, owner: string, key: string, value: string, options: EntryBody): EntryBody {
    options.(value := value,
             zeroTrust := if (key, owner) in db.kv then db.kv[(key, owner)].zeroTrust else None)
  }

  // ---------------------------------------------------------------- device-encrypted entries

  /** The recipients' rows of one entry, with ids from `first` on. */
  function NewRecipients(first: Id, owner: string, key: string, devices: seq<Id>): map<Id, Recipient> {
    if devices == [] then map[]
    else
      var n := |devices| - 1;
      NewRecipients(first, owner, key, devices[..n])[first + n := Recipient(key, owner, devices[n])]
  }

  lemma {:induction false} NewRecipientsAre(first: Id, owner: string, key: string, devices: seq<Id>)
    ensures var rows := NewRecipients(first, owner, key, devices);
            && (forall r :: r in rows <==> first <= r < first + |devices|)
            && (forall r | r in rows :: rows[r] == Recipient(key, owner, devices[r - first]))
  {
    if devices != [] {
      var n := |devices| - 1;
      NewRecipientsAre(first, owner, key, devices[..n]);
      assert NewRecipients(first, owner, key, devices)
          == NewRecipients(first, owner, key, devices[..n])[first + n := Recipient(key, owner, devices[n])];
    }
  }

  predicate OfEntry(row: Recipient, owner: string, key: string) { row.kvKey == key && row.owner == owner }

  function WithoutEntry(recipients: map<Id, Recipient>, owner: string, key: string): map<Id, Recipient> {
    map r | r in recipients && !OfEntry(recipients[r], owner, key) :: recipients[r]
  }

  /** Each recipient must exist and be named once, or the whole transaction fails. */
  predicate RecipientsValid(known: map<Id, Device>, devices: seq<Id>) {
    && (forall d | d in devices :: d in known)
    && (forall i, j | 0 <= i < j < |devices| :: devices[i] != devices[j])
  }

  lemma NoRecipients(known: map<Id, Device>, first: Id, owner: string, key: string)
    ensures NewRecipients(first, owner, key, []) == map[] && RecipientsValid(known, [])
  {
  }

  /** The insert that fails shows that the recipients are not valid. */
  lemma FailedInsert(recipients: map<Id, Recipient>, known: map<Id, Device>, first: Id, owner: string, key: string,
                     devices: seq<Id>, i: nat)
    requires i < |devices|
    requires forall row | row in recipients :: !OfEntry(recipients[row], owner, key)
    requires devices[i] !in known
             || Recipient(key, owner, devices[i])
                  in (recipients + NewRecipients(first, owner, key, devices[..i])).Values
    ensures !RecipientsValid(known, devices)
  {
    if devices[i] in known {
      var rows := recipients + NewRecipients(first, owner, key, devices[..i]);
      var r :| r in rows && rows[r] == Recipient(key, owner, devices[i]);
      NewRecipientsAre(first, owner, key, devices[..i]);
      assert devices[r - first] == devices[i];
    }
  }

  function MarkEncrypted(db: Db, owner: string, key: string): Db {
    db.(kv := db.kv[(key, owner) :=
          if (key, owner) in db.kv then db.kv[(key, owner)].(deviceEncrypted := true)
          else KvEntry("", None, false, None, false, None, true)])
  }

  lemma MarkChangesOneRow(db: Db, owner: string, key: string)
    ensures MarkEncrypted(db, owner, key) == db.(kv := MarkEncrypted(db, owner, key).kv)
    ensures MarkEncrypted(db, owner, key).kv - {(key, owner)} == db.kv - {(key, owner)}
  {
  }

  /** Body and recipients replaced, as the transaction has them before it marks the entry. */
  function Resealed(db: Db, owner: string, key: string, sealed: string, devices: seq<Id>): Db {
    db.(nextId := db.nextId + |devices|, bodies := db.bodies[(key, owner) := sealed],
        recipients := WithoutEntry(db.recipients, owner, key) + NewRecipients(db.nextId, owner, key, devices))
  }

  // ---------------------------------------------------------------- statements

  /** A statement, or the one transaction, that writes entries. */
  datatype EntryStatement =
    | Put(owner: string, key: string, body: EntryBody)
    | ImportRow(owner: string, key: string, value: string, options: EntryBody)
    | Drop(owner: string, key: string)
    | Extend(owner: string, key: string)
    | Seal(owner: string, key: string, sealed: string, devices: seq<Id>)

  /** What it makes of the tables; a transaction that names an unknown device, or one twice, is undone. */
  function WriteResult(db: Db, e: EntryStatement): (after: Db)
    ensures after.nextId >= db.nextId
  {
    match e
    case Put(owner, key, body) => PutEntry(db, owner, key, body)
    case ImportRow(owner, key, value, options) => PutEntry(db, owner, key, ImportBody(db, owner, key, value, options))
    case Drop(owner, key) => DropEntry(db, owner, key)
    case Extend(owner, key) => if (key, owner) in db.kv then Slide(db, owner, key) else db
    case Seal(owner, key, sealed, devices) =>
      if RecipientsValid(db.devices, devices) then MarkEncrypted(Resealed(db, owner, key, sealed, devices), owner, key)
      else db
  }
}
