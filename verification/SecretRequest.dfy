/** One-time links through which an outsider submits secrets into an owner's store. */
module SecretRequest {
  import opened Basics
  import opened Text
  import opened FauxApproval

  datatype LinkStatus = Pending | Fulfilled | Revoked

  /** `required` is the parsed list of required keys; a missing or unreadable list is `None`. */
  datatype Link = Link(owner: string, status: LinkStatus, prefix: Option<string>, required: Option<seq<string>>)

  datatype Entry = Entry(value: string, expiresAt: Option<int>)

  datatype Notice = Notice(owner: string, link: Id, message: string)

  /** The store's key is the pair of name and owner. */
  type KvTable = map<(string, string), Entry>

  datatype Store = Store(now: int, nextId: Id, links: map<Id, Link>, kv: KvTable, notices: seq<Notice>)

  datatype SubmitEntry = SubmitEntry(key: string, value: string)

  datatype Bypass = Bypass(key: string, note: string)

  datatype Body = Body(entries: seq<SubmitEntry>, bypasses: Option<seq<Bypass>>)

  function Required(link: Link): seq<string> { if link.required.Some? then link.required.value else [] }

  function Prefix(link: Link): string { if link.prefix.Some? then link.prefix.value else "" }

  function Bypasses(body: Body): seq<Bypass> { if body.bypasses.Some? then body.bypasses.value else [] }

  predicate Bypassed(body: Body, key: string) { exists b | b in Bypasses(body) :: b.key == key }

  /** The submission has a nonempty value for the key. */
  predicate Provided(body: Body, key: string) {
    exists e | e in body.entries :: Trim(e.key) == key && e.value != []
  }

  predicate Covered(body: Body, required: seq<string>) {
    forall key | key in required :: Provided(body, key) || Bypassed(body, key)
  }

  /** The rows to be inserted: trimmed nonblank keys that are not bypassed, under the prefix. */
  function Rows(prefix: string, body: Body, entries: seq<SubmitEntry>): seq<(string, string)> {
    if entries == [] then []
    else
      var before := Rows(prefix, body, entries[..|entries| - 1]);
      var e := entries[|entries| - 1];
      if Trim(e.key) == [] || Bypassed(body, Trim(e.key)) then before
      else before + [(prefix + Trim(e.key), e.value)]
  }

  predicate Live(kv: KvTable, key: string, owner: string, now: int) {
    (key, owner) in kv && Unexpired(kv[(key, owner)].expiresAt, now)
  }

  /** The names that are already in use by an entry that has not expired. */
  function Conflicts(kv: KvTable, owner: string, now: int, rows: seq<(string, string)>): seq<string> {
    if rows == [] then []
    else
      Conflicts(kv, owner, now, rows[..|rows| - 1])
      + if Live(kv, rows[|rows| - 1].0, owner, now) then [rows[|rows| - 1].0] else []
  }

  /** The inserts, one after the other; none of them may find its primary key taken, not even by
      an expired entry that has not been cleaned up or by an earlier row of the submission. */
  function InsertAll(kv: KvTable, owner: string, rows: seq<(string, string)>): Option<KvTable> {
    if rows == [] then Some(kv)
    else
      var (key, value) := rows[|rows| - 1];
      match InsertAll(kv, owner, rows[..|rows| - 1])
      case None => None
      case Some(before) =>
        if (key, owner) in before then None else Some(before[(key, owner) := Entry(value, None)])
  }

  function NoticesFor(owner: string, link: Id, required: seq<string>, bypasses: seq<Bypass>): seq<Notice> {
    if bypasses == [] then []
    else
      var b := bypasses[|bypasses| - 1];
      NoticesFor(owner, link, required, bypasses[..|bypasses| - 1])
      + if b.key in required then [Notice(owner, link, Message(b.key, b.note))] else []
  }

  function Outcome(s: Store, id: Id, body: Body): Result<(), AppError> {
    if id !in s.links then Err(NotFound)
    else
      var link := s.links[id];
      var rows := Rows(Prefix(link), body, body.entries);
      if link.status != Pending then Err(Forbidden)
      else if !Covered(body, Required(link)) then Err(Forbidden)
      else if Conflicts(s.kv, link.owner, s.now, rows) != []
      then Err(KeyConflict(Conflicts(s.kv, link.owner, s.now, rows)))
      else if InsertAll(s.kv, link.owner, rows).None? then Err(Internal)
      else Ok(())
  }

  /** The transaction: everything, or nothing. */
  function AfterSubmit(s: Store, id: Id, body: Body): Store {
    if Outcome(s, id, body).Err? then s
    else
      var link := s.links[id];
      s.(links := s.links[id := link.(status := Fulfilled)],
         kv := InsertAll(s.kv, link.owner, Rows(Prefix(link), body, body.entries)).value,
         notices := s.notices + NoticesFor(link.owner, id, Required(link), Bypasses(body)))
  }

  /** The public submit handler over its three tables. */
  class SecretRequests {
    var store: Store

    constructor (now: int)
      ensures store == Store(now, 0, map[], map[], [])
    {
      store := Store(now, 0, map[], map[], []);
    }

    method CheckRequired(body: Body, required: seq<string>) returns (covered: bool)
      ensures covered <==> Covered(body, required)
    {
      for i := 0 to |required|
        invariant Covered(body, required[..i])
      {
        if !Provided(body, required[i]) && !Bypassed(body, required[i]) {
          assert required[i] in required;
          return false;
        }
        assert required[..i + 1] == required[..i] + [required[i]];
      }
      assert required[..|required|] == required;
      return true;
    }

    method CollectRows(prefix: string, body: Body) returns (rows: seq<(string, string)>)
      ensures rows == Rows(prefix, body, body.entries)
    {
      rows := [];
      for i := 0 to |body.entries|
        invariant rows == Rows(prefix, body, body.entries[..i])
      {
        assert body.entries[..i + 1][..i] == body.entries[..i];
        var bare := Trim(body.entries[i].key);
        if bare != [] && !Bypassed(body, bare) {
          rows := rows + [(prefix + bare, body.entries[i].value)];
        }
      }
      assert body.entries[..|body.entries|] == body.entries;
    }

    method CollectConflicts(kv: KvTable, owner: string, now: int, rows: seq<(string, string)>)
        returns (conflicts: seq<string>)
      ensures conflicts == Conflicts(kv, owner, now, rows)
    {
      conflicts := [];
      for i := 0 to |rows|
        invariant conflicts == Conflicts(kv, owner, now, rows[..i])
      {
        assert rows[..i + 1][..i] == rows[..i];
        if Live(kv, rows[i].0, owner, now) { conflicts := conflicts + [rows[i].0]; }
      }
      assert rows[..|rows|] == rows;
    }

    method InsertRows(kv: KvTable, owner: string, rows: seq<(string, string)>) returns (r: Option<KvTable>)
      ensures r == InsertAll(kv, owner, rows)
    {
      r := Some(kv);
      for i := 0 to |rows|
        invariant r == InsertAll(kv, owner, rows[..i])
      {
        assert rows[..i + 1][..i] == rows[..i];
        if r.Some? {
          if (rows[i].0, owner) in r.value {
            r := None;
          } else {
            r := Some(r.value[(rows[i].0, owner) := Entry(rows[i].1, None)]);
          }
        }
      }
      assert rows[..|rows|] == rows;
    }

    method CollectNotices(owner: string, link: Id, required: seq<string>, bypasses: seq<Bypass>)
        returns (notices: seq<Notice>)
      ensures notices == NoticesFor(owner, link, required, bypasses)
    {
      notices := [];
      for i := 0 to |bypasses|
        invariant notices == NoticesFor(owner, link, required, bypasses[..i])
      {
        assert bypasses[..i + 1][..i] == bypasses[..i];
        if bypasses[i].key in required {
          notices := notices + [Notice(owner, link, Message(bypasses[i].key, bypasses[i].note))];
        }
      }
      assert bypasses[..|bypasses|] == bypasses;
    }

    method Submit(id: Id, body: Body) returns (r: Result<(), AppError>)
      modifies this
      ensures r == Outcome(old(store), id, body)
      ensures store == AfterSubmit(old(store), id, body)
    {
      var tx := store;
      if id !in tx.links { return Err(NotFound); }
      var link := tx.links[id];
      if link.status != Pending { return Err(Forbidden); }
      var covered := CheckRequired(body, Required(link));
      if !covered { return Err(Forbidden); }
      var rows := CollectRows(Prefix(link), body);
      var conflicts := CollectConflicts(tx.kv, link.owner, tx.now, rows);
      if conflicts != [] { return Err(KeyConflict(conflicts)); }
      tx := tx.(links := tx.links[id := link.(status := Fulfilled)]);
      var inserted := InsertRows(tx.kv, link.owner, rows);
      if inserted.None? { return Err(Internal); }
      var notices := CollectNotices(link.owner, id, Required(link), Bypasses(body));
      tx := tx.(kv := inserted.value, notices := tx.notices + notices);
      store := tx;
      return Ok(());
    }
  }

  // ---------------------------------------------------------------- what a success means

  ghost predicate DistinctNames(rows: seq<(string, string)>) {
    forall i, j | 0 <= i < j < |rows| :: rows[i].0 != rows[j].0
  }

  /** The inserts succeed exactly when the names are new and pairwise different; then the store
      has gained exactly these rows. */
  lemma {:induction false} InsertAllIsExact(kv: KvTable, owner: string, rows: seq<(string, string)>)
    ensures InsertAll(kv, owner, rows).Some?
        <==> DistinctNames(rows) && forall row | row in rows :: (row.0, owner) !in kv
    ensures InsertAll(kv, owner, rows).Some? ==>
              var kv' := InsertAll(kv, owner, rows).value;
              && (forall k | k in kv :: k in kv' && kv'[k] == kv[k])
              && (forall row | row in rows :: (row.0, owner) in kv' && kv'[(row.0, owner)] == Entry(row.1, None))
              && (forall k | k in kv' && k !in kv :: k.1 == owner && exists row | row in rows :: row.0 == k.0)
  {
    if rows != [] {
      var n := |rows| - 1;
      InsertAllIsExact(kv, owner, rows[..n]);
      assert rows == rows[..n] + [rows[n]];
      DistinctExactly(rows);
      hide DistinctNames;
      if DistinctNames(rows) && forall row | row in rows :: (row.0, owner) !in kv {
        InsertedNameIsNew(kv, owner, rows);
      }
    }
  }

  lemma DistinctExactly(rows: seq<(string, string)>)
    requires rows != []
    ensures var n := |rows| - 1;
            DistinctNames(rows) <==> DistinctNames(rows[..n]) && forall row | row in rows[..n] :: row.0 != rows[n].0
  {
    var n := |rows| - 1;
    if DistinctNames(rows[..n]) && forall row | row in rows[..n] :: row.0 != rows[n].0 {
      forall i, j | 0 <= i < j < |rows| ensures rows[i].0 != rows[j].0 {
        if j == n { assert rows[..n][i] in rows[..n]; } else { assert rows[..n][i].0 != rows[..n][j].0; }
      }
    }
  }

  lemma InsertedNameIsNew(kv: KvTable, owner: string, rows: seq<(string, string)>)
    requires rows != [] && DistinctNames(rows) && (rows[|rows| - 1].0, owner) !in kv
    requires InsertAll(kv, owner, rows[..|rows| - 1]).Some?
    requires var before := InsertAll(kv, owner, rows[..|rows| - 1]).value;
             forall k | k in before && k !in kv :: exists row | row in rows[..|rows| - 1] :: row.0 == k.0
    ensures (rows[|rows| - 1].0, owner) !in InsertAll(kv, owner, rows[..|rows| - 1]).value
  {
  }

  lemma {:induction false} RowsAreExact(prefix: string, body: Body, entries: seq<SubmitEntry>)
    ensures forall e | e in entries && Trim(e.key) != [] && !Bypassed(body, Trim(e.key))
              :: (prefix + Trim(e.key), e.value) in Rows(prefix, body, entries)
    ensures forall row | row in Rows(prefix, body, entries)
              :: exists e | e in entries :: Trim(e.key) != [] && !Bypassed(body, Trim(e.key))
                                            && row == (prefix + Trim(e.key), e.value)
  {
    if entries != [] {
      var n := |entries| - 1;
      RowsAreExact(prefix, body, entries[..n]);
      assert entries == entries[..n] + [entries[n]];
    }
  }

  /** On success every nonblank required key is bypassed or stored, under the prefix, with a
      nonempty value that was submitted for it. */
  lemma RequiredKeysAreStored(s: Store, id: Id, body: Body, key: string)
    requires Outcome(s, id, body).Ok? && key in Required(s.links[id]) && key != []
    ensures var (link, stored) := (s.links[id], AfterSubmit(s, id, body).kv);
            || Bypassed(body, key)
            || (&& (Prefix(link) + key, link.owner) in stored
                && stored[(Prefix(link) + key, link.owner)].value != []
                && exists e | e in body.entries :: Trim(e.key) == key
                              && e.value == stored[(Prefix(link) + key, link.owner)].value)
  {
    var link := s.links[id];
    var rows := Rows(Prefix(link), body, body.entries);
    RowsAreExact(Prefix(link), body, body.entries);
    InsertAllIsExact(s.kv, link.owner, rows);
    if !Bypassed(body, key) {
      var e :| e in body.entries && Trim(e.key) == key && e.value != [];
      assert (Prefix(link) + key, e.value) in rows;
    }
  }

  /** On success no existing entry is overwritten, and every new entry belongs to the link's
      owner and was submitted, unbypassed, under its prefix. */
  lemma NothingElseIsStored(s: Store, id: Id, body: Body, k: (string, string))
    requires Outcome(s, id, body).Ok?
    ensures var (link, stored) := (s.links[id], AfterSubmit(s, id, body).kv);
            && (k in s.kv ==> k in stored && stored[k] == s.kv[k])
            && (k in stored && k !in s.kv ==>
                  k.1 == link.owner
                  && exists e | e in body.entries :: Trim(e.key) != [] && !Bypassed(body, Trim(e.key))
                                 && k.0 == Prefix(link) + Trim(e.key))
  {
    var link := s.links[id];
    var rows := Rows(Prefix(link), body, body.entries);
    RowsAreExact(Prefix(link), body, body.entries);
    InsertAllIsExact(s.kv, link.owner, rows);
    if k in AfterSubmit(s, id, body).kv && k !in s.kv {
      var row :| row in rows && row.0 == k.0;
    }
  }

  /** The positions of the bypasses of required keys. */
  function Positions(required: seq<string>, bypasses: seq<Bypass>): (at: seq<nat>)
    ensures forall i | 0 <= i < |at| :: at[i] < |bypasses|
  {
    if bypasses == [] then []
    else
      Positions(required, bypasses[..|bypasses| - 1])
      + if bypasses[|bypasses| - 1].key in required then [|bypasses| - 1] else []
  }

  lemma {:induction false} PositionsAreExact(required: seq<string>, bypasses: seq<Bypass>, n: nat)
    ensures var at := Positions(required, bypasses);
            && (forall i, j | 0 <= i < j < |at| :: at[i] < at[j])
            && (n in at <==> n < |bypasses| && bypasses[n].key in required)
  {
    if bypasses != [] {
      PositionsAreExact(required, bypasses[..|bypasses| - 1], n);
    }
  }

  lemma {:induction false} NoticeAt(owner: string, link: Id, required: seq<string>, bypasses: seq<Bypass>)
    ensures var (at, notices) := (Positions(required, bypasses), NoticesFor(owner, link, required, bypasses));
            && |notices| == |at|
            && forall i | 0 <= i < |at| ::
                 notices[i] == Notice(owner, link, Message(bypasses[at[i]].key, bypasses[at[i]].note))
  {
    hide Message;
    if bypasses != [] {
      NoticeAt(owner, link, required, bypasses[..|bypasses| - 1]);
    }
  }

  /** The notices are those of the bypasses of required keys, one for each and in their order. */
  lemma NoticesAreExact(owner: string, link: Id, required: seq<string>, bypasses: seq<Bypass>)
      returns (at: seq<nat>)
    ensures forall i, j | 0 <= i < j < |at| :: at[i] < at[j]
    ensures forall n: nat :: n in at <==> n < |bypasses| && bypasses[n].key in required
    ensures |NoticesFor(owner, link, required, bypasses)| == |at|
    ensures forall i | 0 <= i < |at| ::
              at[i] < |bypasses|
              && NoticesFor(owner, link, required, bypasses)[i]
                 == Notice(owner, link, Message(bypasses[at[i]].key, bypasses[at[i]].note))
  {
    hide Message, NoticesFor;
    at := Positions(required, bypasses);
    forall n: nat ensures n in at <==> n < |bypasses| && bypasses[n].key in required {
      PositionsAreExact(required, bypasses, n);
    }
    PositionsAreExact(required, bypasses, 0);
    NoticeAt(owner, link, required, bypasses);
  }

  /** Each notice names its key recoverably exactly if the key does not contain the notice's own delimiter. */
  lemma NoticesNameBypasses(owner: string, link: Id, required: seq<string>, bypasses: seq<Bypass>, i: nat)
      returns (n: nat)
    requires i < |NoticesFor(owner, link, required, bypasses)|
    ensures n < |bypasses| && bypasses[n].key in required
    ensures var message := NoticesFor(owner, link, required, bypasses)[i].message;
            KeyOf(message) == Some(bypasses[n].key) <==> !Contains(bypasses[n].key, DELIMITER)
  {
    var at := NoticesAreExact(owner, link, required, bypasses);
    n := at[i];
    assert n in at;
    KeyIsRecovered(bypasses[n].key, bypasses[n].note);
  }

  /** Exactly when a submission for a pending link goes through. */
  lemma SucceedsExactlyWhen(s: Store, id: Id, body: Body)
    requires id in s.links && s.links[id].status == Pending
    ensures var link := s.links[id];
            var rows := Rows(Prefix(link), body, body.entries);
            Outcome(s, id, body).Ok? <==>
              && Covered(body, Required(link))
              && DistinctNames(rows)
              && (forall row | row in rows :: (row.0, link.owner) !in s.kv)
  {
    var link := s.links[id];
    var rows := Rows(Prefix(link), body, body.entries);
    InsertAllIsExact(s.kv, link.owner, rows);
    ConflictsAreTaken(s.kv, link.owner, s.now, rows);
  }

  lemma {:induction false} ConflictsAreTaken(kv: KvTable, owner: string, now: int, rows: seq<(string, string)>)
    ensures Conflicts(kv, owner, now, rows) != [] ==> exists row | row in rows :: (row.0, owner) in kv
  {
    if rows != [] {
      ConflictsAreTaken(kv, owner, now, rows[..|rows| - 1]);
      assert rows[|rows| - 1] in rows;
      if Conflicts(kv, owner, now, rows[..|rows| - 1]) != [] {
        var row :| row in rows[..|rows| - 1] && (row.0, owner) in kv;
        assert row in rows;
      }
    }
  }

  // ---------------------------------------------------------------- at most once per link

  datatype Op =
    | CreateLink(link: Link)
    | Submit(id: Id, body: Body)
    | Revoke(owner: string, id: Id)
    | DeleteLink(owner: string, id: Id)
    | WriteKv(kv: KvTable)
    | Tick(secs: nat)

  function Step(s: Store, op: Op): Store {
    match op
    case CreateLink(link) =>
      s.(nextId := s.nextId + 1, links := s.links[s.nextId := link.(status := Pending)])
    case Submit(id, body) => AfterSubmit(s, id, body)
    case Revoke(owner, id) =>
      if id in s.links && s.links[id].owner == owner && s.links[id].status == Pending
      then s.(links := s.links[id := s.links[id].(status := Revoked)]) else s
    case DeleteLink(owner, id) =>
      if id in s.links && s.links[id].owner == owner then s.(links := s.links - {id}) else s
    case WriteKv(kv) => s.(kv := kv)
    case Tick(secs) => s.(now := s.now + secs)
  }

  function Exec(now: int, ops: seq<Op>): Store {
    if ops == [] then Store(now, 0, map[], map[], [])
    else Step(Exec(now, ops[..|ops| - 1]), ops[|ops| - 1])
  }

  function Successes(now: int, ops: seq<Op>, id: Id): nat {
    if ops == [] then 0
    else
      var (before, op) := (ops[..|ops| - 1], ops[|ops| - 1]);
      Successes(now, before, id)
      + if op.Submit? && op.id == id && Outcome(Exec(now, before), id, op.body).Ok? then 1 else 0
  }

  /** `n` submissions for link `id` have gone through so far. */
  ghost predicate Taken(s: Store, id: Id, n: nat) {
    && n <= 1
    && (forall l | l in s.links :: l < s.nextId)
    && (id >= s.nextId ==> n == 0)
    && (n == 1 && id in s.links ==> s.links[id].status == Fulfilled)
  }

  lemma StepTakes(s: Store, op: Op, id: Id, n: nat)
    requires Taken(s, id, n)
    ensures Taken(Step(s, op), id, n + if op.Submit? && op.id == id && Outcome(s, id, op.body).Ok? then 1 else 0)
  {
    hide Covered, Rows, Conflicts, InsertAll, NoticesFor;
  }

  /** In every run a link takes at most one submission, and once it has taken one it is never
      pending again. */
  lemma {:induction false} AtMostOneSubmission(now: int, ops: seq<Op>, id: Id)
    ensures Successes(now, ops, id) <= 1
    ensures Taken(Exec(now, ops), id, Successes(now, ops, id))
  {
    hide Step, Outcome;
    if ops != [] {
      AtMostOneSubmission(now, ops[..|ops| - 1], id);
      StepTakes(Exec(now, ops[..|ops| - 1]), ops[|ops| - 1], id, Successes(now, ops[..|ops| - 1], id));
    }
  }

  // ---------------------------------------------------------------- two covered submissions that fail

  /** A link of `owner` that asks for `a`. */
  function AskingForA(owner: string): Link { Link(owner, Pending, None, Some(["a"])) }

  lemma TrimA()
    ensures Trim("a") == "a"
  {
    assert TrimStart("a") == "a" && TrimEnd("a") == "a";
  }

  lemma RowOfA(body: Body, value: string)
    requires body.bypasses.None?
    ensures Rows("", body, [SubmitEntry("a", value)]) == [("a", value)]
  {
    TrimA();
    var entries := [SubmitEntry("a", value)];
    assert entries[..0] == [] && Rows("", body, []) == [];
    assert !Bypassed(body, "a");
    assert "" + "a" == "a";
  }

  lemma RowsOfA(body: Body, first: string, second: string)
    requires body.bypasses.None?
    ensures Rows("", body, [SubmitEntry("a", first), SubmitEntry("a", second)]) == [("a", first), ("a", second)]
  {
    TrimA();
    RowOfA(body, first);
    var entries := [SubmitEntry("a", first), SubmitEntry("a", second)];
    assert entries[..1] == [SubmitEntry("a", first)] && entries[1] == SubmitEntry("a", second);
    assert !Bypassed(body, "a");
    assert "" + "a" == "a";
  }

  lemma ACovered(body: Body)
    requires SubmitEntry("a", "1") in body.entries
    ensures Covered(body, ["a"])
  {
    TrimA();
    assert Provided(body, "a");
  }

  /** Two values for the one required name: the name is covered and free, and the second insert fails. */
  lemma RepeatedNameFails(now: int, owner: string)
    ensures var s := Exec(now, [CreateLink(AskingForA(owner))]);
            var body := Body([SubmitEntry("a", "1"), SubmitEntry("a", "2")], None);
            && s.kv == map[] && 0 in s.links
            && Covered(body, Required(s.links[0]))
            && Outcome(s, 0, body) == Err(Internal)
  {
    hide Covered, Exec, Rows, Trim, Conflicts, InsertAll;
    var s := OneLink(now, owner);
    var body := Body([SubmitEntry("a", "1"), SubmitEntry("a", "2")], None);
    var rows := [("a", "1"), ("a", "2")];
    ACovered(body);
    RowsOfA(body, "1", "2");
    NoConflict(s.kv, owner, now, rows);
    InsertAllIsExact(s.kv, owner, rows);
    assert rows[0].0 == rows[1].0;
  }

  /** The required name is taken by an entry that has expired and has not been cleaned up: the check for
      conflicts passes over it, and the insert fails. */
  lemma ExpiredNameFails(now: int, owner: string, secs: nat, value: string)
    ensures var entry := Entry(value, Some(now + secs));
            var s := Exec(now, [CreateLink(AskingForA(owner)), WriteKv(map[("a", owner) := entry]), Tick(secs)]);
            var body := Body([SubmitEntry("a", "1")], None);
            && !Live(s.kv, "a", owner, s.now) && 0 in s.links
            && Covered(body, Required(s.links[0]))
            && Outcome(s, 0, body) == Err(Internal)
  {
    hide Covered, Exec, Rows, Trim, Conflicts, InsertAll;
    var s := OneLinkOneEntry(now, owner, secs, Entry(value, Some(now + secs)));
    var body := Body([SubmitEntry("a", "1")], None);
    var rows := [("a", "1")];
    ACovered(body);
    RowOfA(body, "1");
    NoConflict(s.kv, owner, s.now, rows);
    InsertAllIsExact(s.kv, owner, rows);
    assert rows[0] in rows && ("a", owner) in s.kv;
  }

  lemma OneLinkOneEntry(now: int, owner: string, secs: nat, entry: Entry) returns (s: Store)
    ensures s == Exec(now, [CreateLink(AskingForA(owner)), WriteKv(map[("a", owner) := entry]), Tick(secs)])
    ensures s == Store(now + secs, 1, map[0 := AskingForA(owner)], map[("a", owner) := entry], [])
  {
    var kv := map[("a", owner) := entry];
    var ops := [CreateLink(AskingForA(owner)), WriteKv(kv), Tick(secs)];
    var created := OneLink(now, owner);
    assert ops[..2] == [CreateLink(AskingForA(owner)), WriteKv(kv)];
    assert ops[..2][..1] == [CreateLink(AskingForA(owner))];
    assert Exec(now, ops[..2]) == Step(created, WriteKv(kv));
    s := Exec(now, ops);
  }

  lemma OneLink(now: int, owner: string) returns (s: Store)
    ensures s == Exec(now, [CreateLink(AskingForA(owner))])
    ensures s == Store(now, 1, map[0 := AskingForA(owner)], map[], [])
  {
    var ops := [CreateLink(AskingForA(owner))];
    assert ops[..0] == [];
    s := Exec(now, ops);
    assert s == Step(Exec(now, []), ops[0]);
  }

  lemma {:induction false} NoConflict(kv: KvTable, owner: string, now: int, rows: seq<(string, string)>)
    requires forall row | row in rows :: !Live(kv, row.0, owner, now)
    ensures Conflicts(kv, owner, now, rows) == []
  {
    if rows != [] { NoConflict(kv, owner, now, rows[..|rows| - 1]); }
  }

  // ---------------------------------------------------------------- what else a submission does

  /** On success every nonblank submitted key that is not bypassed is stored under the prefix with its value, for
      ever, and the link is fulfilled. */
  lemma SubmittedEntriesAreStored(s: Store, id: Id, body: Body, e: SubmitEntry)
    requires Outcome(s, id, body).Ok? && e in body.entries && Trim(e.key) != [] && !Bypassed(body, Trim(e.key))
    ensures var (link, after) := (s.links[id], AfterSubmit(s, id, body));
            && (Prefix(link) + Trim(e.key), link.owner) in after.kv
            && after.kv[(Prefix(link) + Trim(e.key), link.owner)] == Entry(e.value, None)
  {
    var link := s.links[id];
    var rows := Rows(Prefix(link), body, body.entries);
    RowsAreExact(Prefix(link), body, body.entries);
    InsertAllIsExact(s.kv, link.owner, rows);
    assert (Prefix(link) + Trim(e.key), e.value) in rows;
  }

  /** On success the link is fulfilled and the notices of the bypasses join those before; no other link changes.
      A refused submission changes nothing. */
  lemma SubmissionIsRecorded(s: Store, id: Id, body: Body, other: Id)
    ensures var (r, after) := (Outcome(s, id, body), AfterSubmit(s, id, body));
            && (r.Err? ==> after == s)
            && (r.Ok? ==>
                  && id in s.links && id in after.links && after.links[id] == s.links[id].(status := Fulfilled)
                  && after.notices == s.notices + NoticesFor(s.links[id].owner, id, Required(s.links[id]), Bypasses(body))
                  && after.now == s.now
                  && (other != id ==> (other in after.links <==> other in s.links)
                                      && (other in s.links ==> after.links[other] == s.links[other])))
  {
    hide Covered, Rows, Conflicts, InsertAll, NoticesFor;
  }

  /** The names of the conflict: exactly those rows whose name an unexpired entry of the owner has. */
  lemma {:induction false} ConflictsAreExact(kv: KvTable, owner: string, now: int, rows: seq<(string, string)>,
                                             name: string)
    ensures name in Conflicts(kv, owner, now, rows) <==>
              && (exists row | row in rows :: row.0 == name)
              && (name, owner) in kv && (kv[(name, owner)].expiresAt.None? || now < kv[(name, owner)].expiresAt.value)
  {
    if rows != [] {
      var n := |rows| - 1;
      ConflictsAreExact(kv, owner, now, rows[..n], name);
      assert rows == rows[..n] + [rows[n]];
    }
  }

  /** Why a submission fails, in the order in which the server looks. */
  lemma FailureIsExplained(s: Store, id: Id, body: Body)
    ensures var r := Outcome(s, id, body);
            && (r == Err(NotFound) <==> id !in s.links)
            && (id in s.links ==>
                  var rows := Rows(Prefix(s.links[id]), body, body.entries);
                  && (r == Err(Forbidden) <==>
                        s.links[id].status != Pending || !Covered(body, Required(s.links[id])))
                  && (r.Err? && r.error.KeyConflict? <==>
                        && s.links[id].status == Pending && Covered(body, Required(s.links[id]))
                        && exists row | row in rows :: Live(s.kv, row.0, s.links[id].owner, s.now))
                  && (r.Err? && r.error.KeyConflict? ==>
                        r.error.keys == Conflicts(s.kv, s.links[id].owner, s.now, rows)))
  {
    hide Covered, InsertAll, Rows;
    if id in s.links {
      var (owner, rows) := (s.links[id].owner, Rows(Prefix(s.links[id]), body, body.entries));
      var conflicts := Conflicts(s.kv, owner, s.now, rows);
      if conflicts != [] {
        ConflictsAreExact(s.kv, owner, s.now, rows, conflicts[0]);
        assert conflicts[0] in conflicts;
      }
      if row :| row in rows && Live(s.kv, row.0, owner, s.now) {
        ConflictsAreExact(s.kv, owner, s.now, rows, row.0);
      }
    }
  }

  // ---------------------------------------------------------------- the same in terms of the submission

  /** The entry is to be stored: it has a nonblank name that is not bypassed. */
  predicate ToStore(body: Body, e: SubmitEntry) {
    Trim(e.key) != "" && !(body.bypasses.Some? && exists b | b in body.bypasses.value :: b.key == Trim(e.key))
  }

  /** The name under which it is stored. */
  function StoredName(link: Link, e: SubmitEntry): string {
    match link.prefix
    case None => Trim(e.key)
    case Some(prefix) => prefix + Trim(e.key)
  }

  lemma SameNames(link: Link, a: SubmitEntry, b: SubmitEntry)
    ensures StoredName(link, a) == StoredName(link, b) <==> Trim(a.key) == Trim(b.key)
    ensures StoredName(link, a) == Prefix(link) + Trim(a.key)
  {
    var prefix := Prefix(link);
    assert (prefix + Trim(a.key))[|prefix|..] == Trim(a.key) && (prefix + Trim(b.key))[|prefix|..] == Trim(b.key);
    assert "" + Trim(a.key) == Trim(a.key) && "" + Trim(b.key) == Trim(b.key);
  }

  ghost predicate NamesRepeat(body: Body, entries: seq<SubmitEntry>) {
    exists i, j | 0 <= i < j < |entries| ::
      ToStore(body, entries[i]) && ToStore(body, entries[j]) && Trim(entries[i].key) == Trim(entries[j].key)
  }

  lemma {:induction false} RowsRepeatWithNames(link: Link, body: Body, entries: seq<SubmitEntry>)
    ensures DistinctNames(Rows(Prefix(link), body, entries)) <==> !NamesRepeat(body, entries)
  {
    if entries != [] {
      var n := |entries| - 1;
      var (earlier, last) := (entries[..n], entries[n]);
      RowsRepeatWithNames(link, body, earlier);
      RowsAreExact(Prefix(link), body, earlier);
      assert entries == earlier + [last];
      var before := Rows(Prefix(link), body, earlier);
      if ToStore(body, last) {
        LastRepeats(body, earlier, last);
        NamedRows(link, body, earlier, last);
        DistinctWithLast(before, (Prefix(link) + Trim(last.key), last.value));
      } else {
        assert Rows(Prefix(link), body, entries) == before;
        assert NamesRepeat(body, entries) ==> NamesRepeat(body, earlier) by {
          if i, j :| 0 <= i < j < |entries| && ToStore(body, entries[i]) && ToStore(body, entries[j])
                     && Trim(entries[i].key) == Trim(entries[j].key) {
            assert earlier[i] == entries[i] && earlier[j] == entries[j];
          }
        }
        assert NamesRepeat(body, earlier) ==> NamesRepeat(body, entries) by { LongerRepeats(body, earlier, last); }
      }
    }
  }

  lemma LongerRepeats(body: Body, earlier: seq<SubmitEntry>, last: SubmitEntry)
    ensures NamesRepeat(body, earlier) ==> NamesRepeat(body, earlier + [last])
  {
    hide ToStore, Trim;
    var longer := earlier + [last];
    if i, j :| 0 <= i < j < |earlier| && ToStore(body, earlier[i]) && ToStore(body, earlier[j])
               && Trim(earlier[i].key) == Trim(earlier[j].key) {
      assert longer[i] == earlier[i] && longer[j] == earlier[j];
    }
  }

  predicate NamedBefore(body: Body, earlier: seq<SubmitEntry>, last: SubmitEntry) {
    exists e | e in earlier :: ToStore(body, e) && Trim(e.key) == Trim(last.key)
  }

  lemma LastRepeats(body: Body, earlier: seq<SubmitEntry>, last: SubmitEntry)
    requires ToStore(body, last)
    ensures NamesRepeat(body, earlier + [last]) <==> NamesRepeat(body, earlier) || NamedBefore(body, earlier, last)
  {
    hide ToStore, Trim;
    var longer := earlier + [last];
    LongerRepeats(body, earlier, last);
    if i, j :| 0 <= i < j < |longer| && ToStore(body, longer[i]) && ToStore(body, longer[j])
               && Trim(longer[i].key) == Trim(longer[j].key) {
      if j < |earlier| {
        assert earlier[i] == longer[i] && earlier[j] == longer[j];
      } else {
        assert longer[i] in earlier && longer[j] == last;
      }
    }
    if e :| e in earlier && ToStore(body, e) && Trim(e.key) == Trim(last.key) {
      var i :| 0 <= i < |earlier| && earlier[i] == e;
      assert longer[i] == e && longer[|earlier|] == last;
    }
  }

  lemma NamedRows(link: Link, body: Body, earlier: seq<SubmitEntry>, last: SubmitEntry)
    ensures NamedBefore(body, earlier, last)
       <==> exists row | row in Rows(Prefix(link), body, earlier) :: row.0 == Prefix(link) + Trim(last.key)
  {
    hide ToStore, Trim, Rows, Prefix;
    StoredRows(link, body, earlier);
    forall e: SubmitEntry
      ensures Prefix(link) + Trim(e.key) == Prefix(link) + Trim(last.key) <==> Trim(e.key) == Trim(last.key) {
      SameNames(link, e, last);
      SameNames(link, last, e);
    }
  }

  /** The rows are those of the entries that are to be stored. */
  lemma StoredRows(link: Link, body: Body, entries: seq<SubmitEntry>)
    ensures forall e | e in entries && ToStore(body, e) ::
              (Prefix(link) + Trim(e.key), e.value) in Rows(Prefix(link), body, entries)
    ensures forall row | row in Rows(Prefix(link), body, entries) ::
              exists e | e in entries :: ToStore(body, e) && row.0 == Prefix(link) + Trim(e.key)
  {
    RowsAreExact(Prefix(link), body, entries);
  }

  lemma DistinctWithLast(rows: seq<(string, string)>, row: (string, string))
    ensures DistinctNames(rows + [row]) <==> DistinctNames(rows) && forall r | r in rows :: r.0 != row.0
  {
    var longer := rows + [row];
    if DistinctNames(longer) {
      forall i, j | 0 <= i < j < |rows| ensures rows[i].0 != rows[j].0 {
        assert longer[i] == rows[i] && longer[j] == rows[j];
      }
      forall r | r in rows ensures r.0 != row.0 {
        var i :| 0 <= i < |rows| && rows[i] == r;
        assert longer[i].0 != longer[|rows|].0;
      }
    }
  }

  /** A submission succeeds exactly for a pending link, if every required key has a nonempty value or a bypass, and
      no two of the entries to be stored have the same name, and no entry of the owner has one of their names. */
  lemma SubmissionSucceedsExactly(s: Store, id: Id, body: Body)
    requires id in s.links
    ensures var link := s.links[id];
            Outcome(s, id, body).Ok? <==>
              && link.status == Pending
              && (link.required.Some? ==> forall key | key in link.required.value ::
                    || (exists e | e in body.entries :: Trim(e.key) == key && e.value != "")
                    || (body.bypasses.Some? && exists b | b in body.bypasses.value :: b.key == key))
              && !NamesRepeat(body, body.entries)
              && (forall e | e in body.entries && ToStore(body, e) :: (StoredName(link, e), link.owner) !in s.kv)
  {
    var link := s.links[id];
    var rows := Rows(Prefix(link), body, body.entries);
    RowsRepeatWithNames(link, body, body.entries);
    StoredRows(link, body, body.entries);
    NamesAreFree(s, link, body);
    CoveredMeans(body, link);
    if link.status == Pending { SucceedsExactlyWhen(s, id, body); }
    hide Rows, DistinctNames, NamesRepeat, InsertAll, Conflicts, Covered;
  }

  lemma CoveredMeans(body: Body, link: Link)
    ensures Covered(body, Required(link)) <==>
              (link.required.Some? ==> forall key | key in link.required.value ::
                 || (exists e | e in body.entries :: Trim(e.key) == key && e.value != "")
                 || (body.bypasses.Some? && exists b | b in body.bypasses.value :: b.key == key))
  {
  }

  lemma NamesAreFree(s: Store, link: Link, body: Body)
    ensures (forall row | row in Rows(Prefix(link), body, body.entries) :: (row.0, link.owner) !in s.kv)
       <==> (forall e | e in body.entries && ToStore(body, e) :: (StoredName(link, e), link.owner) !in s.kv)
  {
    hide Trim, ToStore;
    StoredRows(link, body, body.entries);
    forall e: SubmitEntry ensures StoredName(link, e) == Prefix(link) + Trim(e.key) { SameNames(link, e, e); }
  }

  // ---------------------------------------------------------------- the life of a link

  lemma CreatedLinkIsPending(s: Store, link: Link)
    ensures var t := Step(s, CreateLink(link));
            && s.nextId in t.links && t.links[s.nextId] == Link(link.owner, Pending, link.prefix, link.required)
            && t.kv == s.kv && t.notices == s.notices
  {
  }

  /** A link is fulfilled by its submission, revoked while it is pending and deleted by its owner, and otherwise stays
      as it is. */
  lemma LinkChangesExactly(s: Store, op: Op, id: Id)
    requires id in s.links && id < s.nextId
    ensures var (t, row) := (Step(s, op), s.links[id]);
            && (id !in t.links <==> op == DeleteLink(row.owner, id))
            && (id in t.links ==>
                  t.links[id] == row.(status :=
                    if op.Submit? && op.id == id && Outcome(s, id, op.body).Ok? then Fulfilled
                    else if op == Revoke(row.owner, id) && row.status == Pending then Revoked else row.status))
  {
    hide Outcome, InsertAll, Rows, NoticesFor;
    if op.Submit? { SubmissionIsRecorded(s, op.id, op.body, id); }
  }
}
