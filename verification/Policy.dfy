/** Per-device key policies: validation of an update, the transaction that stores it, the
    decision for one name and the filter for listings. */
module Policy {
  import opened Basics
  import opened Regex
  import opened Text

  const MAX_KEYS: nat := 500
  const MAX_KEY_LEN: nat := 256

  datatype PolicyMode = AllowAll | AllowList | DenyList | ByPattern

  function ParseMode(s: string): Option<PolicyMode> {
    if s == "allow_all" then Some(AllowAll)
    else if s == "allow_list" then Some(AllowList)
    else if s == "deny_list" then Some(DenyList)
    else if s == "regex" then Some(ByPattern)
    else None
  }

  function ModeName(mode: PolicyMode): (s: string)
    ensures ParseMode(s) == Some(mode)
  {
    match mode
    case AllowAll => "allow_all"
    case AllowList => "allow_list"
    case DenyList => "deny_list"
    case ByPattern => "regex"
  }

  /** A row of `device_policies`. */
  datatype PolicyRow = PolicyRow(owner: string, mode: string, pattern: Option<string>)

  /** The table `device_policy_keys`, in row order; its primary key is the whole pair. */
  type KeyTable = seq<(Id, string)>

  datatype LoadedPolicy = LoadedPolicy(mode: PolicyMode, keys: seq<string>, pattern: Option<string>)

  datatype KeyFilter =
    | Everything
    | Filter(mode: PolicyMode, keys: set<string>, re: Option<Re>)
  {
    predicate Allows(name: string) {
      match this
      case Everything => true
      case Filter(mode, keys, re) =>
        match mode
        case AllowAll => true
        case AllowList => name in keys
        case DenyList => name !in keys
        case ByPattern => re.Some? && IsMatch(re.value, name)
    }
  }

  // ---------------------------------------------------------------- decisions

  /** `SELECT kv_key ... WHERE device_id = ?` */
  function KeysOf(table: KeyTable, device: Id): seq<string> {
    if table == [] then []
    else if table[0].0 == device then [table[0].1] + KeysOf(table[1..], device)
    else KeysOf(table[1..], device)
  }

  function LoadPolicy(policies: map<Id, PolicyRow>, table: KeyTable, device: Id): Option<LoadedPolicy> {
    if device !in policies then None
    else
      var row := policies[device];
      var mode := match ParseMode(row.mode) case Some(m) => m case None => AllowList;
      var keys := if mode.AllowList? || mode.DenyList? then KeysOf(table, device) else [];
      Some(LoadedPolicy(mode, keys, row.pattern))
  }

  predicate PolicyAllows(p: LoadedPolicy, name: string) {
    match p.mode
    case AllowAll => true
    case AllowList => name in p.keys
    case DenyList => name !in p.keys
    case ByPattern =>
      p.pattern.Some? && CompilePattern(p.pattern.value).Some?
      && IsMatch(CompilePattern(p.pattern.value).value, name)
  }

  predicate KeyPermitted(policies: map<Id, PolicyRow>, table: KeyTable, device: Id, name: string) {
    var p := LoadPolicy(policies, table, device);
    p.None? || PolicyAllows(p.value, name)
  }

  predicate IsRestricted(policies: map<Id, PolicyRow>, table: KeyTable, device: Id) {
    var p := LoadPolicy(policies, table, device);
    p.Some? && p.value.mode != AllowAll
  }

  function ListingFilter(policies: map<Id, PolicyRow>, table: KeyTable, device: Option<Id>): KeyFilter {
    if device.None? then Everything
    else
      match LoadPolicy(policies, table, device.value)
      case None => Everything
      case Some(p) =>
        if p.mode.AllowAll? then Everything
        else Filter(p.mode, set k | k in p.keys,
                    if p.pattern.None? then None else CompilePattern(p.pattern.value))
  }

  /** A listing shows a device exactly the names it may also read. */
  lemma ListingAgreesWithDecision(policies: map<Id, PolicyRow>, table: KeyTable, device: Id, name: string)
    ensures ListingFilter(policies, table, Some(device)).Allows(name)
        <==> KeyPermitted(policies, table, device, name)
  {
  }

  /** `secret_name_visible`: both the bare name and the stored name must be allowed. */
  predicate SecretNameVisible(visible: KeyFilter, prefix: string, name: string) {
    visible.Allows(name) && visible.Allows(prefix + name)
  }

  /** A restricted device is shown a request's key name only if it may read both names. */
  lemma VisibleSecretNamesAreReadable(policies: map<Id, PolicyRow>, table: KeyTable, device: Id,
                                      prefix: string, name: string)
    ensures SecretNameVisible(ListingFilter(policies, table, Some(device)), prefix, name)
        <==> KeyPermitted(policies, table, device, name) && KeyPermitted(policies, table, device, prefix + name)
  {
    ListingAgreesWithDecision(policies, table, device, name);
    ListingAgreesWithDecision(policies, table, device, prefix + name);
  }

  // ---------------------------------------------------------------- validation

  datatype UpdateRequest = UpdateRequest(mode: string, keys: seq<string>, pattern: Option<string>)

  datatype Normalised = Normalised(mode: PolicyMode, keys: seq<string>, pattern: Option<string>)

  /** The trimmed, nonblank keys, each at its first place. */
  function Distinct(keys: seq<string>): seq<string> {
    if keys == [] then []
    else
      var before := Distinct(keys[..|keys| - 1]);
      var k := Trim(keys[|keys| - 1]);
      if k == [] || k in before then before else before + [k]
  }

  function Validated(body: UpdateRequest): Result<Normalised, AppError> {
    match ParseMode(body.mode)
    case None => Err(BadRequest)
    case Some(AllowAll) => Ok(Normalised(AllowAll, [], None))
    case Some(ByPattern) =>
      if body.pattern.None? || Trim(body.pattern.value) == [] then Err(BadRequest)
      else if CompilePattern(Trim(body.pattern.value)).None? then Err(BadRequest)
      else Ok(Normalised(ByPattern, [], Some(Trim(body.pattern.value))))
    case Some(mode) =>
      if |body.keys| > MAX_KEYS then Err(BadRequest)
      else if exists k | k in body.keys :: |Trim(k)| > MAX_KEY_LEN then Err(BadRequest)
      else if Distinct(body.keys) == [] then Err(BadRequest)
      else Ok(Normalised(mode, Distinct(body.keys), None))
  }

  /** The loop of `validate`: the distinct keys, or an error at the first overlong one. */
  method CollectKeys(submitted: seq<string>) returns (r: Result<seq<string>, AppError>)
    ensures r.Ok? <==> forall k | k in submitted :: |Trim(k)| <= MAX_KEY_LEN
    ensures r == if r.Ok? then Ok(Distinct(submitted)) else Err(BadRequest)
  {
    var keys: seq<string> := [];
    for i := 0 to |submitted|
      invariant keys == Distinct(submitted[..i])
      invariant forall j | 0 <= j < i :: |Trim(submitted[j])| <= MAX_KEY_LEN
    {
      assert submitted[..i + 1][..i] == submitted[..i];
      var k := Trim(submitted[i]);
      if k == [] { continue; }
      if |k| > MAX_KEY_LEN { return Err(BadRequest); }
      if k !in keys { keys := keys + [k]; }
    }
    assert submitted[..|submitted|] == submitted;
    return Ok(keys);
  }

  /** `validate` */
  method Validate(body: UpdateRequest) returns (r: Result<Normalised, AppError>)
    ensures r == Validated(body)
  {
    match ParseMode(body.mode)
    case None => return Err(BadRequest);
    case Some(AllowAll) => return Ok(Normalised(AllowAll, [], None));
    case Some(ByPattern) =>
      if body.pattern.None? { return Err(BadRequest); }
      var pattern := Trim(body.pattern.value);
      if pattern == [] || CompilePattern(pattern).None? { return Err(BadRequest); }
      return Ok(Normalised(ByPattern, [], Some(pattern)));
    case Some(mode) =>
      if |body.keys| > MAX_KEYS { return Err(BadRequest); }
      var keys := CollectKeys(body.keys);
      if keys.Err? { return Err(keys.error); }
      if keys.value == [] { return Err(BadRequest); }
      return Ok(Normalised(mode, keys.value, None));
  }

  ghost predicate NoDuplicates(keys: seq<string>) {
    forall i, j | 0 <= i < j < |keys| :: keys[i] != keys[j]
  }

  /** A name the submitter listed: nonblank, and some submitted key trims to it. */
  predicate Listed(keys: seq<string>, name: string) {
    name != [] && exists k | k in keys :: Trim(k) == name
  }

  lemma {:induction false} DistinctIsExact(keys: seq<string>)
    ensures NoDuplicates(Distinct(keys))
    ensures forall k | k in Distinct(keys) :: k != [] && Trim(k) == k
    ensures forall name :: name in Distinct(keys) <==> Listed(keys, name)
  {
    if keys != [] {
      var n := |keys| - 1;
      DistinctIsExact(keys[..n]);
      TrimIdempotent(keys[n]);
      assert keys == keys[..n] + [keys[n]];
      forall name ensures Listed(keys, name) <==> Listed(keys[..n], name) || (name != [] && Trim(keys[n]) == name)
      {
        if Listed(keys, name) && Trim(keys[n]) != name {
          var k :| k in keys && Trim(k) == name;
          assert k in keys[..n];
        }
        if name != [] && Trim(keys[n]) == name { assert keys[n] in keys; }
      }
    }
  }

  lemma {:induction false} DistinctOfDistinct(keys: seq<string>)
    requires NoDuplicates(keys) && forall k | k in keys :: k != [] && Trim(k) == k
    ensures Distinct(keys) == keys
  {
    if keys != [] {
      var n := |keys| - 1;
      DistinctOfDistinct(keys[..n]);
      assert keys == keys[..n] + [keys[n]];
      assert keys[n] !in keys[..n];
    }
  }

  lemma {:induction false} DistinctIsShort(keys: seq<string>)
    ensures |Distinct(keys)| <= |keys|
  {
    if keys != [] { DistinctIsShort(keys[..|keys| - 1]); }
  }

  /** Saving what was normalised normalises to itself. */
  lemma ValidateIdempotent(body: UpdateRequest)
    requires Validated(body).Ok?
    ensures var n := Validated(body).value;
            Validated(UpdateRequest(ModeName(n.mode), n.keys, n.pattern)) == Ok(n)
  {
    var n := Validated(body).value;
    if n.pattern.Some? { TrimIdempotent(body.pattern.value); }
    DistinctIsExact(body.keys);
    DistinctOfDistinct(Distinct(body.keys));
    DistinctIsShort(body.keys);
    forall k | k in n.keys ensures |Trim(k)| <= MAX_KEY_LEN {
      assert Listed(body.keys, k);
      var original :| original in body.keys && Trim(original) == k;
    }
  }

  // ---------------------------------------------------------------- storing

  function WithoutDevice(table: KeyTable, device: Id): KeyTable {
    if table == [] then []
    else if table[0].0 == device then WithoutDevice(table[1..], device)
    else [table[0]] + WithoutDevice(table[1..], device)
  }

  function KeyRows(device: Id, keys: seq<string>): KeyTable {
    seq(|keys|, i requires 0 <= i < |keys| => (device, keys[i]))
  }

  lemma {:induction false} WithoutDeviceRows(table: KeyTable, device: Id)
    ensures forall row :: row in WithoutDevice(table, device) <==> row in table && row.0 != device
    ensures KeysOf(WithoutDevice(table, device), device) == []
    ensures forall d | d != device :: KeysOf(WithoutDevice(table, device), d) == KeysOf(table, d)
  {
    if table != [] {
      WithoutDeviceRows(table[1..], device);
      assert table == [table[0]] + table[1..];
      if table[0].0 != device {
        var w := WithoutDevice(table, device);
        assert w[1..] == WithoutDevice(table[1..], device);
      }
    }
  }

  lemma {:induction false} KeysOfAppend(a: KeyTable, b: KeyTable, device: Id)
    ensures KeysOf(a + b, device) == KeysOf(a, device) + KeysOf(b, device)
  {
    if a == [] {
      assert a + b == b;
    } else {
      KeysOfAppend(a[1..], b, device);
      assert (a + b)[1..] == a[1..] + b;
    }
  }

  lemma {:induction false} KeysOfKeyRows(device: Id, keys: seq<string>)
    ensures KeysOf(KeyRows(device, keys), device) == keys
    ensures forall d | d != device :: KeysOf(KeyRows(device, keys), d) == []
  {
    if keys != [] {
      assert KeyRows(device, keys)[1..] == KeyRows(device, keys[1..]);
      KeysOfKeyRows(device, keys[1..]);
    }
  }

  /** The inserts of `update`, one row at a time; inserting an existing row would violate the
      primary key. */
  method InsertKeys(table: KeyTable, device: Id, keys: seq<string>) returns (r: Option<KeyTable>)
    requires forall k | k in keys :: (device, k) !in table
    ensures r == if NoDuplicates(keys) then Some(table + KeyRows(device, keys)) else None
  {
    var rows := table;
    for i := 0 to |keys|
      invariant rows == table + KeyRows(device, keys[..i])
      invariant NoDuplicates(keys[..i])
    {
      if (device, keys[i]) in rows {
        var j :| 0 <= j < i && KeyRows(device, keys[..i])[j] == (device, keys[i]);
        return None;
      }
      forall j | 0 <= j < i ensures keys[j] != keys[i] {
        assert KeyRows(device, keys[..i])[j] in rows;
      }
      assert forall j, k | 0 <= j < k < i + 1 :: k < i ==> keys[..i][j] != keys[..i][k];
      assert NoDuplicates(keys[..i + 1]);
      rows := rows + [(device, keys[i])];
      assert KeyRows(device, keys[..i + 1]) == KeyRows(device, keys[..i]) + [(device, keys[i])];
    }
    assert keys[..|keys|] == keys;
    return Some(rows);
  }

  function UpdateOutcome(devices: map<Id, string>, caller: Claims, device: Id, body: UpdateRequest)
    : Result<(), AppError>
  {
    if caller.device.Some? then Err(Forbidden)
    else if device !in devices || devices[device] != caller.owner then Err(NotFound)
    else if Validated(body).Err? then Err(Validated(body).error)
    else Ok(())
  }

  function SavedPolicies(policies: map<Id, PolicyRow>, owner: string, device: Id, n: Normalised)
    : map<Id, PolicyRow>
  {
    policies[device := PolicyRow(owner, ModeName(n.mode), n.pattern)]
  }

  function SavedKeys(table: KeyTable, device: Id, n: Normalised): KeyTable {
    WithoutDevice(table, device) + KeyRows(device, n.keys)
  }

  lemma NormalisedKeysDistinct(body: UpdateRequest)
    requires Validated(body).Ok?
    ensures NoDuplicates(Validated(body).value.keys)
  {
    DistinctIsExact(body.keys);
  }

  /** What the submitter of a policy asked for, name by name. */
  predicate Meant(body: UpdateRequest, name: string) {
    match ParseMode(body.mode)
    case Some(AllowAll) => true
    case Some(AllowList) => Listed(body.keys, name)
    case Some(DenyList) => !Listed(body.keys, name)
    case Some(ByPattern) =>
      body.pattern.Some? && ParsePattern(Trim(body.pattern.value)).Some?
      && MatchesAt(ParsePattern(Trim(body.pattern.value)).value, name, 0, |name|)
    case None => false
  }

  /** A save is read back as it was normalised, and no other device's policy moves. */
  lemma SavedPolicyIsLoaded(policies: map<Id, PolicyRow>, table: KeyTable, owner: string,
                            device: Id, n: Normalised, other: Id)
    requires other != device && (n.keys == [] || n.mode.AllowList? || n.mode.DenyList?)
    ensures LoadPolicy(SavedPolicies(policies, owner, device, n), SavedKeys(table, device, n), device)
         == Some(LoadedPolicy(n.mode, n.keys, n.pattern))
    ensures LoadPolicy(SavedPolicies(policies, owner, device, n), SavedKeys(table, device, n), other)
         == LoadPolicy(policies, table, other)
  {
    WithoutDeviceRows(table, device);
    KeysOfKeyRows(device, n.keys);
    KeysOfAppend(WithoutDevice(table, device), KeyRows(device, n.keys), device);
    KeysOfAppend(WithoutDevice(table, device), KeyRows(device, n.keys), other);
    assert KeysOf(SavedKeys(table, device, n), device) == n.keys;
    assert KeysOf(SavedKeys(table, device, n), other) == KeysOf(table, other) + [];
    assert KeysOf(SavedKeys(table, device, n), other) == KeysOf(table, other);
    if other in policies {
      assert SavedPolicies(policies, owner, device, n)[other] == policies[other];
    }
    assert ParseMode(ModeName(n.mode)) == Some(n.mode);
  }

  lemma NormalisedMeansRequest(body: UpdateRequest, name: string)
    requires Validated(body).Ok?
    ensures var n := Validated(body).value;
            PolicyAllows(LoadedPolicy(n.mode, n.keys, n.pattern), name) <==> Meant(body, name)
  {
    var n := Validated(body).value;
    match n.mode
    case AllowAll =>
    case ByPattern =>
      CompilesExactlyWhen(n.pattern.value);
      CompiledAcceptsWholeNames(n.pattern.value, name);
    case _ => DistinctIsExact(body.keys);
  }

  /** After a save every name is decided as the submitted request meant it, by the access check
      and by the listing filter, and every other device's decisions are what they were. */
  lemma SavedPolicyMeansRequest(policies: map<Id, PolicyRow>, table: KeyTable, owner: string,
                                device: Id, body: UpdateRequest, name: string, other: Id)
    requires Validated(body).Ok? && other != device
    ensures var n := Validated(body).value;
            var policies' := SavedPolicies(policies, owner, device, n);
            var table' := SavedKeys(table, device, n);
            && (KeyPermitted(policies', table', device, name) <==> Meant(body, name))
            && (ListingFilter(policies', table', Some(device)).Allows(name) <==> Meant(body, name))
            && (KeyPermitted(policies', table', other, name) <==> KeyPermitted(policies, table, other, name))
  {
    var n := Validated(body).value;
    SavedPolicyIsLoaded(policies, table, owner, device, n, other);
    NormalisedMeansRequest(body, name);
    ListingAgreesWithDecision(SavedPolicies(policies, owner, device, n), SavedKeys(table, device, n), device, name);
  }
}
