// The write-through connection registry of connections/manager.py. Profiles
// are cached in memory and, in a durable manager, mirrored in a table.
module ConnectionManager {
  import opened Foundation
  import opened ConnectionModels
  import opened ConnectionProfiles

  // The guarded state. No table means a manager without a database.
  datatype Store = Store(profiles: map<Id, Profile>, table: Option<map<Id, Row>>, closed: bool)

  datatype ManagerError = StoreClosed | UnsupportedReference | AlreadyExists | NotFound | DatabaseFailed

  datatype Scope = Scope(businessId: Option<Id>, projectId: Option<Id>, brandId: Option<Id>)

  datatype AccessError = Closed | NotRegistered | Disabled | ScopeDenied

  // ----- One lock region at a time -----

  // Persist, then cache. `committed` says whether the row was written: a
  // profile that cannot be serialised never is, nor is one on a closed database.
  ghost function Write(s: Store, p: Profile, committed: bool, repr: Value -> string): Store
    requires committed ==> Encode(p, repr).Some?
  {
    match s.table
    case None => s.(profiles := s.profiles[p.connectionId := p])
    case Some(table) =>
      if !committed || s.closed then s
      else s.(profiles := s.profiles[p.connectionId := p],
              table := Some(table[p.connectionId := Encode(p, repr).value]))
  }

  // The registering region: a profile already there stays unless it is to be replaced.
  ghost function Registered(s: Store, p: Profile, replace: bool, committed: bool, repr: Value -> string): Store
    requires committed ==> Encode(p, repr).Some?
  {
    if p.connectionId in s.profiles && !replace then s else Write(s, p, committed, repr)
  }

  // The deleting region: the row goes, then the cached profile if still there.
  function Deleted(s: Store, id: Id, committed: bool): Store {
    match s.table
    case None => s.(profiles := s.profiles - {id})
    case Some(table) =>
      if !committed || s.closed then s else s.(profiles := s.profiles - {id}, table := Some(table - {id}))
  }

  // One cached profile: valid, under its own id, resolvable, and mirrored by
  // its row if there is a table.
  ghost predicate Good(s: Store, id: Id, canResolve: string -> bool, repr: Value -> string) {
    id in s.profiles &&
    var p := s.profiles[id];
    && ValidProfile(p) && p.connectionId == id && canResolve(p.secretRef)
    && (s.table.Some? ==> id in s.table.value && Encode(p, repr) == Some(s.table.value[id]))
  }

  // What every reachable store satisfies.
  ghost predicate Agrees(s: Store, canResolve: string -> bool, repr: Value -> string) {
    && (s.table.Some? ==> s.table.value.Keys == s.profiles.Keys)
    && forall id {:trigger Good(s, id, canResolve, repr)} :: id in s.profiles ==> Good(s, id, canResolve, repr)
  }

  lemma WriteAgrees(s: Store, p: Profile, committed: bool, canResolve: string -> bool, repr: Value -> string)
    requires Agrees(s, canResolve, repr) && ValidProfile(p) && canResolve(p.secretRef)
    requires committed ==> Encode(p, repr).Some?
    ensures Agrees(Write(s, p, committed, repr), canResolve, repr)
  {
    var t := Write(s, p, committed, repr);
    forall id {:trigger Good(t, id, canResolve, repr)} | id in t.profiles ensures Good(t, id, canResolve, repr) {
      if id in s.profiles { assert Good(s, id, canResolve, repr); }
    }
  }

  lemma RegisteredAgrees(s: Store, p: Profile, replace: bool, committed: bool, canResolve: string -> bool,
                         repr: Value -> string)
    requires Agrees(s, canResolve, repr) && ValidProfile(p)
    requires committed ==> Encode(p, repr).Some?
    ensures canResolve(p.secretRef) ==> Agrees(Registered(s, p, replace, committed, repr), canResolve, repr)
  {
    if canResolve(p.secretRef) { WriteAgrees(s, p, committed, canResolve, repr); }
  }

  lemma DeleteAgrees(s: Store, id: Id, committed: bool, canResolve: string -> bool, repr: Value -> string)
    requires Agrees(s, canResolve, repr)
    ensures Agrees(Deleted(s, id, committed), canResolve, repr)
  {
    var t := Deleted(s, id, committed);
    forall k {:trigger Good(t, k, canResolve, repr)} | k in t.profiles ensures Good(t, k, canResolve, repr) {
      assert Good(s, k, canResolve, repr);
    }
  }

  lemma CloseAgrees(s: Store, canResolve: string -> bool, repr: Value -> string)
    requires Agrees(s, canResolve, repr)
    ensures Agrees(s.(closed := true), canResolve, repr)
  {
    var t := s.(closed := true);
    forall k {:trigger Good(t, k, canResolve, repr)} | k in t.profiles ensures Good(t, k, canResolve, repr) {
      assert Good(s, k, canResolve, repr);
    }
  }

  // ----- The manager -----

  class ConnectionManager {
    const canResolve: string -> bool
    const durable: bool
    ghost const repr: Value -> string
    var profiles: map<Id, Profile>
    var closed: bool
    ghost var table: map<Id, Row>

    ghost function View(): Store
      reads this
    {
      Store(profiles, if durable then Some(table) else None, closed)
    }

    ghost predicate Valid()
      reads this
    {
      Agrees(View(), canResolve, repr)
    }

    constructor (canResolve: string -> bool, durable: bool, loaded: map<Id, Profile>,
                 ghost repr: Value -> string, ghost table: map<Id, Row>)
      ensures View() == Store(loaded, if durable then Some(table) else None, false)
      ensures this.canResolve == canResolve && this.repr == repr && this.durable == durable
    {
      this.canResolve, this.durable, this.repr := canResolve, durable, repr;
      this.profiles, this.closed, this.table := loaded, false, table;
    }

    // A manager without a database, or on the rows of its table. On a table
    // that any manager left behind, an empty one included, opening succeeds and
    // cache and table agree.
    static method Open(canResolve: string -> bool, rows: Option<seq<Stored>>, ghost repr: Value -> string,
                       ghost table: map<Id, Row>)
      returns (r: Result<ConnectionManager, StoreError>)
      requires rows.Some? ==> RowsOf(rows.value, table)
      ensures r.Err? <==> rows.Some? && Load(rows.value, canResolve).Err?
      ensures r.Err? ==> r.error == Load(rows.value, canResolve).error
      ensures r.Ok? ==> fresh(r.value) && r.value.canResolve == canResolve && r.value.repr == repr
      ensures r.Ok? && rows.None? ==> r.value.View() == Store(map[], None, false)
      ensures r.Ok? && rows.Some? ==> r.value.View() == Store(Load(rows.value, canResolve).value, Some(table), false)
      ensures rows.None? || LeftBehind(table, canResolve, repr) ==> r.Ok? && r.value.Valid()
    {
      if rows.None? {
        var empty := new ConnectionManager(canResolve, false, map[], repr, map[]);
        return Ok(empty);
      }
      var loaded := LoadProfiles(rows.value, canResolve);
      if LeftBehind(table, canResolve, repr) { OpensAgreeing(rows.value, table, canResolve, repr); }
      if loaded.Err? { return Err(loaded.error); }
      var manager := new ConnectionManager(canResolve, true, loaded.value, repr, table);
      r := Ok(manager);
    }

    method Register(p: Profile, replace: bool, committed: bool) returns (r: Result<Profile, ManagerError>)
      requires Valid() && ValidProfile(p) && (committed ==> Encode(p, repr).Some?)
      modifies this
      ensures Valid()
      ensures View() == if old(closed) || !canResolve(p.secretRef) then old(View())
                        else Registered(old(View()), p, replace, committed, repr)
      ensures r == if old(closed) then Err(StoreClosed)
                   else if !canResolve(p.secretRef) then Err(UnsupportedReference)
                   else if p.connectionId in old(profiles) && !replace then Err(AlreadyExists)
                   else if durable && !committed then Err(DatabaseFailed)
                   else Ok(p)
    {
      RegisteredAgrees(View(), p, replace, committed, canResolve, repr);
      if closed { return Err(StoreClosed); }
      if !canResolve(p.secretRef) { return Err(UnsupportedReference); }
      if p.connectionId in profiles && !replace { return Err(AlreadyExists); }
      if durable {
        if !committed { return Err(DatabaseFailed); }
        table := table[p.connectionId := Encode(p, repr).value];
      }
      profiles := profiles[p.connectionId := p];
      r := Ok(p);
    }

    // What is returned is valid, has that id, and is what the table holds for it.
    method Get(id: Id) returns (r: Result<Profile, ManagerError>)
      requires Valid()
      ensures r.Ok? <==> !closed && id in profiles
      ensures r.Err? ==> r.error == if closed then StoreClosed else NotFound
      ensures r.Ok? ==>
        && r.value == profiles[id] && r.value.connectionId == id
        && ValidProfile(r.value) && canResolve(r.value.secretRef)
        && (durable ==> id in table && Encode(r.value, repr) == Some(table[id]))
    {
      if closed { return Err(StoreClosed); }
      if id !in profiles { return Err(NotFound); }
      assert Good(View(), id, canResolve, repr);
      r := Ok(profiles[id]);
    }

    // enable and disable. Nothing changes but the flag of that one profile.
    method SetEnabled(id: Id, enabled: bool, committed: bool) returns (r: Result<Profile, ManagerError>)
      requires Valid()
      requires committed && id in profiles ==> Encode(profiles[id].(enabled := enabled), repr).Some?
      modifies this
      ensures Valid()
      ensures r == if old(closed) then Err(StoreClosed)
                   else if id !in old(profiles) then Err(NotFound)
                   else if durable && !committed then Err(DatabaseFailed)
                   else Ok(old(profiles)[id].(enabled := enabled))
      ensures View() == if r.Ok? then Write(old(View()), r.value, committed, repr) else old(View())
      ensures r.Ok? ==> profiles == old(profiles)[id := old(profiles)[id].(enabled := enabled)]
    {
      var found := Get(id);
      if found.Err? { return found; }
      assert Good(View(), id, canResolve, repr);
      ConstructorIsStable(found.value, enabled);
      WriteAgrees(View(), found.value.(enabled := enabled), committed, canResolve, repr);
      var updated := NewProfile(found.value.(enabled := enabled)).value;
      if durable {
        if !committed { return Err(DatabaseFailed); }
        table := table[id := Encode(updated, repr).value];
      }
      profiles := profiles[id := updated];
      r := Ok(updated);
    }

    method Remove(id: Id, committed: bool) returns (r: Result<Profile, ManagerError>)
      requires Valid()
      modifies this
      ensures Valid()
      ensures r == if old(closed) then Err(StoreClosed)
                   else if id !in old(profiles) then Err(NotFound)
                   else if durable && !committed then Err(DatabaseFailed)
                   else Ok(old(profiles)[id])
      ensures View() == if r.Ok? then Deleted(old(View()), id, committed) else old(View())
    {
      r := Get(id);
      if r.Err? { return; }
      DeleteAgrees(View(), id, committed, canResolve, repr);
      if durable {
        if !committed { return Err(DatabaseFailed); }
        table := table - {id};
      }
      profiles := profiles - {id};
    }

    method Close()
      requires Valid()
      modifies this
      ensures Valid() && View() == old(View()).(closed := true)
    {
      CloseAgrees(View(), canResolve, repr);
      closed := true;
    }

    // Authorized is exactly: open, registered, enabled and in scope.
    method AuthorizeProfile(id: Id, scope: Scope) returns (r: Result<Profile, AccessError>)
      requires Valid()
      ensures r.Ok? <==> !closed && id in profiles && profiles[id].enabled && Admits(profiles[id], scope)
      ensures r.Ok? ==> r.value == profiles[id] && r.value.connectionId == id && canResolve(r.value.secretRef)
      ensures r == Authorize(profiles, closed, id, scope)
    {
      var found := Get(id);
      if found.Err? { return Err(if found.error == StoreClosed then Closed else NotRegistered); }
      if !found.value.enabled { return Err(Disabled); }
      var allowed := EnforceScope(found.value, scope);
      if !allowed { return Err(ScopeDenied); }
      r := Ok(found.value);
    }
  }

  // Every scope the profile names is the one requested.
  predicate InScope(p: Profile, scope: Scope) {
    && (p.businessId.Some? ==> scope.businessId == p.businessId)
    && (|p.projectIds| > 0 ==> scope.projectId.Some? && scope.projectId.value in p.projectIds)
    && (|p.brandIds| > 0 ==> scope.brandId.Some? && scope.brandId.value in p.brandIds)
  }

  // A business account serves its own business only, and one limited to
  // projects or brands serves a request that names one of them.
  predicate Admits(p: Profile, scope: Scope) {
    && (p.businessId.None? || p.businessId == scope.businessId)
    && (p.projectIds == [] || exists x :: x in p.projectIds && scope.projectId == Some(x))
    && (p.brandIds == [] || exists x :: x in p.brandIds && scope.brandId == Some(x))
  }

  lemma AdmitsIff(p: Profile, scope: Scope)
    ensures InScope(p, scope) <==> Admits(p, scope)
  {
  }

  method EnforceScope(p: Profile, scope: Scope) returns (allowed: bool)
    ensures allowed <==> InScope(p, scope)
    ensures allowed <==> Admits(p, scope)
  {
    AdmitsIff(p, scope);
    if p.businessId.Some? && scope.businessId != p.businessId { return false; }
    if |p.projectIds| > 0 && !(scope.projectId.Some? && scope.projectId.value in p.projectIds) { return false; }
    if |p.brandIds| > 0 && !(scope.brandId.Some? && scope.brandId.value in p.brandIds) { return false; }
    allowed := true;
  }

  function Authorize(profiles: map<Id, Profile>, closed: bool, id: Id, scope: Scope): Result<Profile, AccessError> {
    if closed then Err(Closed)
    else if id !in profiles then Err(NotRegistered)
    else if !profiles[id].enabled then Err(Disabled)
    else if !InScope(profiles[id], scope) then Err(ScopeDenied)
    else Ok(profiles[id])
  }

  // ----- Loading the table -----

  datatype Stored = Stored(id: Id, row: Row)

  function Load(rows: seq<Stored>, canResolve: string -> bool): Result<map<Id, Profile>, StoreError> {
    if |rows| == 0 then Ok(map[])
    else
      var last := rows[|rows| - 1];
      match Load(rows[..|rows| - 1], canResolve)
      case Err(e) => Err(e)
      case Ok(before) =>
        match Decode(last.id, last.row)
        case Err(e) => Err(e)
        case Ok(p) =>
          if canResolve(p.secretRef) then Ok(before[p.connectionId := p]) else Err(SecretReferenceUnsupported)
  }

  // What stops the loading at a row.
  predicate Fails(stored: Stored, canResolve: string -> bool, e: StoreError) {
    match Decode(stored.id, stored.row)
    case Err(error) => e == error
    case Ok(p) => e == SecretReferenceUnsupported && !canResolve(p.secretRef)
  }

  predicate Loads(stored: Stored, canResolve: string -> bool) {
    Decode(stored.id, stored.row).Ok? && canResolve(Decode(stored.id, stored.row).value.secretRef)
  }

  // The k-th row is the first that does not load, and that is why.
  predicate FailsAt(rows: seq<Stored>, canResolve: string -> bool, k: nat, e: StoreError)
    requires k < |rows|
  {
    (forall i :: 0 <= i < k ==> Loads(rows[i], canResolve)) && Fails(rows[k], canResolve, e)
  }

  ghost predicate SomeFails(rows: seq<Stored>, canResolve: string -> bool, e: StoreError) {
    exists k :: 0 <= k < |rows| && FailsAt(rows, canResolve, k, e)
  }

  predicate AllLoad(rows: seq<Stored>, canResolve: string -> bool) {
    forall i :: 0 <= i < |rows| ==> Loads(rows[i], canResolve)
  }

  lemma LoadLast(rows: seq<Stored>, canResolve: string -> bool)
    requires |rows| > 0 && AllLoad(rows[..|rows| - 1], canResolve)
    ensures AllLoad(rows, canResolve) <==> Loads(rows[|rows| - 1], canResolve)
    ensures forall e :: Fails(rows[|rows| - 1], canResolve, e) ==> SomeFails(rows, canResolve, e)
  {
    var n := |rows| - 1;
    assert forall i :: 0 <= i < n ==> rows[..n][i] == rows[i];
    forall e | Fails(rows[n], canResolve, e) ensures SomeFails(rows, canResolve, e) {
      assert FailsAt(rows, canResolve, n, e);
    }
  }

  lemma FailureStays(rows: seq<Stored>, canResolve: string -> bool, e: StoreError)
    requires |rows| > 0 && SomeFails(rows[..|rows| - 1], canResolve, e)
    ensures SomeFails(rows, canResolve, e) && !AllLoad(rows, canResolve)
  {
    var n := |rows| - 1;
    var k :| 0 <= k < n && FailsAt(rows[..n], canResolve, k, e);
    assert forall i :: 0 <= i <= k ==> rows[..n][i] == rows[i];
    assert FailsAt(rows, canResolve, k, e) && !Loads(rows[k], canResolve);
  }

  lemma {:induction false} LoadMeans(rows: seq<Stored>, canResolve: string -> bool)
    ensures Load(rows, canResolve).Ok? <==> AllLoad(rows, canResolve)
    ensures Load(rows, canResolve).Err? ==> SomeFails(rows, canResolve, Load(rows, canResolve).error)
  {
    if |rows| > 0 {
      var n := |rows| - 1;
      LoadMeans(rows[..n], canResolve);
      if Load(rows[..n], canResolve).Err? {
        FailureStays(rows, canResolve, Load(rows[..n], canResolve).error);
      } else {
        LoadLast(rows, canResolve);
      }
    }
  }

  method LoadProfiles(rows: seq<Stored>, canResolve: string -> bool) returns (r: Result<map<Id, Profile>, StoreError>)
    ensures r == Load(rows, canResolve)
    ensures r.Ok? <==> AllLoad(rows, canResolve)
    ensures r.Err? ==> SomeFails(rows, canResolve, r.error)
  {
    LoadMeans(rows, canResolve);
    var profiles: map<Id, Profile> := map[];
    var i := 0;
    while i < |rows|
      invariant 0 <= i <= |rows|
      invariant Load(rows[..i], canResolve) == Ok(profiles)
    {
      assert rows[..i + 1][..i] == rows[..i];
      LoadPrefix(rows, canResolve, i + 1);
      var decoded := Decode(rows[i].id, rows[i].row);
      if decoded.Err? { return Err(decoded.error); }
      if !canResolve(decoded.value.secretRef) { return Err(SecretReferenceUnsupported); }
      profiles := profiles[decoded.value.connectionId := decoded.value];
      i := i + 1;
    }
    assert rows[..|rows|] == rows;
    r := Ok(profiles);
  }

  lemma {:induction false} LoadPrefix(rows: seq<Stored>, canResolve: string -> bool, k: nat)
    requires k <= |rows|
    ensures Load(rows[..k], canResolve).Err? ==> Load(rows, canResolve) == Load(rows[..k], canResolve)
  {
    if k < |rows| {
      assert rows[..|rows| - 1][..k] == rows[..k];
      LoadPrefix(rows[..|rows| - 1], canResolve, k);
    } else {
      assert rows[..k] == rows;
    }
  }

  // The rows come in any order, one for each key of the table.
  predicate RowsOf(rows: seq<Stored>, table: map<Id, Row>) {
    RowsIn(rows, table) && RowIds(rows) == table.Keys
  }

  // ----- Every run of lock regions, from any number of threads -----

  // A region gets the profile its thread checked, or read and updated, before
  // it took the lock; that profile may be out of date and the manager closed
  // by then. A call refused before its region is no operation.
  datatype Op =
    | Register(profile: Profile, replace: bool, committed: bool)
    | Update(profile: Profile, committed: bool)
    | Delete(id: Id, committed: bool)
    | Shut

  ghost predicate Possible(op: Op, canResolve: string -> bool, repr: Value -> string) {
    match op
    case Register(p, _, committed) =>
      ValidProfile(p) && canResolve(p.secretRef) && (committed ==> Encode(p, repr).Some?)
    case Update(p, committed) => ValidProfile(p) && canResolve(p.secretRef) && (committed ==> Encode(p, repr).Some?)
    case _ => true
  }

  ghost function Apply(s: Store, op: Op, canResolve: string -> bool, repr: Value -> string): Store
    requires Possible(op, canResolve, repr)
  {
    match op
    case Register(p, replace, committed) => Registered(s, p, replace, committed, repr)
    case Update(p, committed) => Write(s, p, committed, repr)
    case Delete(id, committed) => Deleted(s, id, committed)
    case Shut => s.(closed := true)
  }

  ghost predicate AllPossible(ops: seq<Op>, canResolve: string -> bool, repr: Value -> string) {
    forall i :: 0 <= i < |ops| ==> Possible(ops[i], canResolve, repr)
  }

  ghost function Run(s: Store, ops: seq<Op>, canResolve: string -> bool, repr: Value -> string): Store
    requires AllPossible(ops, canResolve, repr)
  {
    if |ops| == 0 then s
    else Apply(Run(s, ops[..|ops| - 1], canResolve, repr), ops[|ops| - 1], canResolve, repr)
  }

  lemma StepAgrees(s: Store, op: Op, canResolve: string -> bool, repr: Value -> string)
    requires Agrees(s, canResolve, repr) && Possible(op, canResolve, repr)
    ensures Agrees(Apply(s, op, canResolve, repr), canResolve, repr)
  {
    match op {
      case Register(p, replace, committed) => RegisteredAgrees(s, p, replace, committed, canResolve, repr);
      case Update(p, committed) => WriteAgrees(s, p, committed, canResolve, repr);
      case Delete(id, committed) => DeleteAgrees(s, id, committed, canResolve, repr);
      case Shut => CloseAgrees(s, canResolve, repr);
    }
  }

  // After every sequence of operations, failed writes included, the cache and
  // the table agree.
  lemma {:induction false} EveryRunAgrees(s: Store, ops: seq<Op>, canResolve: string -> bool, repr: Value -> string)
    requires Agrees(s, canResolve, repr) && AllPossible(ops, canResolve, repr)
    ensures Agrees(Run(s, ops, canResolve, repr), canResolve, repr)
  {
    if |ops| > 0 {
      EveryRunAgrees(s, ops[..|ops| - 1], canResolve, repr);
      StepAgrees(Run(s, ops[..|ops| - 1], canResolve, repr), ops[|ops| - 1], canResolve, repr);
    }
  }

  predicate RowsIn(rows: seq<Stored>, table: map<Id, Row>) {
    forall i :: 0 <= i < |rows| ==> rows[i].id in table && table[rows[i].id] == rows[i].row
  }

  function RowIds(rows: seq<Stored>): set<Id> {
    if |rows| == 0 then {} else RowIds(rows[..|rows| - 1]) + {rows[|rows| - 1].id}
  }

  // One loaded entry stands for the cached profile of that id.
  ghost predicate Comes(s: Store, loaded: map<Id, Profile>, id: Id, repr: Value -> string) {
    id in loaded && id in s.profiles && Reloaded(s.profiles[id], loaded[id], repr)
  }

  lemma DecodeGood(s: Store, id: Id, canResolve: string -> bool, repr: Value -> string)
    requires Good(s, id, canResolve, repr) && s.table.Some?
    ensures var q := Decode(id, s.table.value[id]);
      q.Ok? && q.value.connectionId == id && canResolve(q.value.secretRef) && Reloaded(s.profiles[id], q.value, repr)
  {
    DecodeInvertsEncode(s.profiles[id], repr);
  }

  ghost predicate AllCome(s: Store, loaded: map<Id, Profile>, repr: Value -> string) {
    forall id {:trigger Comes(s, loaded, id, repr)} :: id in loaded ==> Comes(s, loaded, id, repr)
  }

  lemma AllComeStep(s: Store, loaded: map<Id, Profile>, k: Id, q: Profile, repr: Value -> string)
    requires AllCome(s, loaded, repr) && k in s.profiles && Reloaded(s.profiles[k], q, repr)
    ensures AllCome(s, loaded[k := q], repr)
  {
    var all := loaded[k := q];
    forall id {:trigger Comes(s, all, id, repr)} | id in all ensures Comes(s, all, id, repr) {
      if id != k { assert Comes(s, loaded, id, repr); }
    }
  }

  lemma {:induction false} LoadAgrees(s: Store, rows: seq<Stored>, canResolve: string -> bool, repr: Value -> string)
    requires Agrees(s, canResolve, repr) && s.table.Some? && RowsIn(rows, s.table.value)
    ensures Load(rows, canResolve).Ok? && Load(rows, canResolve).value.Keys == RowIds(rows)
    ensures AllCome(s, Load(rows, canResolve).value, repr)
  {
    if |rows| > 0 {
      var n := |rows| - 1;
      var k := rows[n].id;
      LoadAgrees(s, rows[..n], canResolve, repr);
      assert Good(s, k, canResolve, repr);
      DecodeGood(s, k, canResolve, repr);
      AllComeStep(s, Load(rows[..n], canResolve).value, k, Decode(k, rows[n].row).value, repr);
    }
  }

  // Same safe dictionary, and the same profile exactly when it holds no set.
  ghost predicate Reloaded(p: Profile, q: Profile, repr: Value -> string) {
    ValidProfile(q) && ToSafeDict(q, repr) == ToSafeDict(p, repr) && (q == p <==> NoGroups(p.metadata))
  }

  // Reopening on the table of any run succeeds and shows the same profiles.
  lemma ReopenSucceeds(s: Store, ops: seq<Op>, rows: seq<Stored>, canResolve: string -> bool, repr: Value -> string)
    requires Agrees(s, canResolve, repr) && s.table.Some? && AllPossible(ops, canResolve, repr)
    requires Run(s, ops, canResolve, repr).table.Some?
    requires RowsOf(rows, Run(s, ops, canResolve, repr).table.value)
    ensures Load(rows, canResolve).Ok?
    ensures Load(rows, canResolve).value.Keys == Run(s, ops, canResolve, repr).profiles.Keys
    ensures AllCome(Run(s, ops, canResolve, repr), Load(rows, canResolve).value, repr)
  {
    EveryRunAgrees(s, ops, canResolve, repr);
    LoadAgrees(Run(s, ops, canResolve, repr), rows, canResolve, repr);
  }

  lemma ReloadedIsGood(s: Store, loaded: map<Id, Profile>, id: Id, canResolve: string -> bool, repr: Value -> string)
    requires Good(s, id, canResolve, repr) && Comes(s, loaded, id, repr)
    ensures Good(Store(loaded, s.table, false), id, canResolve, repr)
  {
    assert ToSafeDict(loaded[id], repr).metadata == Thaw(loaded[id].metadata, repr);
  }

  // The reopened manager agrees with the same table, so the guarantee spans
  // any number of process lifetimes.
  lemma ReopenedAgrees(s: Store, rows: seq<Stored>, canResolve: string -> bool, repr: Value -> string)
    requires Agrees(s, canResolve, repr) && s.table.Some? && RowsOf(rows, s.table.value)
    ensures Load(rows, canResolve).Ok?
    ensures Agrees(Store(Load(rows, canResolve).value, s.table, false), canResolve, repr)
  {
    LoadAgrees(s, rows, canResolve, repr);
    var loaded := Load(rows, canResolve).value;
    var t := Store(loaded, s.table, false);
    forall id {:trigger Good(t, id, canResolve, repr)} | id in loaded ensures Good(t, id, canResolve, repr) {
      assert Comes(s, loaded, id, repr) && Good(s, id, canResolve, repr);
      ReloadedIsGood(s, loaded, id, canResolve, repr);
    }
  }

  // A table that a manager agreed with.
  ghost predicate LeftBehind(table: map<Id, Row>, canResolve: string -> bool, repr: Value -> string) {
    exists profiles: map<Id, Profile> :: Agrees(Store(profiles, Some(table), false), canResolve, repr)
  }

  // The starting points: the empty cache agrees with no table and with the empty one.
  lemma EmptyAgrees(canResolve: string -> bool, repr: Value -> string)
    ensures Agrees(Store(map[], None, false), canResolve, repr)
    ensures Agrees(Store(map[], Some(map[]), false), canResolve, repr) && LeftBehind(map[], canResolve, repr)
  {
    var none: map<Id, Profile> := map[];
    assert Agrees(Store(none, Some(map[]), false), canResolve, repr);
  }

  lemma OpensAgreeing(rows: seq<Stored>, table: map<Id, Row>, canResolve: string -> bool, repr: Value -> string)
    requires LeftBehind(table, canResolve, repr) && RowsOf(rows, table)
    ensures Load(rows, canResolve).Ok?
    ensures Agrees(Store(Load(rows, canResolve).value, Some(table), false), canResolve, repr)
  {
    var profiles: map<Id, Profile> :| Agrees(Store(profiles, Some(table), false), canResolve, repr);
    ReopenedAgrees(Store(profiles, Some(table), false), rows, canResolve, repr);
  }

  // ----- When an absent connection stays absent -----

  ghost function StateAt(s: Store, ops: seq<Op>, k: nat, canResolve: string -> bool, repr: Value -> string): Store
    requires AllPossible(ops, canResolve, repr) && k <= |ops|
  {
    Run(s, ops[..k], canResolve, repr)
  }

  // The write of the k-th operation takes effect: always without a database,
  // and with one if it is committed before the manager is shut.
  predicate Lands(s: Store, ops: seq<Op>, k: nat, committed: bool)
    requires k <= |ops|
  {
    s.table.Some? ==> committed && !s.closed && Shut !in ops[..k]
  }

  // The k-th operation writes a profile under that id.
  predicate Restores(s: Store, ops: seq<Op>, k: nat, id: Id)
    requires k < |ops|
  {
    match ops[k]
    case Register(p, _, committed) => p.connectionId == id && Lands(s, ops, k, committed)
    case Update(p, committed) => p.connectionId == id && Lands(s, ops, k, committed)
    case Delete(_, _) => false
    case Shut => false
  }

  lemma StateStep(s: Store, ops: seq<Op>, k: nat, canResolve: string -> bool, repr: Value -> string)
    requires AllPossible(ops, canResolve, repr) && k < |ops|
    ensures StateAt(s, ops, k + 1, canResolve, repr)
         == Apply(StateAt(s, ops, k, canResolve, repr), ops[k], canResolve, repr)
  {
    assert ops[..k + 1][..k] == ops[..k];
  }

  // Open or closed is read off the operations alone.
  lemma {:induction false} ClosedIffShut(s: Store, ops: seq<Op>, k: nat, canResolve: string -> bool,
                                         repr: Value -> string)
    requires AllPossible(ops, canResolve, repr) && k <= |ops|
    ensures var t := StateAt(s, ops, k, canResolve, repr);
      (t.table.Some? <==> s.table.Some?) && (t.closed <==> s.closed || Shut in ops[..k])
  {
    if k > 0 {
      ClosedIffShut(s, ops, k - 1, canResolve, repr);
      StateStep(s, ops, k - 1, canResolve, repr);
      InLast(ops[..k], Shut);
      assert ops[..k][..k - 1] == ops[..k - 1];
    }
  }

  lemma AbsentStep(s: Store, ops: seq<Op>, k: nat, id: Id, canResolve: string -> bool, repr: Value -> string)
    requires AllPossible(ops, canResolve, repr) && k < |ops|
    requires id !in StateAt(s, ops, k, canResolve, repr).profiles
    ensures id in StateAt(s, ops, k + 1, canResolve, repr).profiles <==> Restores(s, ops, k, id)
  {
    StateStep(s, ops, k, canResolve, repr);
    ClosedIffShut(s, ops, k, canResolve, repr);
  }

  predicate NothingRestores(s: Store, ops: seq<Op>, id: Id) {
    forall k :: 0 <= k < |ops| ==> !Restores(s, ops, k, id)
  }

  lemma {:induction false} UnrestoredIsAbsent(s: Store, ops: seq<Op>, k: nat, id: Id, canResolve: string -> bool,
                                              repr: Value -> string)
    requires AllPossible(ops, canResolve, repr) && k <= |ops| && id !in s.profiles && NothingRestores(s, ops, id)
    ensures id !in StateAt(s, ops, k, canResolve, repr).profiles
  {
    if k > 0 {
      UnrestoredIsAbsent(s, ops, k - 1, id, canResolve, repr);
      AbsentStep(s, ops, k - 1, id, canResolve, repr);
    }
  }

  // Over any run a connection that is not there, one just removed for
  // instance, stays away if and only if no registration or update of it lands.
  lemma StaysAbsentIff(s: Store, ops: seq<Op>, id: Id, canResolve: string -> bool, repr: Value -> string)
    requires AllPossible(ops, canResolve, repr) && id !in s.profiles
    ensures (forall k :: 0 <= k <= |ops| ==> id !in StateAt(s, ops, k, canResolve, repr).profiles)
       <==> NothingRestores(s, ops, id)
  {
    if NothingRestores(s, ops, id) {
      forall k | 0 <= k <= |ops| ensures id !in StateAt(s, ops, k, canResolve, repr).profiles {
        UnrestoredIsAbsent(s, ops, k, id, canResolve, repr);
      }
    }
    if forall k :: 0 <= k <= |ops| ==> id !in StateAt(s, ops, k, canResolve, repr).profiles {
      forall k | 0 <= k < |ops| ensures !Restores(s, ops, k, id) {
        AbsentStep(s, ops, k, id, canResolve, repr);
      }
    }
  }

  // Reading a profile and storing its update are two regions, so an enable
  // that overlaps a remove brings the removed connection back.
  lemma StaleUpdateResurrects(s: Store, p: Profile, canResolve: string -> bool, repr: Value -> string)
    requires Agrees(s, canResolve, repr) && !s.closed
    requires p.connectionId in s.profiles && s.profiles[p.connectionId] == p && Encode(p, repr).Some?
    ensures var ops := [Delete(p.connectionId, true), Update(p.(enabled := true), true)];
      && AllPossible(ops, canResolve, repr)
      && p.connectionId !in Run(s, ops[..1], canResolve, repr).profiles
      && p.connectionId in Run(s, ops, canResolve, repr).profiles
  {
    var ops := [Delete(p.connectionId, true), Update(p.(enabled := true), true)];
    assert Good(s, p.connectionId, canResolve, repr);
    ConstructorIsStable(p, true);
    assert Encode(p.(enabled := true), repr).Some?;
    assert ops[..1] == [Delete(p.connectionId, true)] && ops[..1][..0] == [];
    assert Run(s, ops[..1][..0], canResolve, repr) == s;
  }
}
