// The connector-to-connection bridge of connectors/control_plane.py.
module ControlPlane {
  import opened Foundation
  import opened ConnectionModels
  import opened ConnectionProfiles
  import opened ConnectionManager

  // Identifiers and provider names are taken after the source has normalised them.
  datatype Descriptor = Descriptor(connectorId: Id, provider: string, requiresConnection: bool, disabled: bool)

  datatype SelectError =
    | NotBound | ProviderMismatch | Ambiguous | AllDisabled | NoneInScope | ConnectionUnknown | ManagerClosed

  datatype BindError = UnknownConnector | NeedsNoConnection | UnknownConnection | BindClosed | BindProviderMismatch

  datatype AuthorityState =
    | LocalAvailable | ConfiguredUnverified(connection: Id) | MissingBinding | ConnectionDisabled | ScopeIsDenied
    | AmbiguousBinding | ConnectorDisabled

  datatype StatusError = NoSuchConnector | Unregistered | StatusClosed

  function Specificity(p: Profile): nat {
    (if p.businessId.Some? then 4 else 0) + (if |p.projectIds| > 0 then 2 else 0) + (if |p.brandIds| > 0 then 1 else 0)
  }

  // ----- Selection -----

  datatype Candidates = Candidates(profiles: seq<Profile>, disabled: nat, denied: nat)

  function FromAccess(e: AccessError): SelectError {
    match e
    case Closed => ManagerClosed
    case NotRegistered => ConnectionUnknown
    case Disabled => AllDisabled
    case ScopeDenied => NoneInScope
  }

  // The authorized candidates among the bound ids, taken in the given order.
  function Collect(order: seq<Id>, d: Descriptor, profiles: map<Id, Profile>, closed: bool, scope: Scope):
    Result<Candidates, SelectError>
  {
    if |order| == 0 then Ok(Candidates([], 0, 0))
    else
      match Collect(order[..|order| - 1], d, profiles, closed, scope)
      case Err(e) => Err(e)
      case Ok(c) =>
        match Authorize(profiles, closed, order[|order| - 1], scope)
        case Ok(p) => if p.provider != d.provider then Err(ProviderMismatch) else Ok(c.(profiles := c.profiles + [p]))
        case Err(Disabled) => Ok(c.(disabled := c.disabled + 1))
        case Err(ScopeDenied) => Ok(c.(denied := c.denied + 1))
        case Err(e) => Err(FromAccess(e))
  }

  function BestScore(ps: seq<Profile>): nat
    requires |ps| > 0
    ensures forall i :: 0 <= i < |ps| ==> Specificity(ps[i]) <= BestScore(ps)
    ensures exists i :: 0 <= i < |ps| && Specificity(ps[i]) == BestScore(ps)
  {
    var last := Specificity(ps[|ps| - 1]);
    if |ps| == 1 then last
    else
      var before := BestScore(ps[..|ps| - 1]);
      if before >= last then before else last
  }

  function WithScore(ps: seq<Profile>, score: nat): seq<Profile> {
    if |ps| == 0 then []
    else WithScore(ps[..|ps| - 1], score)
         + if Specificity(ps[|ps| - 1]) == score then [ps[|ps| - 1]] else []
  }

  function Pick(c: Candidates, anyBound: bool): Result<Profile, SelectError> {
    if |c.profiles| == 0 then
      if !anyBound then Err(NotBound)
      else if c.disabled > 0 && c.denied == 0 then Err(AllDisabled)
      else Err(NoneInScope)
    else
      var best := WithScore(c.profiles, BestScore(c.profiles));
      if |best| != 1 then Err(Ambiguous) else Ok(best[0])
  }

  function Select(order: seq<Id>, d: Descriptor, profiles: map<Id, Profile>, closed: bool, scope: Scope,
                  explicit: Option<Id>): Result<Profile, SelectError>
  {
    match explicit
    case Some(id) =>
      if id !in order then Err(NotBound)
      else (match Authorize(profiles, closed, id, scope)
            case Err(e) => Err(FromAccess(e))
            case Ok(p) => if p.provider != d.provider then Err(ProviderMismatch) else Ok(p))
    case None =>
      match Collect(order, d, profiles, closed, scope)
      case Err(e) => Err(e)
      case Ok(c) => Pick(c, |order| > 0)
  }

  // ----- The control plane -----

  class ConnectorControlPlane {
    const registry: map<Id, Descriptor>
    const manager: ConnectionManager
    var bindings: map<Id, set<Id>>

    ghost predicate Valid()
      reads this, manager
    {
      && manager.Valid()
      && (forall c :: c in registry ==> registry[c].connectorId == c)
      && forall c :: c in bindings ==> bindings[c] != {}
    }

    constructor (registry: map<Id, Descriptor>, manager: ConnectionManager)
      requires manager.Valid() && forall c :: c in registry ==> registry[c].connectorId == c
      ensures Valid() && bindings == map[] && this.registry == registry && this.manager == manager
    {
      this.registry, this.manager, bindings := registry, manager, map[];
    }

    function Bound(connector: Id): set<Id>
      reads this
    {
      if connector in bindings then bindings[connector] else {}
    }

    method Bind(connector: Id, connection: Id) returns (r: Option<BindError>)
      requires Valid()
      modifies this
      ensures Valid()
      ensures r == if connector !in registry then Some(UnknownConnector)
                   else if !registry[connector].requiresConnection then Some(NeedsNoConnection)
                   else if manager.closed then Some(BindClosed)
                   else if connection !in manager.profiles then Some(UnknownConnection)
                   else if manager.profiles[connection].provider != registry[connector].provider then
                     Some(BindProviderMismatch)
                   else None
      ensures r.Some? ==> bindings == old(bindings)
      ensures r.None? ==> Bound(connector) == old(Bound(connector)) + {manager.profiles[connection].connectionId}
      ensures forall c :: c != connector ==> Bound(c) == old(Bound(c))
    {
      if connector !in registry { return Some(UnknownConnector); }
      var d := registry[connector];
      if !d.requiresConnection { return Some(NeedsNoConnection); }
      var profile := manager.Get(connection);
      if profile.Err? { return Some(if manager.closed then BindClosed else UnknownConnection); }
      if profile.value.provider != d.provider { return Some(BindProviderMismatch); }
      bindings := bindings[connector := Bound(connector) + {profile.value.connectionId}];
      r := None;
    }

    method Unbind(connector: Id, connection: Id) returns (removed: bool)
      requires Valid()
      modifies this
      ensures Valid()
      ensures removed <==> connection in old(Bound(connector))
      ensures Bound(connector) == old(Bound(connector)) - {connection}
      ensures forall c :: c != connector ==> Bound(c) == old(Bound(c))
    {
      if connector !in bindings || connection !in bindings[connector] { return false; }
      var left := bindings[connector] - {connection};
      bindings := if left == {} then bindings - {connector} else bindings[connector := left];
      removed := true;
    }

    // The loop over the bound ids. Their order, here any enumeration, is
    // alphabetical in the source.
    method AuthorizedCandidates(order: seq<Id>, d: Descriptor, scope: Scope)
      returns (r: Result<Candidates, SelectError>)
      requires Valid()
      ensures r == Collect(order, d, manager.profiles, manager.closed, scope)
    {
      var candidates: seq<Profile>, disabled: nat, denied: nat := [], 0, 0;
      var i := 0;
      while i < |order|
        invariant 0 <= i <= |order|
        invariant Collect(order[..i], d, manager.profiles, manager.closed, scope)
               == Ok(Candidates(candidates, disabled, denied))
      {
        assert order[..i + 1][..i] == order[..i];
        CollectPrefix(order, d, manager.profiles, manager.closed, scope, i + 1);
        var access := manager.AuthorizeProfile(order[i], scope);
        if access.Ok? {
          if access.value.provider != d.provider { return Err(ProviderMismatch); }
          candidates := candidates + [access.value];
        } else if access.error == Disabled {
          disabled := disabled + 1;
        } else if access.error == ScopeDenied {
          denied := denied + 1;
        } else {
          return Err(FromAccess(access.error));
        }
        i := i + 1;
      }
      assert order[..|order|] == order;
      r := Ok(Candidates(candidates, disabled, denied));
    }

    method SelectProfile(order: seq<Id>, d: Descriptor, scope: Scope, explicit: Option<Id>)
      returns (r: Result<Profile, SelectError>)
      requires Valid() && Distinct(order) && Elems(order) == Bound(d.connectorId)
      ensures r == Select(order, d, manager.profiles, manager.closed, scope, explicit)
    {
      var bound := Bound(d.connectorId);
      if explicit.Some? {
        if explicit.value !in bound { return Err(NotBound); }
        var access := manager.AuthorizeProfile(explicit.value, scope);
        if access.Err? { return Err(FromAccess(access.error)); }
        if access.value.provider != d.provider { return Err(ProviderMismatch); }
        return Ok(access.value);
      }
      var found := AuthorizedCandidates(order, d, scope);
      if found.Err? { return Err(found.error); }
      var c := found.value;
      assert |order| > 0 <==> bound != {} by {
        if |order| > 0 { assert order[0] in bound; }
      }
      if |c.profiles| == 0 {
        if bound == {} { return Err(NotBound); }
        if c.disabled > 0 && c.denied == 0 { return Err(AllDisabled); }
        return Err(NoneInScope);
      }
      var best := WithScore(c.profiles, BestScore(c.profiles));
      r := if |best| != 1 then Err(Ambiguous) else Ok(best[0]);
    }

    // Execution on that connector would get as far as the secret of c.
    ghost predicate Reachable(connector: Id, order: seq<Id>, scope: Scope, explicit: Option<Id>, c: Id)
      reads this, manager
    {
      && connector in registry && !registry[connector].disabled && registry[connector].requiresConnection
      && Chosen(order, registry[connector], manager.profiles, manager.closed, scope, explicit, c)
    }

    // Configured means: exactly that connection's secret is within reach. Every
    // other state says why none is.
    method GetStatus(connector: Id, order: seq<Id>, scope: Scope, explicit: Option<Id>)
      returns (r: Result<AuthorityState, StatusError>)
      requires Valid() && Distinct(order) && Elems(order) == Bound(connector)
      ensures forall c :: r == Ok(ConfiguredUnverified(c)) <==> Reachable(connector, order, scope, explicit, c)
      ensures r == Err(NoSuchConnector) <==> connector !in registry
      ensures connector in registry ==>
        StatusMeans(order, registry[connector], manager.profiles, manager.closed, scope, explicit, r)
      ensures r == if connector !in registry then Err(NoSuchConnector)
                   else Status(registry[connector],
                               Select(order, registry[connector], manager.profiles, manager.closed, scope, explicit))
    {
      if connector !in registry { return Err(NoSuchConnector); }
      var d := registry[connector];
      AgreeingIsKeyed(manager.View(), manager.canResolve, manager.repr);
      StatusMeaning(order, d, manager.profiles, manager.closed, scope, explicit);
      if d.disabled { return Ok(ConnectorDisabled); }
      if !d.requiresConnection { return Ok(LocalAvailable); }
      var selected := SelectProfile(order, d, scope, explicit);
      SelectedIffChosen(order, d, manager.profiles, manager.closed, scope, explicit);
      r := SelectionStatus(selected);
    }

    // Up to the secret provider: the result says which secret would be read.
    method ResolveForExecution(connector: Id, order: seq<Id>, scope: Scope, explicit: Option<Id>)
      returns (r: Resolution)
      requires Valid() && Distinct(order) && Elems(order) == Bound(connector)
      ensures forall c :: r.SecretLookup? && r.connection == c <==> Reachable(connector, order, scope, explicit, c)
      ensures r == LocalAccess <==>
        connector in registry && !registry[connector].disabled && !registry[connector].requiresConnection
      ensures r.SecretLookup? ==>
        && r.connection in manager.profiles && r.secretRef == manager.profiles[r.connection].secretRef
        && manager.canResolve(r.secretRef)
      ensures r == if connector !in registry then Refused
                   else Resolve(registry[connector],
                                Select(order, registry[connector], manager.profiles, manager.closed, scope, explicit),
                                manager.profiles, manager.closed, scope)
    {
      if connector !in registry { return Refused; }
      var d := registry[connector];
      if d.disabled { return Refused; }
      if !d.requiresConnection { return LocalAccess; }
      var selected := SelectProfile(order, d, scope, explicit);
      AgreeingIsKeyed(manager.View(), manager.canResolve, manager.repr);
      SelectedIffChosen(order, d, manager.profiles, manager.closed, scope, explicit);
      if selected.Err? { return Refused; }
      SelectedIsAuthorized(order, d, manager.profiles, manager.closed, scope, explicit);
      var access := manager.AuthorizeProfile(selected.value.connectionId, scope);
      r := match access
           case Ok(p) => SecretLookup(p.connectionId, p.secretRef)
           case Err(_) => Refused;
    }
  }

  function SelectionStatus(selected: Result<Profile, SelectError>): Result<AuthorityState, StatusError> {
    match selected
    case Ok(p) => Ok(ConfiguredUnverified(p.connectionId))
    case Err(Ambiguous) => Ok(AmbiguousBinding)
    case Err(AllDisabled) => Ok(ConnectionDisabled)
    case Err(NoneInScope) => Ok(ScopeIsDenied)
    case Err(NotBound) => Ok(MissingBinding)
    case Err(ProviderMismatch) => Ok(MissingBinding)
    case Err(ConnectionUnknown) => Err(Unregistered)
    case Err(ManagerClosed) => Err(StatusClosed)
  }

  function Status(d: Descriptor, selected: Result<Profile, SelectError>): Result<AuthorityState, StatusError> {
    if d.disabled then Ok(ConnectorDisabled)
    else if !d.requiresConnection then Ok(LocalAvailable)
    else SelectionStatus(selected)
  }

  datatype Resolution = Refused | LocalAccess | SecretLookup(connection: Id, secretRef: string)

  function Resolve(d: Descriptor, selected: Result<Profile, SelectError>, profiles: map<Id, Profile>, closed: bool,
                   scope: Scope): Resolution
  {
    if d.disabled then Refused
    else if !d.requiresConnection then LocalAccess
    else match selected
      case Err(_) => Refused
      case Ok(p) =>
        match Authorize(profiles, closed, p.connectionId, scope)
        case Ok(q) => SecretLookup(q.connectionId, q.secretRef)
        case Err(_) => Refused
  }

  lemma {:induction false} CollectPrefix(order: seq<Id>, d: Descriptor, profiles: map<Id, Profile>, closed: bool,
                                         scope: Scope, k: nat)
    requires k <= |order|
    ensures Collect(order[..k], d, profiles, closed, scope).Err? ==>
      Collect(order, d, profiles, closed, scope) == Collect(order[..k], d, profiles, closed, scope)
  {
    if k < |order| {
      assert order[..|order| - 1][..k] == order[..k];
      CollectPrefix(order[..|order| - 1], d, profiles, closed, scope, k);
    } else {
      assert order[..k] == order;
    }
  }

  // ----- What selection means -----

  predicate Keyed(profiles: map<Id, Profile>) {
    forall id :: id in profiles ==> profiles[id].connectionId == id
  }

  lemma AgreeingIsKeyed(s: Store, canResolve: string -> bool, repr: Value -> string)
    requires Agrees(s, canResolve, repr)
    ensures Keyed(s.profiles)
  {
    forall id | id in s.profiles ensures s.profiles[id].connectionId == id {
      assert Good(s, id, canResolve, repr);
    }
  }

  // Enabled and in scope.
  predicate Usable(profiles: map<Id, Profile>, id: Id, scope: Scope) {
    id in profiles && profiles[id].enabled && InScope(profiles[id], scope)
  }

  // Every bound id is registered, and what could be chosen has the provider.
  predicate WellBound(order: seq<Id>, d: Descriptor, profiles: map<Id, Profile>, scope: Scope) {
    && Distinct(order) && Keyed(profiles)
    && forall id :: id in order ==>
         id in profiles && (Usable(profiles, id, scope) ==> profiles[id].provider == d.provider)
  }

  function UsableIds(order: seq<Id>, profiles: map<Id, Profile>, scope: Scope): seq<Id> {
    if |order| == 0 then []
    else UsableIds(order[..|order| - 1], profiles, scope)
         + if Usable(profiles, order[|order| - 1], scope) then [order[|order| - 1]] else []
  }

  lemma {:induction false} UsableIdsAre(order: seq<Id>, profiles: map<Id, Profile>, scope: Scope, id: Id)
    ensures id in UsableIds(order, profiles, scope) <==> id in order && Usable(profiles, id, scope)
  {
    if |order| > 0 {
      UsableIdsAre(order[..|order| - 1], profiles, scope, id);
      InLast(order, id);
    }
  }

  lemma {:induction false} UsableIdsDistinct(order: seq<Id>, profiles: map<Id, Profile>, scope: Scope)
    requires Distinct(order)
    ensures Distinct(UsableIds(order, profiles, scope))
  {
    if |order| > 0 {
      var n := |order| - 1;
      UsableIdsDistinct(order[..n], profiles, scope);
      UsableIdsAre(order[..n], profiles, scope, order[n]);
      DistinctAppend(UsableIds(order[..n], profiles, scope), order[n]);
    }
  }

  predicate IsDisabled(profiles: map<Id, Profile>, id: Id) { id in profiles && !profiles[id].enabled }

  predicate IsDenied(profiles: map<Id, Profile>, id: Id, scope: Scope) {
    id in profiles && profiles[id].enabled && !InScope(profiles[id], scope)
  }

  lemma WellBoundPrefix(order: seq<Id>, d: Descriptor, profiles: map<Id, Profile>, scope: Scope)
    requires WellBound(order, d, profiles, scope) && |order| > 0
    ensures WellBound(order[..|order| - 1], d, profiles, scope) && order[|order| - 1] in profiles
    ensures Usable(profiles, order[|order| - 1], scope) ==> profiles[order[|order| - 1]].provider == d.provider
  {
    forall x | x in order[..|order| - 1] ensures x in order { InLast(order, x); }
  }

  // The candidates are the usable profiles, in order.
  lemma {:induction false} CollectProfiles(order: seq<Id>, d: Descriptor, profiles: map<Id, Profile>, scope: Scope)
    requires WellBound(order, d, profiles, scope)
    ensures var c := Collect(order, d, profiles, false, scope);
      && c.Ok? && |c.value.profiles| == |UsableIds(order, profiles, scope)|
      && forall i :: 0 <= i < |c.value.profiles| ==>
           UsableIds(order, profiles, scope)[i] in profiles
           && c.value.profiles[i] == profiles[UsableIds(order, profiles, scope)[i]]
  {
    if |order| > 0 {
      WellBoundPrefix(order, d, profiles, scope);
      CollectProfiles(order[..|order| - 1], d, profiles, scope);
    }
  }

  // The counters count the disabled and the denied ones.
  lemma {:induction false} CollectCounters(order: seq<Id>, d: Descriptor, profiles: map<Id, Profile>, scope: Scope)
    requires WellBound(order, d, profiles, scope) && Collect(order, d, profiles, false, scope).Ok?
    ensures var c := Collect(order, d, profiles, false, scope).value;
      && (c.disabled > 0 <==> exists id :: id in order && IsDisabled(profiles, id))
      && (c.denied > 0 <==> exists id :: id in order && IsDenied(profiles, id, scope))
  {
    if |order| > 0 {
      var n := |order| - 1;
      WellBoundPrefix(order, d, profiles, scope);
      CollectCounters(order[..n], d, profiles, scope);
      forall id ensures id in order <==> id in order[..n] || id == order[n] { InLast(order, id); }
      CounterStep(order[..n], order[n], profiles, scope, order);
    }
  }

  lemma CounterStep(before: seq<Id>, last: Id, profiles: map<Id, Profile>, scope: Scope, order: seq<Id>)
    requires forall id :: id in order <==> id in before || id == last
    ensures (exists id :: id in order && IsDisabled(profiles, id)) <==>
      (exists id :: id in before && IsDisabled(profiles, id)) || IsDisabled(profiles, last)
    ensures (exists id :: id in order && IsDenied(profiles, id, scope)) <==>
      (exists id :: id in before && IsDenied(profiles, id, scope)) || IsDenied(profiles, last, scope)
  {
  }

  lemma CollectMeaning(order: seq<Id>, d: Descriptor, profiles: map<Id, Profile>, scope: Scope)
    requires WellBound(order, d, profiles, scope)
    ensures var c := Collect(order, d, profiles, false, scope);
      && c.Ok? && |c.value.profiles| == |UsableIds(order, profiles, scope)|
      && (forall i :: 0 <= i < |c.value.profiles| ==>
            UsableIds(order, profiles, scope)[i] in profiles
            && c.value.profiles[i] == profiles[UsableIds(order, profiles, scope)[i]])
      && (c.value.disabled > 0 <==> exists id :: id in order && IsDisabled(profiles, id))
      && (c.value.denied > 0 <==> exists id :: id in order && IsDenied(profiles, id, scope))
  {
    CollectProfiles(order, d, profiles, scope);
    CollectCounters(order, d, profiles, scope);
  }

  lemma {:induction false} WithScoreOne(ps: seq<Profile>, score: nat, k: nat)
    requires k < |ps| && Specificity(ps[k]) == score
    requires forall i :: 0 <= i < |ps| && i != k ==> Specificity(ps[i]) != score
    ensures WithScore(ps, score) == [ps[k]]
  {
    var n := |ps| - 1;
    if k < n {
      WithScoreOne(ps[..n], score, k);
    } else {
      WithScoreNone(ps[..n], score);
    }
  }

  lemma {:induction false} WithScoreNone(ps: seq<Profile>, score: nat)
    requires forall i :: 0 <= i < |ps| ==> Specificity(ps[i]) != score
    ensures WithScore(ps, score) == []
  {
    if |ps| > 0 { WithScoreNone(ps[..|ps| - 1], score); }
  }

  lemma {:induction false} WithScoreSome(ps: seq<Profile>, score: nat, i: nat)
    requires i < |ps| && Specificity(ps[i]) == score
    ensures |WithScore(ps, score)| >= 1
  {
    if i < |ps| - 1 { WithScoreSome(ps[..|ps| - 1], score, i); }
  }

  lemma {:induction false} WithScoreTwo(ps: seq<Profile>, score: nat, i: nat, j: nat)
    requires i < j < |ps| && Specificity(ps[i]) == score && Specificity(ps[j]) == score
    ensures |WithScore(ps, score)| >= 2
  {
    var n := |ps| - 1;
    if j < n { WithScoreTwo(ps[..n], score, i, j); } else { WithScoreSome(ps[..n], score, i); }
  }

  // The k-th candidate beats every other one.
  predicate Beats(ps: seq<Profile>, k: nat)
    requires k < |ps|
  {
    forall i :: 0 <= i < |ps| && i != k ==> Specificity(ps[i]) < Specificity(ps[k])
  }

  lemma PickIff(c: Candidates, anyBound: bool, k: nat)
    requires k < |c.profiles|
    ensures Beats(c.profiles, k) ==> Pick(c, anyBound) == Ok(c.profiles[k])
    ensures (forall j :: 0 <= j < |c.profiles| ==> !Beats(c.profiles, j)) ==> Pick(c, anyBound) == Err(Ambiguous)
  {
    var ps := c.profiles;
    var best := BestScore(ps);
    var m :| 0 <= m < |ps| && Specificity(ps[m]) == best;
    if Beats(ps, k) {
      assert m == k;
      WithScoreOne(ps, best, k);
    } else if forall j :: 0 <= j < |ps| ==> !Beats(ps, j) {
      assert !Beats(ps, m);
      var o :| 0 <= o < |ps| && o != m && Specificity(ps[o]) >= Specificity(ps[m]);
      WithScoreTwo(ps, best, if o < m then o else m, if o < m then m else o);
    }
  }

  // c is usable and strictly more specific than every other usable bound id.
  predicate Wins(order: seq<Id>, profiles: map<Id, Profile>, scope: Scope, c: Id) {
    && c in order && Usable(profiles, c, scope)
    && forall id :: id in order && Usable(profiles, id, scope) && id != c ==>
         Specificity(profiles[id]) < Specificity(profiles[c])
  }

  lemma WinnerBeats(order: seq<Id>, d: Descriptor, profiles: map<Id, Profile>, scope: Scope, k: nat)
    requires WellBound(order, d, profiles, scope)
    requires k < |UsableIds(order, profiles, scope)|
    ensures Collect(order, d, profiles, false, scope).Ok?
    ensures var c := Collect(order, d, profiles, false, scope).value;
      && k < |c.profiles|
      && (Beats(c.profiles, k) <==> Wins(order, profiles, scope, UsableIds(order, profiles, scope)[k]))
      && UsableIds(order, profiles, scope)[k] in profiles
      && c.profiles[k] == profiles[UsableIds(order, profiles, scope)[k]]
  {
    CollectMeaning(order, d, profiles, scope);
    UsableIdsDistinct(order, profiles, scope);
    var us := UsableIds(order, profiles, scope);
    var ps := Collect(order, d, profiles, false, scope).value.profiles;
    forall id ensures id in us <==> id in order && Usable(profiles, id, scope) {
      UsableIdsAre(order, profiles, scope, id);
    }
    if Beats(ps, k) {
      forall id | id in order && Usable(profiles, id, scope) && id != us[k]
        ensures Specificity(profiles[id]) < Specificity(profiles[us[k]])
      {
        assert id in us;
        var i :| 0 <= i < |us| && us[i] == id;
        assert ps[i] == profiles[us[i]];
      }
    }
    if Wins(order, profiles, scope, us[k]) {
      forall i | 0 <= i < |ps| && i != k ensures Specificity(ps[i]) < Specificity(ps[k]) {
        assert us[i] in us && us[i] != us[k];
      }
    }
  }

  lemma WellBoundSelectsIff(order: seq<Id>, d: Descriptor, profiles: map<Id, Profile>, scope: Scope, c: Id)
    requires WellBound(order, d, profiles, scope)
    ensures Select(order, d, profiles, false, scope, None).Ok?
            && Select(order, d, profiles, false, scope, None).value.connectionId == c
       <==> Wins(order, profiles, scope, c)
  {
    CollectMeaning(order, d, profiles, scope);
    UsableIdsAre(order, profiles, scope, c);
    var us := UsableIds(order, profiles, scope);
    if Wins(order, profiles, scope, c) {
      var k :| 0 <= k < |us| && us[k] == c;
      WinnerBeats(order, d, profiles, scope, k);
      PickIff(Collect(order, d, profiles, false, scope).value, |order| > 0, k);
    } else if Select(order, d, profiles, false, scope, None).Ok? {
      SelectedWins(order, d, profiles, scope);
    }
  }

  lemma SelectedWins(order: seq<Id>, d: Descriptor, profiles: map<Id, Profile>, scope: Scope)
    requires WellBound(order, d, profiles, scope)
    requires Select(order, d, profiles, false, scope, None).Ok?
    ensures Wins(order, profiles, scope, Select(order, d, profiles, false, scope, None).value.connectionId)
  {
    CollectMeaning(order, d, profiles, scope);
    var us := UsableIds(order, profiles, scope);
    var c := Collect(order, d, profiles, false, scope).value;
    PickIff(c, |order| > 0, 0);
    var j :| 0 <= j < |c.profiles| && Beats(c.profiles, j);
    PickIff(c, |order| > 0, j);
    WinnerBeats(order, d, profiles, scope, j);
  }

  lemma WellBoundRefusals(order: seq<Id>, d: Descriptor, profiles: map<Id, Profile>, scope: Scope)
    requires WellBound(order, d, profiles, scope)
    ensures var r := Select(order, d, profiles, false, scope, None);
      && (r == Err(NotBound) <==> order == [])
      && (r == Err(AllDisabled) <==> order != [] && forall id :: id in order ==> !profiles[id].enabled)
      && (r == Err(NoneInScope) <==>
            && (forall id :: id in order ==> !Usable(profiles, id, scope))
            && exists id :: id in order && profiles[id].enabled)
      && (r == Err(Ambiguous) <==>
            (exists id :: id in order && Usable(profiles, id, scope)) && forall id :: !Wins(order, profiles, scope, id))
      && (r.Err? ==> r.error in {NotBound, AllDisabled, NoneInScope, Ambiguous})
  {
    CollectMeaning(order, d, profiles, scope);
    var us := UsableIds(order, profiles, scope);
    forall id ensures id in us <==> id in order && Usable(profiles, id, scope) {
      UsableIdsAre(order, profiles, scope, id);
    }
    forall id ensures Wins(order, profiles, scope, id) ==> Select(order, d, profiles, false, scope, None).Ok? {
      WellBoundSelectsIff(order, d, profiles, scope, id);
    }
    if |us| > 0 {
      assert us[0] in us;
      if Select(order, d, profiles, false, scope, None).Ok? { SelectedWins(order, d, profiles, scope); }
    } else if |order| > 0 {
      assert order[0] in order;
      assert forall id :: id in order ==> !Usable(profiles, id, scope);
    }
  }

  // The loop over the bound ids stops with an error at an id no longer
  // registered, or at a usable profile of another provider.
  predicate Stops(d: Descriptor, profiles: map<Id, Profile>, scope: Scope, id: Id) {
    id !in profiles || (Usable(profiles, id, scope) && profiles[id].provider != d.provider)
  }

  predicate NothingStops(order: seq<Id>, d: Descriptor, profiles: map<Id, Profile>, scope: Scope) {
    forall id :: id in order ==> !Stops(d, profiles, scope, id)
  }

  predicate FirstStop(order: seq<Id>, d: Descriptor, profiles: map<Id, Profile>, scope: Scope, k: int) {
    0 <= k < |order| && Stops(d, profiles, scope, order[k]) && NothingStops(order[..k], d, profiles, scope)
  }

  // The first such id is a registered one, or is not.
  predicate StopsAt(order: seq<Id>, d: Descriptor, profiles: map<Id, Profile>, scope: Scope, registered: bool) {
    exists k :: 0 <= k < |order| && FirstStop(order, d, profiles, scope, k) && (order[k] in profiles) == registered
  }

  lemma {:induction false} SomeFirstStop(order: seq<Id>, d: Descriptor, profiles: map<Id, Profile>, scope: Scope)
    returns (k: nat)
    requires !NothingStops(order, d, profiles, scope)
    ensures FirstStop(order, d, profiles, scope, k)
  {
    var n := |order| - 1;
    if NothingStops(order[..n], d, profiles, scope) {
      assert order == order[..n] + [order[n]];
      k := n;
    } else {
      k := SomeFirstStop(order[..n], d, profiles, scope);
      assert order[..n][..k] == order[..k];
    }
  }

  lemma StoppedCollect(order: seq<Id>, d: Descriptor, profiles: map<Id, Profile>, scope: Scope, k: nat)
    requires Distinct(order) && Keyed(profiles) && FirstStop(order, d, profiles, scope, k)
    ensures Collect(order, d, profiles, false, scope)
         == Err(if order[k] in profiles then ProviderMismatch else ConnectionUnknown)
  {
    CollectProfiles(order[..k], d, profiles, scope);
    assert order[..k + 1][..k] == order[..k];
    CollectPrefix(order, d, profiles, false, scope, k + 1);
  }

  lemma ClosedCollect(order: seq<Id>, d: Descriptor, profiles: map<Id, Profile>, scope: Scope)
    requires order != []
    ensures Collect(order, d, profiles, true, scope) == Err(ManagerClosed)
  {
    assert order[..1][..0] == [];
    CollectPrefix(order, d, profiles, true, scope, 1);
  }

  // Implicit selection returns c if and only if the manager is open, the loop
  // meets no error, and c is bound, enabled, in scope and the unique most
  // specific such connection, in whatever order the ids are visited.
  lemma SelectsIff(order: seq<Id>, d: Descriptor, profiles: map<Id, Profile>, closed: bool, scope: Scope, c: Id)
    requires Distinct(order) && Keyed(profiles)
    ensures Select(order, d, profiles, closed, scope, None).Ok?
            && Select(order, d, profiles, closed, scope, None).value.connectionId == c
       <==> !closed && NothingStops(order, d, profiles, scope) && Wins(order, profiles, scope, c)
  {
    if order == [] {
    } else if closed {
      ClosedCollect(order, d, profiles, scope);
    } else if NothingStops(order, d, profiles, scope) {
      WellBoundSelectsIff(order, d, profiles, scope, c);
    } else {
      var k := SomeFirstStop(order, d, profiles, scope);
      StoppedCollect(order, d, profiles, scope, k);
    }
  }

  // Why nothing was selected, for every state of bindings and manager.
  lemma RefusalsMean(order: seq<Id>, d: Descriptor, profiles: map<Id, Profile>, closed: bool, scope: Scope)
    requires Distinct(order) && Keyed(profiles)
    ensures var r := Select(order, d, profiles, closed, scope, None);
      var sound := !closed && NothingStops(order, d, profiles, scope);
      && (r == Err(NotBound) <==> order == [])
      && (r == Err(ManagerClosed) <==> closed && order != [])
      && (r == Err(ConnectionUnknown) <==> !closed && StopsAt(order, d, profiles, scope, false))
      && (r == Err(ProviderMismatch) <==> !closed && StopsAt(order, d, profiles, scope, true))
      && (r == Err(AllDisabled) <==> sound && order != [] && forall id :: id in order ==> !profiles[id].enabled)
      && (r == Err(NoneInScope) <==>
            && sound && (forall id :: id in order ==> !Usable(profiles, id, scope))
            && exists id :: id in order && profiles[id].enabled)
      && (r == Err(Ambiguous) <==>
            && sound && (exists id :: id in order && Usable(profiles, id, scope))
            && forall id :: !Wins(order, profiles, scope, id))
  {
    if !NothingStops(order, d, profiles, scope) {
      StoppedRefusals(order, d, profiles, closed, scope);
    } else if !closed {
      WellBoundRefusals(order, d, profiles, scope);
    } else if order != [] {
      ClosedCollect(order, d, profiles, scope);
    }
  }

  lemma StoppedRefusals(order: seq<Id>, d: Descriptor, profiles: map<Id, Profile>, closed: bool, scope: Scope)
    requires Distinct(order) && Keyed(profiles) && !NothingStops(order, d, profiles, scope)
    ensures var r := Select(order, d, profiles, closed, scope, None);
      if closed then r == Err(ManagerClosed) && order != []
      else if StopsAt(order, d, profiles, scope, true)
      then r == Err(ProviderMismatch) && !StopsAt(order, d, profiles, scope, false)
      else r == Err(ConnectionUnknown) && StopsAt(order, d, profiles, scope, false)
  {
    var first := SomeFirstStop(order, d, profiles, scope);
    if closed {
      ClosedCollect(order, d, profiles, scope);
    } else {
      forall k | FirstStop(order, d, profiles, scope, k)
        ensures Collect(order, d, profiles, false, scope)
             == Err(if order[k] in profiles then ProviderMismatch else ConnectionUnknown)
      {
        StoppedCollect(order, d, profiles, scope, k);
      }
    }
  }

  // Bindings that differ only in connections that lose to a common one, which
  // are disabled, out of scope or strictly less specific, lead to the same
  // result: the same connection, or the same ambiguity.
  lemma LosersAreIrrelevant(order: seq<Id>, other: seq<Id>, d: Descriptor, profiles: map<Id, Profile>, closed: bool,
                            scope: Scope, w: Id)
    requires Distinct(order) && Distinct(other) && Keyed(profiles)
    requires NothingStops(order, d, profiles, scope) && NothingStops(other, d, profiles, scope)
    requires w in order && w in other && Usable(profiles, w, scope)
    requires forall id :: (id in order) != (id in other) && Usable(profiles, id, scope) ==>
      Specificity(profiles[id]) < Specificity(profiles[w])
    ensures Select(other, d, profiles, closed, scope, None) == Select(order, d, profiles, closed, scope, None)
  {
    forall c ensures Wins(order, profiles, scope, c) <==> Wins(other, profiles, scope, c) {
      SameWinner(order, other, profiles, scope, w, c);
      SameWinner(other, order, profiles, scope, w, c);
    }
    if closed {
      ClosedCollect(order, d, profiles, scope);
      ClosedCollect(other, d, profiles, scope);
    } else if c :| Wins(order, profiles, scope, c) {
      SelectsIff(order, d, profiles, closed, scope, c);
      SelectsIff(other, d, profiles, closed, scope, c);
      SelectedIsAuthorized(order, d, profiles, closed, scope, None);
      SelectedIsAuthorized(other, d, profiles, closed, scope, None);
    } else {
      RefusalsMean(order, d, profiles, closed, scope);
      RefusalsMean(other, d, profiles, closed, scope);
    }
  }

  lemma SameWinner(order: seq<Id>, other: seq<Id>, profiles: map<Id, Profile>, scope: Scope, w: Id, c: Id)
    requires w in order && w in other && Usable(profiles, w, scope)
    requires forall id :: (id in order) != (id in other) && Usable(profiles, id, scope) ==>
      Specificity(profiles[id]) < Specificity(profiles[w])
    ensures Wins(order, profiles, scope, c) ==> Wins(other, profiles, scope, c)
  {
  }

  // The connection a selection would settle on, named or implied.
  predicate Chosen(order: seq<Id>, d: Descriptor, profiles: map<Id, Profile>, closed: bool, scope: Scope,
                   explicit: Option<Id>, c: Id)
  {
    && !closed && c in order && Usable(profiles, c, scope) && profiles[c].provider == d.provider
    && match explicit
       case Some(id) => id == c
       case None => NothingStops(order, d, profiles, scope) && Wins(order, profiles, scope, c)
  }

  lemma SelectedIffChosen(order: seq<Id>, d: Descriptor, profiles: map<Id, Profile>, closed: bool, scope: Scope,
                          explicit: Option<Id>)
    requires Distinct(order) && Keyed(profiles)
    ensures forall c :: Chosen(order, d, profiles, closed, scope, explicit, c) <==>
      Select(order, d, profiles, closed, scope, explicit).Ok?
      && Select(order, d, profiles, closed, scope, explicit).value.connectionId == c
  {
    if explicit.None? {
      forall c ensures Chosen(order, d, profiles, closed, scope, explicit, c) <==>
        Select(order, d, profiles, closed, scope, explicit).Ok?
        && Select(order, d, profiles, closed, scope, explicit).value.connectionId == c
      {
        SelectsIff(order, d, profiles, closed, scope, c);
      }
    }
  }

  // The 4/2/1 score orders profiles by business, then project, then brand scope.
  lemma SpecificityIsLexicographic(p: Profile, q: Profile)
    ensures Specificity(p) < Specificity(q) <==>
      || (p.businessId.None? && q.businessId.Some?)
      || (p.businessId.Some? == q.businessId.Some? && |p.projectIds| == 0 && |q.projectIds| > 0)
      || (p.businessId.Some? == q.businessId.Some? && (|p.projectIds| > 0) == (|q.projectIds| > 0)
          && |p.brandIds| == 0 && |q.brandIds| > 0)
  {
  }

  // ----- What each status says -----

  // Why a selection can fail.
  datatype Reasons = Reasons(
    unbound: bool, shut: bool, unknown: bool, mismatch: bool, disabled: bool, denied: bool, ambiguous: bool)

  predicate Refuses(r: Result<Profile, SelectError>, why: Reasons) {
    && (r == Err(NotBound) <==> why.unbound)
    && (r == Err(ManagerClosed) <==> why.shut)
    && (r == Err(ConnectionUnknown) <==> why.unknown)
    && (r == Err(ProviderMismatch) <==> why.mismatch)
    && (r == Err(AllDisabled) <==> why.disabled)
    && (r == Err(NoneInScope) <==> why.denied)
    && (r == Err(Ambiguous) <==> why.ambiguous)
  }

  // A missing binding stands for two of the reasons; two are raised as errors.
  predicate Reports(r: Result<AuthorityState, StatusError>, why: Reasons) {
    && (r == Ok(MissingBinding) <==> why.unbound || why.mismatch)
    && (r == Err(StatusClosed) <==> why.shut)
    && (r == Err(Unregistered) <==> why.unknown)
    && (r == Ok(ConnectionDisabled) <==> why.disabled)
    && (r == Ok(ScopeIsDenied) <==> why.denied)
    && (r == Ok(AmbiguousBinding) <==> why.ambiguous)
  }

  // For the connection that was asked for by name.
  function NamedReasons(order: seq<Id>, d: Descriptor, profiles: map<Id, Profile>, closed: bool, scope: Scope,
                        id: Id): Reasons
  {
    var here := id in order && !closed;
    Reasons(id !in order, id in order && closed, here && id !in profiles,
            here && Usable(profiles, id, scope) && profiles[id].provider != d.provider,
            here && IsDisabled(profiles, id), here && IsDenied(profiles, id, scope), false)
  }

  predicate NoneEnabled(order: seq<Id>, profiles: map<Id, Profile>) {
    forall id :: id in order ==> IsDisabled(profiles, id)
  }

  predicate SomeUsable(order: seq<Id>, profiles: map<Id, Profile>, scope: Scope) {
    exists id :: id in order && Usable(profiles, id, scope)
  }

  predicate SomeDenied(order: seq<Id>, profiles: map<Id, Profile>, scope: Scope) {
    exists id :: id in order && IsDenied(profiles, id, scope)
  }

  predicate SomeWins(order: seq<Id>, profiles: map<Id, Profile>, scope: Scope) {
    exists id :: id in order && Wins(order, profiles, scope, id)
  }

  // For all the bound connections, none asked for.
  function ImpliedReasons(order: seq<Id>, d: Descriptor, profiles: map<Id, Profile>, closed: bool, scope: Scope):
    Reasons
  {
    var sound := !closed && NothingStops(order, d, profiles, scope);
    Reasons(order == [], closed && order != [],
            !closed && StopsAt(order, d, profiles, scope, false), !closed && StopsAt(order, d, profiles, scope, true),
            sound && order != [] && NoneEnabled(order, profiles),
            sound && !SomeUsable(order, profiles, scope) && SomeDenied(order, profiles, scope),
            sound && SomeUsable(order, profiles, scope) && !SomeWins(order, profiles, scope))
  }

  function ReasonsFor(order: seq<Id>, d: Descriptor, profiles: map<Id, Profile>, closed: bool, scope: Scope,
                      explicit: Option<Id>): Reasons
  {
    match explicit
    case Some(id) => NamedReasons(order, d, profiles, closed, scope, id)
    case None => ImpliedReasons(order, d, profiles, closed, scope)
  }

  // Every state that is not a configured connection, as an if-and-only-if.
  predicate StatusMeans(order: seq<Id>, d: Descriptor, profiles: map<Id, Profile>, closed: bool, scope: Scope,
                        explicit: Option<Id>, r: Result<AuthorityState, StatusError>)
  {
    && (r == Ok(ConnectorDisabled) <==> d.disabled)
    && (r == Ok(LocalAvailable) <==> !d.disabled && !d.requiresConnection)
    && (!d.disabled && d.requiresConnection ==>
          Reports(r, ReasonsFor(order, d, profiles, closed, scope, explicit)))
  }

  lemma NamedRefusals(order: seq<Id>, d: Descriptor, profiles: map<Id, Profile>, closed: bool, scope: Scope, id: Id)
    requires Keyed(profiles)
    ensures Refuses(Select(order, d, profiles, closed, scope, Some(id)),
                    NamedReasons(order, d, profiles, closed, scope, id))
  {
  }

  lemma ImpliedRefusals(order: seq<Id>, d: Descriptor, profiles: map<Id, Profile>, closed: bool, scope: Scope)
    requires Distinct(order) && Keyed(profiles)
    ensures Refuses(Select(order, d, profiles, closed, scope, None), ImpliedReasons(order, d, profiles, closed, scope))
  {
    RefusalsMean(order, d, profiles, closed, scope);
    if NothingStops(order, d, profiles, scope) {
      EnabledTerms(order, d, profiles, scope);
      WinnerTerms(order, profiles, scope);
    }
  }

  lemma EnabledTerms(order: seq<Id>, d: Descriptor, profiles: map<Id, Profile>, scope: Scope)
    requires NothingStops(order, d, profiles, scope)
    ensures forall id :: id in order ==> id in profiles
    ensures NoneEnabled(order, profiles) <==> forall id :: id in order ==> !profiles[id].enabled
    ensures !SomeUsable(order, profiles, scope) ==>
      (SomeDenied(order, profiles, scope) <==> exists id :: id in order && profiles[id].enabled)
  {
    forall id | id in order ensures id in profiles { assert !Stops(d, profiles, scope, id); }
    if !SomeUsable(order, profiles, scope) {
      forall id | id in order ensures IsDenied(profiles, id, scope) <==> profiles[id].enabled {
        assert !Usable(profiles, id, scope);
      }
    }
  }

  lemma WinnerTerms(order: seq<Id>, profiles: map<Id, Profile>, scope: Scope)
    ensures SomeUsable(order, profiles, scope) <==> !(forall id :: id in order ==> !Usable(profiles, id, scope))
    ensures SomeWins(order, profiles, scope) <==> !(forall id :: !Wins(order, profiles, scope, id))
  {
  }

  lemma RefusalIsReported(selected: Result<Profile, SelectError>, why: Reasons)
    requires Refuses(selected, why)
    ensures Reports(SelectionStatus(selected), why)
  {
  }

  lemma StatusMeaning(order: seq<Id>, d: Descriptor, profiles: map<Id, Profile>, closed: bool, scope: Scope,
                      explicit: Option<Id>)
    requires Distinct(order) && Keyed(profiles)
    ensures StatusMeans(order, d, profiles, closed, scope, explicit,
                        Status(d, Select(order, d, profiles, closed, scope, explicit)))
  {
    match explicit {
      case Some(id) => NamedRefusals(order, d, profiles, closed, scope, id);
      case None => ImpliedRefusals(order, d, profiles, closed, scope);
    }
    RefusalIsReported(Select(order, d, profiles, closed, scope, explicit),
                      ReasonsFor(order, d, profiles, closed, scope, explicit));
  }

  // ----- Status and execution agree -----

  lemma {:induction false} CollectedAreAuthorized(order: seq<Id>, d: Descriptor, profiles: map<Id, Profile>,
                                                  closed: bool, scope: Scope, i: nat)
    requires Keyed(profiles)
    requires Collect(order, d, profiles, closed, scope).Ok?
    requires i < |Collect(order, d, profiles, closed, scope).value.profiles|
    ensures var p := Collect(order, d, profiles, closed, scope).value.profiles[i];
      Authorize(profiles, closed, p.connectionId, scope) == Ok(p) && p.provider == d.provider
  {
    var n := |order| - 1;
    var before := Collect(order[..n], d, profiles, closed, scope).value.profiles;
    if i < |before| {
      CollectedAreAuthorized(order[..n], d, profiles, closed, scope, i);
    }
  }

  lemma {:induction false} WithScoreIsFrom(ps: seq<Profile>, score: nat, i: nat)
    requires i < |WithScore(ps, score)|
    ensures WithScore(ps, score)[i] in ps
  {
    var n := |ps| - 1;
    if i < |WithScore(ps[..n], score)| { WithScoreIsFrom(ps[..n], score, i); }
  }

  // Whatever the state, a selected profile is authorized for that very scope.
  lemma SelectedIsAuthorized(order: seq<Id>, d: Descriptor, profiles: map<Id, Profile>, closed: bool, scope: Scope,
                             explicit: Option<Id>)
    requires Keyed(profiles)
    ensures var r := Select(order, d, profiles, closed, scope, explicit);
      r.Ok? ==>
        Authorize(profiles, closed, r.value.connectionId, scope) == Ok(r.value) && r.value.provider == d.provider
  {
    var r := Select(order, d, profiles, closed, scope, explicit);
    if r.Ok? && explicit.None? {
      var ps := Collect(order, d, profiles, closed, scope).value.profiles;
      WithScoreIsFrom(ps, BestScore(ps), 0);
      var i :| 0 <= i < |ps| && ps[i] == r.value;
      CollectedAreAuthorized(order, d, profiles, closed, scope, i);
    }
  }

  // The status names a configured connection exactly when execution would get
  // as far as reading that connection's secret.
  lemma StatusMatchesResolution(order: seq<Id>, d: Descriptor, profiles: map<Id, Profile>, closed: bool, scope: Scope,
                                explicit: Option<Id>, c: Id)
    requires Keyed(profiles)
    ensures var selected := Select(order, d, profiles, closed, scope, explicit);
      var resolution := Resolve(d, selected, profiles, closed, scope);
      Status(d, selected) == Ok(ConfiguredUnverified(c)) <==>
        resolution.SecretLookup? && resolution.connection == c && c in profiles
        && resolution.secretRef == profiles[c].secretRef
  {
    SelectedIsAuthorized(order, d, profiles, closed, scope, explicit);
  }
}
