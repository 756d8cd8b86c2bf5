// The profile constructor, its safe dictionary, and the database row that
// carries it (connections/models.py and the row codec of connections/manager.py).
module ConnectionProfiles {
  import opened Foundation
  import opened ConnectionModels
  import EnvLoader

  datatype Profile = Profile(
    connectionId: Id, provider: string, displayName: string, secretRef: string, endpoint: Option<string>,
    enabled: bool, businessId: Option<Id>, projectIds: seq<Id>, brandIds: seq<Id>, metadata: Value)

  datatype ProfileError = EmptyField | BadSecretRef | SensitiveField | NotAMapping

  const MARKERS: seq<string> := [
    "api_key", "apikey", "access_token", "refresh_token", "client_secret", "password", "passwd", "authorization",
    "bearer", "private_key", "secret_key", "secret_value", "credential", "token", "secret"]

  function Normalized(key: string): (r: string)
    ensures |r| == |key|
  {
    seq(|key|, i requires 0 <= i < |key| =>
      if 'A' <= key[i] <= 'Z' then (key[i] as int + 32) as char
      else if key[i] == '-' || key[i] == ' ' then '_'
      else key[i])
  }

  // No marker starts or ends with an underscore, so stripping first changes nothing.
  predicate IsSensitive(key: string) {
    exists i, j :: 0 <= i < |MARKERS| && 0 <= j <= |key| && MARKERS[i] <= Normalized(key)[j..]
  }

  predicate Public(v: Value) {
    match v
    case Mapping(_, m) => forall k | k in m :: !IsSensitive(k) && Public(m[k])
    case Sequence(_, s) => forall i | 0 <= i < |s| :: Public(s[i])
    case Group(_, g) => forall x | x in g :: Public(x)
    case _ => true
  }

  predicate IsLetter(c: char) { 'a' <= c <= 'z' || 'A' <= c <= 'Z' }

  // scheme ":" locator, as the source's pattern has it.
  predicate IsSecretRef(s: string) {
    var i := EnvLoader.IndexOf(s, ':');
    && 1 <= i && i + 1 < |s|
    && IsLetter(s[0])
    && (forall j :: 0 <= j < i ==> IsLetter(s[j]) || '0' <= s[j] <= '9' || s[j] == '+' || s[j] == '.' || s[j] == '-')
    && s[i + 1] != ':'
    && forall j :: i < j < |s| ==> !EnvLoader.IsSpace(s[j])
  }

  // A scheme is a letter followed by letters, digits and "+", ".", "-".
  predicate IsScheme(s: string) {
    && |s| > 0 && IsLetter(s[0])
    && forall j :: 0 <= j < |s| ==> IsLetter(s[j]) || '0' <= s[j] <= '9' || s[j] in "+.-"
  }

  // A locator is anything without space that does not start with a colon.
  predicate IsLocator(s: string) {
    |s| > 0 && s[0] != ':' && forall j :: 0 <= j < |s| ==> !EnvLoader.IsSpace(s[j])
  }

  ghost predicate SplitsAsRef(s: string, scheme: string, locator: string) {
    s == scheme + [':'] + locator && IsScheme(scheme) && IsLocator(locator)
  }

  lemma SecretRefIff(s: string)
    ensures IsSecretRef(s) <==> exists scheme, locator :: SplitsAsRef(s, scheme, locator)
  {
    var i := EnvLoader.IndexOf(s, ':');
    if IsSecretRef(s) {
      assert s == s[..i] + [':'] + s[i + 1..];
      assert SplitsAsRef(s, s[..i], s[i + 1..]);
    }
    if exists scheme, locator :: SplitsAsRef(s, scheme, locator) {
      var scheme, locator :| SplitsAsRef(s, scheme, locator);
      SplitIsFirstColon(s, scheme, locator);
    }
  }

  lemma SplitIsFirstColon(s: string, scheme: string, locator: string)
    requires SplitsAsRef(s, scheme, locator)
    ensures IsSecretRef(s)
  {
    var n := |scheme|;
    assert s[n] == ':' && s[n + 1..] == locator && s[..n] == scheme;
    forall j | 0 <= j < n ensures s[j] == scheme[j] && s[j] != ':' { }
    assert EnvLoader.IndexOf(s, ':') == n;
    forall j | n < j < |s| ensures !EnvLoader.IsSpace(s[j]) { assert s[j] == locator[j - n - 1]; }
    assert s[n + 1] == locator[0];
  }

  // The same character but for case, and for hyphen, space and underscore.
  predicate Alike(c: char, d: char) {
    || c == d
    || ('A' <= c <= 'Z' && d as int == c as int + 32)
    || ('A' <= d <= 'Z' && c as int == d as int + 32)
    || (c in "- _" && d in "- _")
  }

  predicate AllAlike(k: string, l: string) {
    |k| == |l| && forall i :: 0 <= i < |k| ==> Alike(k[i], l[i])
  }

  predicate IsNormal(m: string) {
    forall k :: 0 <= k < |m| ==> !('A' <= m[k] <= 'Z') && m[k] != '-' && m[k] != ' '
  }

  predicate StandsAt(m: string, key: string, j: nat) {
    j + |m| <= |key| && AllAlike(m, key[j..j + |m|])
  }

  // Such text starts the normalised key there exactly if it stands there.
  lemma NormalPrefixIff(m: string, key: string, j: nat)
    requires IsNormal(m) && j <= |key|
    ensures m <= Normalized(key)[j..] <==> StandsAt(m, key, j)
  {
    if m <= Normalized(key)[j..] {
      forall k | 0 <= k < |m| ensures Alike(m[k], key[j..j + |m|][k]) {
        assert Normalized(key)[j..][k] == m[k] && key[j..j + |m|][k] == key[j + k];
      }
    }
    if StandsAt(m, key, j) {
      forall k | 0 <= k < |m| ensures Normalized(key)[j..][k] == m[k] {
        assert Alike(m[k], key[j..j + |m|][k]) && key[j..j + |m|][k] == key[j + k];
      }
    }
  }

  // A key is sensitive exactly if, up to that, a marker stands somewhere in it.
  lemma SensitiveIff(key: string)
    ensures IsSensitive(key) <==>
      exists i, j :: 0 <= i < |MARKERS| && 0 <= j <= |key| && StandsAt(MARKERS[i], key, j)
  {
    if IsSensitive(key) {
      var i, j :| 0 <= i < |MARKERS| && 0 <= j <= |key| && MARKERS[i] <= Normalized(key)[j..];
      MarkersAreNormal(i);
      NormalPrefixIff(MARKERS[i], key, j);
    }
    if exists i, j :: 0 <= i < |MARKERS| && 0 <= j <= |key| && StandsAt(MARKERS[i], key, j) {
      var i, j :| 0 <= i < |MARKERS| && 0 <= j <= |key| && StandsAt(MARKERS[i], key, j);
      MarkersAreNormal(i);
      NormalPrefixIff(MARKERS[i], key, j);
    }
  }

  lemma MarkersAreNormal(i: nat)
    requires i < |MARKERS|
    ensures IsNormal(MARKERS[i])
  {
  }

  predicate Blank(s: string) { |EnvLoader.Strip(s)| == 0 }

  // __post_init__ on the given fields.
  function NewProfile(raw: Profile): Result<Profile, ProfileError> {
    if Blank(raw.connectionId) || Blank(raw.provider) || Blank(raw.displayName) || Blank(raw.secretRef) then
      Err(EmptyField)
    else if !IsSecretRef(raw.secretRef) then Err(BadSecretRef)
    else if !Public(raw.metadata) then Err(SensitiveField)
    else if !raw.metadata.Mapping? then Err(NotAMapping)
    else Ok(raw.(projectIds := Dedupe(raw.projectIds), brandIds := Dedupe(raw.brandIds),
                 metadata := Freeze(raw.metadata)))
  }

  // A profile some constructor call returned.
  predicate ValidProfile(p: Profile) {
    && !Blank(p.connectionId) && !Blank(p.provider) && !Blank(p.displayName) && !Blank(p.secretRef)
    && IsSecretRef(p.secretRef) && Public(p.metadata) && p.metadata.Mapping? && Frozen(p.metadata)
    && Distinct(p.projectIds) && Distinct(p.brandIds)
  }

  lemma {:induction false} FreezePublic(v: Value)
    ensures Public(v) ==> Public(Freeze(v))
  {
    match v {
      case Mapping(_, m) => forall k | k in m ensures Public(m[k]) ==> Public(Freeze(m[k])) { FreezePublic(m[k]); }
      case Sequence(_, s) =>
        forall i | 0 <= i < |s| ensures Public(s[i]) ==> Public(Freeze(s[i])) { FreezePublic(s[i]); }
      case Group(_, g) => forall x | x in g ensures Public(x) ==> Public(Freeze(x)) { FreezePublic(x); }
      case _ =>
    }
  }

  lemma {:induction false} ThawPublic(v: Value, repr: Value -> string)
    requires Frozen(v) && Public(v)
    ensures Public(Thaw(v, repr))
    decreases v
  {
    match v {
      case Mapping(_, m) => forall k | k in m ensures Public(Thaw(m[k], repr)) { ThawPublic(m[k], repr); }
      case Sequence(_, s) => forall i | 0 <= i < |s| ensures Public(Thaw(s[i], repr)) { ThawPublic(s[i], repr); }
      case Group(_, g) =>
        forall x | x in g ensures Public(Thaw(x, repr)) { ThawPublic(x, repr); }
        PublicGroup(g, repr);
      case _ =>
    }
  }

  lemma PublicGroup(g: set<Value>, repr: Value -> string)
    requires forall x | x in g :: Public(Thaw(x, repr))
    ensures Public(Thaw(Group(true, g), repr))
  {
    GroupThaws(g, repr);
    var list := SortedList(ThawedMembers(g, repr), repr);
    SortedListMembers(ThawedMembers(g, repr), repr);
    forall i | 0 <= i < |list| ensures Public(list[i]) {
      assert list[i] in ThawedMembers(g, repr).Values;
    }
  }

  predicate AnyBlank(raw: Profile) {
    Blank(raw.connectionId) || Blank(raw.provider) || Blank(raw.displayName) || Blank(raw.secretRef)
  }

  // Which fields the constructor accepts, which it changes, and what each
  // error says is wrong.
  lemma NewProfileMeans(raw: Profile)
    ensures var r := NewProfile(raw);
      && (r.Ok? <==>
            !AnyBlank(raw) && IsSecretRef(raw.secretRef) && Public(raw.metadata) && raw.metadata.Mapping?)
      && (r == Err(EmptyField) <==> AnyBlank(raw))
      && (r == Err(BadSecretRef) <==> !AnyBlank(raw) && !IsSecretRef(raw.secretRef))
      && (r == Err(SensitiveField) ==> !Public(raw.metadata))
      && (r == Err(NotAMapping) ==> !raw.metadata.Mapping?)
      && (r.Ok? ==>
            var p := r.value;
            && p == raw.(projectIds := p.projectIds, brandIds := p.brandIds, metadata := p.metadata)
            && Distinct(p.projectIds) && Elems(p.projectIds) == Elems(raw.projectIds)
            && Distinct(p.brandIds) && Elems(p.brandIds) == Elems(raw.brandIds)
            && Frozen(p.metadata) && (Frozen(raw.metadata) ==> p.metadata == raw.metadata))
  {
    DedupeMeaning(raw.projectIds);
    DedupeMeaning(raw.brandIds);
    FreezeFreezes(raw.metadata);
    if Frozen(raw.metadata) { FrozenIsFixed(raw.metadata); }
  }

  // The constructor returns valid profiles and accepts each of those unchanged,
  // so replacing a field re-validates: with_updates never fails on `enabled`.
  lemma ConstructorIsStable(raw: Profile, enabled: bool)
    ensures NewProfile(raw).Ok? ==> ValidProfile(NewProfile(raw).value)
    ensures ValidProfile(raw) ==> NewProfile(raw.(enabled := enabled)) == Ok(raw.(enabled := enabled))
  {
    FreezePublic(raw.metadata);
    FreezeFreezes(raw.metadata);
    DedupeMeaning(raw.projectIds);
    DedupeMeaning(raw.brandIds);
    if ValidProfile(raw) { FrozenIsFixed(raw.metadata); }
  }

  // ----- The safe dictionary and its row -----

  datatype SafeDict = SafeDict(
    connectionId: Id, provider: string, displayName: string, secretRef: string, endpoint: Option<string>,
    enabled: bool, businessId: Option<Id>, projectIds: seq<Id>, brandIds: seq<Id>, metadata: Value)

  ghost function ToSafeDict(p: Profile, repr: Value -> string): SafeDict {
    SafeDict(p.connectionId, p.provider, p.displayName, p.secretRef, p.endpoint, p.enabled, p.businessId,
             p.projectIds, p.brandIds, Thaw(p.metadata, repr))
  }

  // JSON text is taken as what it parses to; anything else is garbage.
  datatype Payload = Doc(dict: SafeDict) | Garbage(text: string)

  // Equal digests only of equal payloads.
  datatype Digest = Sha256(payload: Payload)

  datatype Row = Row(provider: string, payload: Payload, hash: Digest)

  datatype StoreError = HashMismatch | PayloadInvalid | IndexMismatch | SecretReferenceUnsupported

  predicate JsonAble(v: Value) {
    match v
    case Mapping(_, m) => forall k | k in m :: JsonAble(m[k])
    case Sequence(_, s) => forall i | 0 <= i < |s| :: JsonAble(s[i])
    case Opaque(_) => false
    case Group(_, _) => false
    case _ => true
  }

  // json.dumps raises on a leaf that JSON has no form for.
  ghost function Encode(p: Profile, repr: Value -> string): Option<Row> {
    if !JsonAble(Thaw(p.metadata, repr)) then None
    else
      var payload := Doc(ToSafeDict(p, repr));
      Some(Row(p.provider, payload, Sha256(payload)))
  }

  function Decode(id: Id, row: Row): Result<Profile, StoreError> {
    if row.hash != Sha256(row.payload) then Err(HashMismatch)
    else match row.payload
      case Garbage(_) => Err(PayloadInvalid)
      case Doc(d) =>
        match NewProfile(Profile(d.connectionId, d.provider, d.displayName, d.secretRef, d.endpoint, d.enabled,
                                 d.businessId, d.projectIds, d.brandIds, d.metadata))
        case Err(_) => Err(PayloadInvalid)
        case Ok(p) => if p.connectionId != id || p.provider != row.provider then Err(IndexMismatch) else Ok(p)
  }

  // The profile a stored dictionary stands for.
  function Raw(d: SafeDict): Profile {
    Profile(d.connectionId, d.provider, d.displayName, d.secretRef, d.endpoint, d.enabled, d.businessId,
            d.projectIds, d.brandIds, d.metadata)
  }

  // When a row loads, and what each error says is wrong with it.
  lemma DecodeMeans(id: Id, row: Row)
    ensures var r := Decode(id, row);
      var loads := row.hash == Sha256(row.payload);
      var builds := loads && row.payload.Doc? && NewProfile(Raw(row.payload.dict)).Ok?;
      && (r == Err(HashMismatch) <==> !loads)
      && (r == Err(PayloadInvalid) <==> loads && !builds)
      && (r == Err(IndexMismatch) <==>
            builds && (row.payload.dict.connectionId != id || row.payload.dict.provider != row.provider))
      && (r.Ok? ==> builds && NewProfile(Raw(row.payload.dict)).value == r.value && r.value.connectionId == id)
      && (r.Err? ==> r.error != SecretReferenceUnsupported)
  {
    if row.payload.Doc? { NewProfileMeans(Raw(row.payload.dict)); }
  }

  // A stored profile always loads, with the same safe dictionary; it is the
  // very same profile exactly when its metadata holds no set.
  lemma DecodeInvertsEncode(p: Profile, repr: Value -> string)
    requires ValidProfile(p) && Encode(p, repr).Some?
    ensures var q := Decode(p.connectionId, Encode(p, repr).value);
      && q.Ok? && ValidProfile(q.value)
      && ToSafeDict(q.value, repr) == ToSafeDict(p, repr)
      && (q.value == p <==> NoGroups(p.metadata))
  {
    ThawPublic(p.metadata, repr);
    ThawFreezeThaw(p.metadata, repr);
    FreezeThawExactIff(p.metadata, repr);
    DedupeMeaning(p.projectIds);
    DedupeMeaning(p.brandIds);
    var d := ToSafeDict(p, repr);
    ConstructorIsStable(Profile(d.connectionId, d.provider, d.displayName, d.secretRef, d.endpoint, d.enabled,
                                d.businessId, d.projectIds, d.brandIds, d.metadata), true);
  }
}
