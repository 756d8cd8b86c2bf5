// Connection profiles of connections/models.py: public metadata is frozen on
// construction and thawed for the safe dictionary.
module ConnectionModels {
  import opened Foundation

  // A metadata value. A mapping is a dict or its read-only proxy, a sequence a
  // list or a tuple, a group a set or a frozenset; a finite float is the text
  // repr gives it, and Opaque is any other object.
  datatype Value =
    | Null
    | Bool(b: bool)
    | Int(n: int)
    | Float(digits: string)
    | Text(text: string)
    | Opaque(tag: int)
    | Mapping(frozen: bool, entries: map<string, Value>)
    | Sequence(frozen: bool, items: seq<Value>)
    | Group(frozen: bool, members: set<Value>)

  function Freeze(v: Value): Value {
    match v
    case Mapping(_, m) => Mapping(true, map k | k in m :: Freeze(m[k]))
    case Sequence(_, s) => Sequence(true, seq(|s|, i requires 0 <= i < |s| => Freeze(s[i])))
    case Group(_, g) => Group(true, set x | x in g :: Freeze(x))
    case _ => v
  }

  // ----- Sorting by repr -----

  predicate Lex(a: string, b: string) {
    |a| == 0 || (|b| > 0 && (a[0] < b[0] || (a[0] == b[0] && Lex(a[1..], b[1..]))))
  }

  lemma {:induction false} LexTotal(a: string, b: string)
    ensures Lex(a, b) || Lex(b, a)
  {
    if |a| > 0 && |b| > 0 { LexTotal(a[1..], b[1..]); }
  }

  lemma {:induction false} LexTransitive(a: string, b: string, c: string)
    requires Lex(a, b) && Lex(b, c)
    ensures Lex(a, c)
  {
    if |a| > 0 && a[0] == b[0] == c[0] { LexTransitive(a[1..], b[1..], c[1..]); }
  }

  function Key(keys: map<Value, string>, x: Value): string { if x in keys then keys[x] else "" }

  ghost predicate Least(x: Value, g: set<Value>, keys: map<Value, string>) {
    forall y | y in g :: Lex(Key(keys, x), Key(keys, y))
  }

  lemma {:induction false} LeastExists(g: set<Value>, keys: map<Value, string>) returns (x: Value)
    requires g != {}
    ensures x in g && Least(x, g, keys)
  {
    var first :| first in g;
    var rest := g - {first};
    assert g == rest + {first};
    LexTotal(Key(keys, first), Key(keys, first));
    if rest == {} { return first; }
    var y := LeastExists(rest, keys);
    LexTotal(Key(keys, first), Key(keys, y));
    if Lex(Key(keys, y), Key(keys, first)) { return y; }
    forall z | z in rest ensures Lex(Key(keys, first), Key(keys, z)) {
      LexTransitive(Key(keys, first), Key(keys, y), Key(keys, z));
    }
    x := first;
  }

  ghost predicate InOrder(s: seq<Value>, keys: map<Value, string>) {
    forall i, j :: 0 <= i < j < |s| ==> Lex(Key(keys, s[i]), Key(keys, s[j]))
  }

  lemma LeastFirst(x: Value, g: set<Value>, rest: seq<Value>, keys: map<Value, string>)
    requires x in g && Least(x, g, keys) && InOrder(rest, keys) && Elems(rest) == g - {x}
    ensures InOrder([x] + rest, keys) && Elems([x] + rest) == g
  {
    var s := [x] + rest;
    forall i, j | 0 <= i < j < |s| ensures Lex(Key(keys, s[i]), Key(keys, s[j])) {
      assert rest[j - 1] in Elems(rest);
    }
    ElemsAppend([x], rest);
    assert Elems([x]) == {x};
  }

  // sorted(g, key=...): each member once, in key order.
  ghost function SortByKey(g: set<Value>, keys: map<Value, string>): (r: seq<Value>)
    ensures |r| == |g| && Elems(r) == g && InOrder(r, keys)
    ensures forall i :: 0 <= i < |r| ==> r[i] in g
  {
    if g == {} then []
    else
      assert exists x :: x in g && Least(x, g, keys) by { var x := LeastExists(g, keys); }
      var x :| x in g && Least(x, g, keys);
      var rest := SortByKey(g - {x}, keys);
      LeastFirst(x, g, rest, keys);
      [x] + rest
  }

  // repr is any function of the thawed members; the sort only needs its order.
  ghost function Thaw(v: Value, repr: Value -> string): Value {
    match v
    case Mapping(_, m) => Mapping(false, map k | k in m :: Thaw(m[k], repr))
    case Sequence(frozen, s) =>
      if frozen then Sequence(false, seq(|s|, i requires 0 <= i < |s| => Thaw(s[i], repr))) else v
    case Group(frozen, g) =>
      if frozen then Sequence(false, SortedList(map x | x in g :: Thaw(x, repr), repr)) else v
    case _ => v
  }

  function Reprs(thawed: map<Value, Value>, repr: Value -> string): map<Value, string> {
    map x | x in thawed :: repr(thawed[x])
  }

  // The thawed members as a list sorted by their repr.
  ghost function SortedList(thawed: map<Value, Value>, repr: Value -> string): (r: seq<Value>)
    ensures |r| == |thawed.Keys|
  {
    var order := SortByKey(thawed.Keys, Reprs(thawed, repr));
    seq(|order|, i requires 0 <= i < |order| => thawed[order[i]])
  }

  lemma PickedMembers(order: seq<Value>, thawed: map<Value, Value>, r: seq<Value>, v: Value)
    requires Elems(order) == thawed.Keys && |r| == |order|
    requires forall i :: 0 <= i < |order| ==> order[i] in thawed && r[i] == thawed[order[i]]
    ensures v in r <==> v in thawed.Values
  {
    if v in thawed.Values {
      var x :| x in thawed && thawed[x] == v;
      assert x in Elems(order);
      var i :| 0 <= i < |order| && order[i] == x;
      assert r[i] == v;
    }
  }

  lemma SortedListMembers(thawed: map<Value, Value>, repr: Value -> string)
    ensures forall v :: v in SortedList(thawed, repr) <==> v in thawed.Values
  {
    var order := SortByKey(thawed.Keys, Reprs(thawed, repr));
    forall v ensures v in SortedList(thawed, repr) <==> v in thawed.Values {
      PickedMembers(order, thawed, SortedList(thawed, repr), v);
    }
  }

  lemma SortedListOrder(thawed: map<Value, Value>, repr: Value -> string)
    ensures var r := SortedList(thawed, repr);
      forall i, j :: 0 <= i < j < |r| ==> Lex(repr(r[i]), repr(r[j]))
  {
    var keys := Reprs(thawed, repr);
    var order := SortByKey(thawed.Keys, keys);
    var r := SortedList(thawed, repr);
    forall i, j | 0 <= i < j < |r| ensures Lex(repr(r[i]), repr(r[j])) {
      assert Key(keys, order[i]) == repr(r[i]) && Key(keys, order[j]) == repr(r[j]);
    }
  }

  // ----- Freezing and thawing -----

  lemma {:induction false} FreezeIdempotent(v: Value)
    ensures Freeze(Freeze(v)) == Freeze(v)
  {
    match v {
      case Mapping(_, m) =>
        forall k | k in m ensures Freeze(Freeze(m[k])) == Freeze(m[k]) { FreezeIdempotent(m[k]); }
        assert Freeze(Freeze(v)).entries == Freeze(v).entries;
      case Sequence(_, s) =>
        forall i | 0 <= i < |s| ensures Freeze(Freeze(s[i])) == Freeze(s[i]) { FreezeIdempotent(s[i]); }
        assert Freeze(Freeze(v)).items == Freeze(v).items;
      case Group(_, g) =>
        forall x | x in g ensures Freeze(Freeze(x)) == Freeze(x) { FreezeIdempotent(x); }
        assert Freeze(Freeze(v)).members == Freeze(v).members;
      case _ =>
    }
  }

  // Fully frozen, as every profile keeps its metadata.
  predicate Frozen(v: Value) {
    match v
    case Mapping(frozen, m) => frozen && forall k | k in m :: Frozen(m[k])
    case Sequence(frozen, s) => frozen && forall i | 0 <= i < |s| :: Frozen(s[i])
    case Group(frozen, g) => frozen && forall x | x in g :: Frozen(x)
    case _ => true
  }

  // Dicts, lists and scalars only: what JSON can hold, given scalars it can.
  predicate Thawed(v: Value) {
    match v
    case Mapping(frozen, m) => !frozen && forall k | k in m :: Thawed(m[k])
    case Sequence(frozen, s) => !frozen && forall i | 0 <= i < |s| :: Thawed(s[i])
    case Group(_, _) => false
    case _ => true
  }

  lemma {:induction false} FreezeFreezes(v: Value)
    ensures Frozen(Freeze(v))
  {
    match v {
      case Mapping(_, m) => forall k | k in m ensures Frozen(Freeze(m[k])) { FreezeFreezes(m[k]); }
      case Sequence(_, s) => forall i | 0 <= i < |s| ensures Frozen(Freeze(s[i])) { FreezeFreezes(s[i]); }
      case Group(_, g) => forall x | x in g ensures Frozen(Freeze(x)) { FreezeFreezes(x); }
      case _ =>
    }
  }

  lemma {:induction false} FrozenIsFixed(v: Value)
    requires Frozen(v)
    ensures Freeze(v) == v
  {
    match v {
      case Mapping(_, m) =>
        forall k | k in m ensures Freeze(m[k]) == m[k] { FrozenIsFixed(m[k]); }
        assert Freeze(v).entries == m;
      case Sequence(_, s) =>
        forall i | 0 <= i < |s| ensures Freeze(s[i]) == s[i] { FrozenIsFixed(s[i]); }
        assert Freeze(v).items == s;
      case Group(_, g) =>
        forall x | x in g ensures Freeze(x) == x { FrozenIsFixed(x); }
        assert Freeze(v).members == g;
      case _ =>
    }
  }

  lemma {:induction false} ThawThaws(v: Value, repr: Value -> string)
    requires Frozen(v)
    ensures Thawed(Thaw(v, repr))
    decreases v
  {
    match v {
      case Mapping(_, m) => forall k | k in m ensures Thawed(Thaw(m[k], repr)) { ThawThaws(m[k], repr); }
      case Sequence(_, s) => forall i | 0 <= i < |s| ensures Thawed(Thaw(s[i], repr)) { ThawThaws(s[i], repr); }
      case Group(_, g) =>
        forall x | x in g ensures Thawed(Thaw(x, repr)) { ThawThaws(x, repr); }
        SortedListMembers(map x | x in g :: Thaw(x, repr), repr);
      case _ =>
    }
  }

  ghost function ThawedMembers(g: set<Value>, repr: Value -> string): (m: map<Value, Value>)
    ensures m.Keys == g
  {
    map x | x in g :: Thaw(x, repr)
  }

  lemma GroupThaws(g: set<Value>, repr: Value -> string)
    ensures Thaw(Group(true, g), repr) == Sequence(false, SortedList(ThawedMembers(g, repr), repr))
  {
    assert ThawedMembers(g, repr) == map x | x in g :: Thaw(x, repr);
  }

  // A group becomes a list of its thawed members, one each, sorted by repr.
  lemma GroupBecomesSortedList(g: set<Value>, repr: Value -> string, list: seq<Value>)
    requires Thaw(Group(true, g), repr) == Sequence(false, list)
    ensures |list| == |g|
    ensures forall v :: v in list <==> v in ThawedMembers(g, repr).Values
    ensures forall i, j :: 0 <= i < j < |list| ==> Lex(repr(list[i]), repr(list[j]))
  {
    GroupThaws(g, repr);
    SortedListMembers(ThawedMembers(g, repr), repr);
    SortedListOrder(ThawedMembers(g, repr), repr);
  }

  lemma {:induction false} ThawUndoesFreeze(v: Value, repr: Value -> string)
    requires Thawed(v)
    ensures Thaw(Freeze(v), repr) == v
    decreases v
  {
    match v {
      case Mapping(_, m) =>
        forall k | k in m ensures Thaw(Freeze(m[k]), repr) == m[k] { ThawUndoesFreeze(m[k], repr); }
        assert Thaw(Freeze(v), repr).entries == m;
      case Sequence(_, s) =>
        forall i | 0 <= i < |s| ensures Thaw(Freeze(s[i]), repr) == s[i] { ThawUndoesFreeze(s[i], repr); }
        assert Thaw(Freeze(v), repr).items == s;
      case _ =>
    }
  }

  // Thawing, freezing and thawing again gives the first result.
  lemma {:induction false} ThawFreezeThaw(v: Value, repr: Value -> string)
    requires Frozen(v)
    ensures Thaw(Freeze(Thaw(v, repr)), repr) == Thaw(v, repr)
  {
    ThawThaws(v, repr);
    ThawUndoesFreeze(Thaw(v, repr), repr);
  }

  predicate NoGroups(v: Value) {
    match v
    case Mapping(_, m) => forall k | k in m :: NoGroups(m[k])
    case Sequence(_, s) => forall i | 0 <= i < |s| :: NoGroups(s[i])
    case Group(_, _) => false
    case _ => true
  }

  // What comes back after a thaw is the original exactly when no set is in it:
  // sets come back as tuples.
  lemma {:induction false} FreezeThawExactIff(v: Value, repr: Value -> string)
    requires Frozen(v)
    ensures Freeze(Thaw(v, repr)) == v <==> NoGroups(v)
    decreases v
  {
    match v {
      case Mapping(_, m) =>
        forall k | k in m ensures Freeze(Thaw(m[k], repr)) == m[k] <==> NoGroups(m[k]) {
          FreezeThawExactIff(m[k], repr);
        }
        MappingExact(v, repr);
      case Sequence(_, s) =>
        forall i | 0 <= i < |s| ensures Freeze(Thaw(s[i], repr)) == s[i] <==> NoGroups(s[i]) {
          FreezeThawExactIff(s[i], repr);
        }
        SequenceExact(v, repr);
      case _ =>
    }
  }

  lemma MappingExact(v: Value, repr: Value -> string)
    requires v.Mapping? && Frozen(v)
    requires forall k | k in v.entries :: Freeze(Thaw(v.entries[k], repr)) == v.entries[k] <==> NoGroups(v.entries[k])
    ensures Freeze(Thaw(v, repr)) == v <==> NoGroups(v)
  {
    var back := Freeze(Thaw(v, repr)).entries;
    assert back.Keys == v.entries.Keys;
    assert forall k | k in v.entries :: back[k] == Freeze(Thaw(v.entries[k], repr));
    SameEntries(back, v.entries);
  }

  lemma SequenceExact(v: Value, repr: Value -> string)
    requires v.Sequence? && Frozen(v)
    requires forall i | 0 <= i < |v.items| :: Freeze(Thaw(v.items[i], repr)) == v.items[i] <==> NoGroups(v.items[i])
    ensures Freeze(Thaw(v, repr)) == v <==> NoGroups(v)
  {
    var back := Freeze(Thaw(v, repr)).items;
    assert |back| == |v.items| && forall i | 0 <= i < |back| :: back[i] == Freeze(Thaw(v.items[i], repr));
    SameItems(back, v.items);
  }

  lemma SameEntries<K, V>(a: map<K, V>, b: map<K, V>)
    requires a.Keys == b.Keys
    ensures a == b <==> forall k | k in b :: a[k] == b[k]
  {
  }

  lemma SameItems<V>(a: seq<V>, b: seq<V>)
    requires |a| == |b|
    ensures a == b <==> forall i | 0 <= i < |b| :: a[i] == b[i]
  {
  }
}
