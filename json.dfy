/**
 * JSON documents as the reconcilers hold them after `json.loads`, the
 * key-sorted serialisation `json.dumps(..., sort_keys=True)` that both
 * `*_is_different` functions compare, and the meaning of a document (objects
 * as finite maps) against which that comparison is proved sound and complete.
 *
 * Numbers are integers only; a serialised document is represented by its
 * canonical form `Canon(j)`, since two canonical forms print to the same text
 * exactly when they are equal.
 */
module JsonDoc {
  import opened Wrappers

  datatype Json =
    | Null
    | Bool(b: bool)
    | Int(n: int)
    | Str(s: string)
    | Arr(items: seq<Json>)
    | Obj(members: seq<Member>)

  /** One key/value pair of an object; members are kept in insertion order. */
  datatype Member = Member(key: string, value: Json)

  /** What a document means once key order is forgotten: objects are finite maps. */
  datatype Value =
    | VNull
    | VBool(b: bool)
    | VInt(n: int)
    | VStr(s: string)
    | VList(items: seq<Value>)
    | VDict(entries: map<string, Value>)

  // ---------------------------------------------------------------------------
  // Python's ordering of `str` keys: lexicographic by code point, a proper
  // prefix first.
  // ---------------------------------------------------------------------------

  predicate KeyLess(a: string, b: string)
    decreases |a|
  {
    if a == [] then b != []
    else b != [] && (a[0] < b[0] || (a[0] == b[0] && KeyLess(a[1..], b[1..])))
  }

  lemma {:induction false} KeyLessIrreflexive(a: string)
    ensures !KeyLess(a, a)
    decreases |a|
  {
    if a != [] {
      KeyLessIrreflexive(a[1..]);
    }
  }

  lemma {:induction false} KeyLessTransitive(a: string, b: string, c: string)
    requires KeyLess(a, b) && KeyLess(b, c)
    ensures KeyLess(a, c)
    decreases |a|
  {
    if a != [] && a[0] == b[0] && b[0] == c[0] {
      KeyLessTransitive(a[1..], b[1..], c[1..]);
    }
  }

  lemma {:induction false} KeyLessTotal(a: string, b: string)
    requires a != b
    ensures KeyLess(a, b) || KeyLess(b, a)
    decreases |a|
  {
    if a != [] && b != [] && a[0] == b[0] {
      assert a == [a[0]] + a[1..] && b == [b[0]] + b[1..];
      KeyLessTotal(a[1..], b[1..]);
    }
  }

  lemma KeyLessAsymmetric(a: string, b: string)
    requires KeyLess(a, b)
    ensures !KeyLess(b, a)
  {
    if KeyLess(b, a) {
      KeyLessTransitive(a, b, a);
      KeyLessIrreflexive(a);
    }
  }

  // ---------------------------------------------------------------------------
  // Object members: keys, distinctness, sortedness, and the key sort that
  // `sort_keys=True` applies.
  // ---------------------------------------------------------------------------

  function Keys(ms: seq<Member>): set<string>
  {
    set i | 0 <= i < |ms| :: ms[i].key
  }

  /** A Python dict never holds one key twice. */
  predicate DistinctKeys(ms: seq<Member>)
  {
    forall i, j | 0 <= i < j < |ms| :: ms[i].key != ms[j].key
  }

  predicate StrictlySorted(ms: seq<Member>)
  {
    forall i, j | 0 <= i < j < |ms| :: KeyLess(ms[i].key, ms[j].key)
  }

  lemma KeysOfTail(ms: seq<Member>)
    requires ms != []
    ensures Keys(ms) == {ms[0].key} + Keys(ms[1..])
  {
    forall k | k in Keys(ms) ensures k in {ms[0].key} + Keys(ms[1..]) {
      var i :| 0 <= i < |ms| && ms[i].key == k;
      if i > 0 {
        assert ms[1..][i - 1].key == k;
      }
    }
    forall k | k in Keys(ms[1..]) ensures k in Keys(ms) {
      var i :| 0 <= i < |ms[1..]| && ms[1..][i].key == k;
      assert ms[i + 1].key == k;
    }
  }

  lemma NoKeysNoMembers(ms: seq<Member>)
    ensures Keys(ms) == {} <==> ms == []
  {
    if ms != [] {
      assert ms[0].key in Keys(ms);
    }
  }

  lemma KeysIncluded(a: seq<Member>, b: seq<Member>)
    requires multiset(a) <= multiset(b)
    ensures Keys(a) <= Keys(b)
  {
    forall k | k in Keys(a) ensures k in Keys(b) {
      var i :| 0 <= i < |a| && a[i].key == k;
      assert a[i] in multiset(a);
      assert a[i] in b;
      var j :| 0 <= j < |b| && b[j] == a[i];
    }
  }

  /** Reordering members never changes which keys an object has. */
  lemma KeysOfPermutation(a: seq<Member>, b: seq<Member>)
    requires multiset(a) == multiset(b)
    ensures Keys(a) == Keys(b)
  {
    KeysIncluded(a, b);
    KeysIncluded(b, a);
  }

  lemma SortedDistinct(ms: seq<Member>)
    requires StrictlySorted(ms)
    ensures DistinctKeys(ms)
  {
    forall i, j | 0 <= i < j < |ms| ensures ms[i].key != ms[j].key {
      KeyLessIrreflexive(ms[i].key);
    }
  }

  lemma DistinctTail(ms: seq<Member>)
    requires ms != [] && DistinctKeys(ms)
    ensures DistinctKeys(ms[1..]) && ms[0].key !in Keys(ms[1..])
  {
    forall k | k in Keys(ms[1..]) ensures k != ms[0].key {
      var i :| 0 <= i < |ms[1..]| && ms[1..][i].key == k;
      assert ms[i + 1].key == k;
    }
  }

  /** Puts `m` in front of the first member whose key is not below its own. */
  function InsertMember(m: Member, ms: seq<Member>): (r: seq<Member>)
    ensures multiset(r) == multiset(ms) + multiset{m}
  {
    if ms == [] || !KeyLess(ms[0].key, m.key) then [m] + ms
    else
      assert ms == [ms[0]] + ms[1..];
      [ms[0]] + InsertMember(m, ms[1..])
  }

  /** Orders an object's members by key, as `sort_keys=True` does. */
  function SortMembers(ms: seq<Member>): (r: seq<Member>)
    ensures multiset(r) == multiset(ms)
  {
    if ms == [] then []
    else
      assert ms == [ms[0]] + ms[1..];
      InsertMember(ms[0], SortMembers(ms[1..]))
  }

  lemma {:induction false} InsertSorted(m: Member, ms: seq<Member>)
    requires StrictlySorted(ms) && m.key !in Keys(ms)
    ensures StrictlySorted(InsertMember(m, ms))
    decreases |ms|
  {
    if ms == [] {
    } else if !KeyLess(ms[0].key, m.key) {
      assert ms[0].key in Keys(ms);
      KeyLessTotal(m.key, ms[0].key);
      var r := [m] + ms;
      forall i, j | 0 <= i < j < |r| ensures KeyLess(r[i].key, r[j].key) {
        if i == 0 && j > 1 {
          KeyLessTransitive(m.key, ms[0].key, ms[j - 1].key);
        }
      }
    } else {
      KeysOfTail(ms);
      var rest := InsertMember(m, ms[1..]);
      InsertSorted(m, ms[1..]);
      forall x | x in rest ensures KeyLess(ms[0].key, x.key) {
        assert x in multiset(rest);
        if x != m {
          assert x in ms[1..];
          var k :| 0 <= k < |ms[1..]| && ms[1..][k] == x;
          assert ms[k + 1] == x;
        }
      }
      var r := [ms[0]] + rest;
      forall i, j | 0 <= i < j < |r| ensures KeyLess(r[i].key, r[j].key) {
        if i == 0 {
          assert r[j] == rest[j - 1] && rest[j - 1] in rest;
        } else {
          assert r[i] == rest[i - 1] && r[j] == rest[j - 1];
        }
      }
    }
  }

  /** With distinct keys the sort leaves every key strictly below the next. */
  lemma {:induction false} SortSorted(ms: seq<Member>)
    requires DistinctKeys(ms)
    ensures StrictlySorted(SortMembers(ms))
    decreases |ms|
  {
    if ms != [] {
      DistinctTail(ms);
      SortSorted(ms[1..]);
      KeysOfPermutation(SortMembers(ms[1..]), ms[1..]);
      InsertSorted(ms[0], SortMembers(ms[1..]));
    }
  }

  /**
   * Two strictly sorted member lists over the same key set list the same keys
   * in the same places: the sorted order of a key set is unique.
   */
  lemma {:induction false} SortedSameKeys(a: seq<Member>, b: seq<Member>)
    requires StrictlySorted(a) && StrictlySorted(b) && Keys(a) == Keys(b)
    ensures |a| == |b|
    ensures forall i | 0 <= i < |a| :: a[i].key == b[i].key
    decreases |a|
  {
    NoKeysNoMembers(a);
    NoKeysNoMembers(b);
    if a != [] {
      assert a[0].key in Keys(a);
      assert b != [];
      assert b[0].key in Keys(b);
      var ia :| 0 <= ia < |b| && b[ia].key == a[0].key;
      var ib :| 0 <= ib < |a| && a[ib].key == b[0].key;
      if a[0].key != b[0].key {
        assert ia > 0 && ib > 0;
        KeyLessAsymmetric(b[0].key, a[0].key);
      }
      SortedDistinct(a);
      SortedDistinct(b);
      DistinctTail(a);
      DistinctTail(b);
      KeysOfTail(a);
      KeysOfTail(b);
      assert Keys(a[1..]) == Keys(a) - {a[0].key};
      assert Keys(b[1..]) == Keys(b) - {b[0].key};
      SortedSameKeys(a[1..], b[1..]);
      forall i | 0 <= i < |a| ensures a[i].key == b[i].key {
        if i > 0 {
          assert a[i] == a[1..][i - 1] && b[i] == b[1..][i - 1];
        }
      }
    }
  }

  // ---------------------------------------------------------------------------
  // Lookups, as Python's subscript `d[key]` and `xs[0]` answer them on a parsed
  // document; `None` stands for the KeyError, IndexError or TypeError raised.
  // ---------------------------------------------------------------------------

  /** The value of the last member named `key`, the one a Python dict keeps. */
  function Lookup(ms: seq<Member>, key: string): (r: Option<Json>)
    ensures r.Some? <==> key in Keys(ms)
    ensures r.Some? ==> Member(key, r.value) in ms
  {
    if ms == [] then None
    else
      var last := ms[|ms| - 1];
      var init := ms[..|ms| - 1];
      assert ms == init + [last];
      assert Keys(ms) == Keys(init) + {last.key} by {
        forall k | k in Keys(ms) ensures k in Keys(init) + {last.key} {
          var i :| 0 <= i < |ms| && ms[i].key == k;
          if i < |ms| - 1 {
            assert init[i].key == k;
          }
        }
        forall k | k in Keys(init) ensures k in Keys(ms) {
          var i :| 0 <= i < |init| && init[i].key == k;
          assert ms[i].key == k;
        }
      }
      if last.key == key then Some(last.value) else Lookup(init, key)
  }

  /** `j[key]`: only an object holding `key` answers. */
  function Index(j: Json, key: string): (r: Option<Json>)
    ensures r.Some? <==> j.Obj? && key in Keys(j.members)
  {
    if j.Obj? then Lookup(j.members, key) else None
  }

  /** `j[0]`: the first item of a non-empty list, or the first character of a non-empty string. */
  function First(j: Json): (r: Option<Json>)
    ensures r.Some? <==> (j.Arr? && j.items != []) || (j.Str? && j.s != "")
  {
    match j
    case Arr(items) => if items == [] then None else Some(items[0])
    case Str(s) => if s == "" then None else Some(Str([s[0]]))
    case _ => None
  }

  // ---------------------------------------------------------------------------
  // Canonical form: the document `json.dumps(j, sort_keys=True)` prints.
  // ---------------------------------------------------------------------------

  /**
   * Lists keep their length, objects keep their key set and, when their keys
   * are distinct, come out sorted by key; scalars print as they are.
   */
  function Canon(j: Json): (r: Json)
    ensures j.Obj? <==> r.Obj?
    ensures j.Arr? ==> r.Arr? && |r.items| == |j.items|
    ensures j.Obj? ==> Keys(r.members) == Keys(j.members)
    ensures j.Obj? && DistinctKeys(j.members) ==> StrictlySorted(r.members)
    ensures !j.Arr? && !j.Obj? ==> r == j
    decreases j
  {
    match j
    case Arr(items) => Arr(CanonItems(items))
    case Obj(ms) =>
      var cm := CanonMembers(ms);
      assert Keys(cm) == Keys(ms) by {
        forall k | k in Keys(ms) ensures k in Keys(cm) {
          var i :| 0 <= i < |ms| && ms[i].key == k;
          assert cm[i].key == k;
        }
        forall k | k in Keys(cm) ensures k in Keys(ms) {
          var i :| 0 <= i < |cm| && cm[i].key == k;
          assert ms[i].key == k;
        }
      }
      KeysOfPermutation(SortMembers(cm), cm);
      assert DistinctKeys(ms) ==> StrictlySorted(SortMembers(cm)) by {
        if DistinctKeys(ms) {
          SortSorted(cm);
        }
      }
      Obj(SortMembers(cm))
    case _ => j
  }

  function CanonItems(items: seq<Json>): (r: seq<Json>)
    ensures |r| == |items|
    ensures forall i | 0 <= i < |items| :: r[i] == Canon(items[i])
    decreases items
  {
    if items == [] then [] else [Canon(items[0])] + CanonItems(items[1..])
  }

  function CanonMembers(ms: seq<Member>): (r: seq<Member>)
    ensures |r| == |ms|
    ensures forall i | 0 <= i < |ms| :: r[i] == Member(ms[i].key, Canon(ms[i].value))
    decreases ms
  {
    if ms == [] then [] else [Member(ms[0].key, Canon(ms[0].value))] + CanonMembers(ms[1..])
  }

  /** Every object, at every depth, lists its members strictly by key. */
  predicate Canonical(j: Json)
    decreases j
  {
    match j
    case Arr(items) => forall i | 0 <= i < |items| :: Canonical(items[i])
    case Obj(ms) => StrictlySorted(ms) && forall i | 0 <= i < |ms| :: Canonical(ms[i].value)
    case _ => true
  }

  /** Every object, at every depth, has distinct keys, as a Python dict does. */
  predicate WellFormed(j: Json)
    decreases j
  {
    match j
    case Arr(items) => forall i | 0 <= i < |items| :: WellFormed(items[i])
    case Obj(ms) => DistinctKeys(ms) && forall i | 0 <= i < |ms| :: WellFormed(ms[i].value)
    case _ => true
  }

  // ---------------------------------------------------------------------------
  // Meaning of a document.
  // ---------------------------------------------------------------------------

  ghost function Content(j: Json): Value
    decreases j
  {
    match j
    case Null => VNull
    case Bool(b) => VBool(b)
    case Int(n) => VInt(n)
    case Str(s) => VStr(s)
    case Arr(items) => VList(ContentItems(items))
    case Obj(ms) => VDict(Dict(ms))
  }

  ghost function ContentItems(items: seq<Json>): (r: seq<Value>)
    ensures |r| == |items|
    ensures forall i | 0 <= i < |items| :: r[i] == Content(items[i])
    decreases items
  {
    if items == [] then [] else [Content(items[0])] + ContentItems(items[1..])
  }

  /** The dict an object's members build; a later member overrides an earlier one. */
  ghost function Dict(ms: seq<Member>): (d: map<string, Value>)
    ensures d.Keys == Keys(ms)
    decreases ms
  {
    if ms == [] then map[]
    else
      KeysOfTail(ms);
      map[ms[0].key := Content(ms[0].value)] + Dict(ms[1..])
  }

  lemma {:induction false} DictAt(ms: seq<Member>, i: int)
    requires DistinctKeys(ms) && 0 <= i < |ms|
    ensures ms[i].key in Dict(ms) && Dict(ms)[ms[i].key] == Content(ms[i].value)
    decreases |ms|
  {
    DistinctTail(ms);
    if i > 0 {
      DictAt(ms[1..], i - 1);
    }
  }

  /** Two dicts with the same keys whose values mean the same are the same dict. */
  lemma DictsEqual(a: seq<Member>, b: seq<Member>)
    requires DistinctKeys(a) && DistinctKeys(b) && Keys(a) == Keys(b)
    requires forall i, j | 0 <= i < |a| && 0 <= j < |b| && a[i].key == b[j].key ::
               Content(a[i].value) == Content(b[j].value)
    ensures Dict(a) == Dict(b)
  {
    forall k | k in Keys(a) ensures Dict(a)[k] == Dict(b)[k] {
      var i :| 0 <= i < |a| && a[i].key == k;
      var j :| 0 <= j < |b| && b[j].key == k;
      DictAt(a, i);
      DictAt(b, j);
    }
  }

  // ---------------------------------------------------------------------------
  // The canonical form keeps the meaning, is canonical, and canonical forms
  // are determined by their meaning.
  // ---------------------------------------------------------------------------

  lemma CanonicalIsWellFormed(c: Json)
    requires Canonical(c)
    ensures WellFormed(c)
    decreases c
  {
    match c
    case Arr(items) =>
      forall i | 0 <= i < |items| ensures WellFormed(items[i]) {
        CanonicalIsWellFormed(items[i]);
      }
    case Obj(ms) =>
      SortedDistinct(ms);
      forall i | 0 <= i < |ms| ensures WellFormed(ms[i].value) {
        CanonicalIsWellFormed(ms[i].value);
      }
    case _ =>
  }

  lemma {:induction false} CanonPreservesContent(j: Json)
    requires WellFormed(j)
    ensures Content(Canon(j)) == Content(j)
    decreases j
  {
    match j
    case Arr(items) =>
      forall i | 0 <= i < |items| ensures Content(Canon(items[i])) == Content(items[i]) {
        CanonPreservesContent(items[i]);
      }
      assert ContentItems(CanonItems(items)) == ContentItems(items);
    case Obj(ms) =>
      var cm := CanonMembers(ms);
      var s := SortMembers(cm);
      assert DistinctKeys(cm);
      SortSorted(cm);
      SortedDistinct(s);
      KeysOfPermutation(s, cm);
      assert Keys(cm) == Keys(ms);
      forall p, i | 0 <= p < |s| && 0 <= i < |ms| && s[p].key == ms[i].key
        ensures Content(s[p].value) == Content(ms[i].value)
      {
        assert s[p] in multiset(cm);
        assert s[p] in cm;
        var q :| 0 <= q < |cm| && cm[q] == s[p];
        assert q == i;
        CanonPreservesContent(ms[i].value);
      }
      DictsEqual(s, ms);
    case _ =>
  }

  lemma {:induction false} CanonIsCanonical(j: Json)
    requires WellFormed(j)
    ensures Canonical(Canon(j))
    decreases j
  {
    match j
    case Arr(items) =>
      forall i | 0 <= i < |items| ensures Canonical(Canon(items[i])) {
        CanonIsCanonical(items[i]);
      }
    case Obj(ms) =>
      var cm := CanonMembers(ms);
      var s := SortMembers(cm);
      assert DistinctKeys(cm);
      SortSorted(cm);
      forall p | 0 <= p < |s| ensures Canonical(s[p].value) {
        assert s[p] in multiset(cm);
        assert s[p] in cm;
        var q :| 0 <= q < |cm| && cm[q] == s[p];
        CanonIsCanonical(ms[q].value);
      }
    case _ =>
  }

  /** A canonical document is the only canonical document with its meaning. */
  lemma {:induction false} CanonicalUnique(c1: Json, c2: Json)
    requires Canonical(c1) && Canonical(c2) && Content(c1) == Content(c2)
    ensures c1 == c2
    decreases c1
  {
    match c1
    case Arr(xs) =>
      var ys := c2.items;
      assert ContentItems(xs) == ContentItems(ys);
      forall i | 0 <= i < |xs| ensures xs[i] == ys[i] {
        CanonicalUnique(xs[i], ys[i]);
      }
    case Obj(a) =>
      var b := c2.members;
      SortedDistinct(a);
      SortedDistinct(b);
      assert Keys(a) == Dict(a).Keys == Dict(b).Keys == Keys(b);
      SortedSameKeys(a, b);
      forall i | 0 <= i < |a| ensures a[i] == b[i] {
        DictAt(a, i);
        DictAt(b, i);
        CanonicalUnique(a[i].value, b[i].value);
      }
    case _ =>
  }

  /**
   * The sorted-key serialisations of two Python dicts agree exactly when the
   * dicts hold the same content: key order never counts, anything else does.
   */
  lemma SameCanonIffSameContent(a: Json, b: Json)
    requires WellFormed(a) && WellFormed(b)
    ensures Canon(a) == Canon(b) <==> Content(a) == Content(b)
  {
    CanonPreservesContent(a);
    CanonPreservesContent(b);
    if Content(a) == Content(b) {
      CanonIsCanonical(a);
      CanonIsCanonical(b);
      CanonicalUnique(Canon(a), Canon(b));
    }
  }

  /** Serialising a serialised-and-reparsed document changes nothing. */
  lemma CanonIdempotent(j: Json)
    requires WellFormed(j)
    ensures Canon(Canon(j)) == Canon(j)
  {
    CanonIsCanonical(j);
    CanonicalIsWellFormed(Canon(j));
    CanonIsCanonical(Canon(j));
    CanonPreservesContent(Canon(j));
    CanonicalUnique(Canon(Canon(j)), Canon(j));
  }

  /** Two objects holding the same members in another order serialise alike. */
  lemma KeyOrderIrrelevant(a: seq<Member>, b: seq<Member>)
    requires WellFormed(Obj(a)) && WellFormed(Obj(b))
    requires multiset(a) == multiset(b)
    ensures Canon(Obj(a)) == Canon(Obj(b))
  {
    KeysOfPermutation(a, b);
    forall i, j | 0 <= i < |a| && 0 <= j < |b| && a[i].key == b[j].key
      ensures Content(a[i].value) == Content(b[j].value)
    {
      assert a[i] in multiset(b);
      assert a[i] in b;
      var k :| 0 <= k < |b| && b[k] == a[i];
      assert k == j;
    }
    DictsEqual(a, b);
    SameCanonIffSameContent(Obj(a), Obj(b));
  }

  // ---------------------------------------------------------------------------
  // Equality up to key order, at every depth.
  // ---------------------------------------------------------------------------

  /**
   * `a` and `b` are the same document except for the order in which their
   * objects, at any depth, list their members: lists agree item by item,
   * objects have distinct keys, the same key set and matching values under
   * each key, and scalars are equal.
   */
  predicate SameUpToKeyOrder(a: Json, b: Json)
    decreases a
  {
    if a.Arr? && b.Arr? then
      |a.items| == |b.items| && forall i | 0 <= i < |a.items| :: SameUpToKeyOrder(a.items[i], b.items[i])
    else if a.Obj? && b.Obj? then
      DistinctKeys(a.members) && DistinctKeys(b.members) && Keys(a.members) == Keys(b.members) &&
      forall i, j | 0 <= i < |a.members| && 0 <= j < |b.members| && a.members[i].key == b.members[j].key ::
        SameUpToKeyOrder(a.members[i].value, b.members[j].value)
    else !a.Arr? && !a.Obj? && a == b
  }

  /** Documents related up to key order are dict-shaped at every depth. */
  lemma {:induction false} SameUpToKeyOrderWellFormed(a: Json, b: Json)
    requires SameUpToKeyOrder(a, b)
    ensures WellFormed(a) && WellFormed(b)
    decreases a
  {
    if a.Arr? && b.Arr? {
      forall i | 0 <= i < |a.items| ensures WellFormed(a.items[i]) && WellFormed(b.items[i]) {
        SameUpToKeyOrderWellFormed(a.items[i], b.items[i]);
      }
    } else if a.Obj? && b.Obj? {
      forall i | 0 <= i < |a.members| ensures WellFormed(a.members[i].value) {
        assert a.members[i].key in Keys(b.members);
        var j :| 0 <= j < |b.members| && b.members[j].key == a.members[i].key;
        SameUpToKeyOrderWellFormed(a.members[i].value, b.members[j].value);
      }
      forall j | 0 <= j < |b.members| ensures WellFormed(b.members[j].value) {
        assert b.members[j].key in Keys(a.members);
        var i :| 0 <= i < |a.members| && a.members[i].key == b.members[j].key;
        SameUpToKeyOrderWellFormed(a.members[i].value, b.members[j].value);
      }
    }
  }

  /** Reordering keys, at any depth, never changes what a document means. */
  lemma {:induction false} SameUpToKeyOrderSameContent(a: Json, b: Json)
    requires SameUpToKeyOrder(a, b)
    ensures Content(a) == Content(b)
    decreases a
  {
    if a.Arr? && b.Arr? {
      forall i | 0 <= i < |a.items| ensures Content(a.items[i]) == Content(b.items[i]) {
        SameUpToKeyOrderSameContent(a.items[i], b.items[i]);
      }
      assert ContentItems(a.items) == ContentItems(b.items);
    } else if a.Obj? && b.Obj? {
      forall i, j | 0 <= i < |a.members| && 0 <= j < |b.members| && a.members[i].key == b.members[j].key
        ensures Content(a.members[i].value) == Content(b.members[j].value)
      {
        SameUpToKeyOrderSameContent(a.members[i].value, b.members[j].value);
      }
      DictsEqual(a.members, b.members);
    }
  }

  /** Conversely, dict-shaped documents with the same meaning differ at most in key order. */
  lemma {:induction false} SameContentSameUpToKeyOrder(a: Json, b: Json)
    requires WellFormed(a) && WellFormed(b) && Content(a) == Content(b)
    ensures SameUpToKeyOrder(a, b)
    decreases a
  {
    match a
    case Arr(xs) =>
      assert b.Arr?;
      assert ContentItems(xs) == ContentItems(b.items);
      forall i | 0 <= i < |xs| ensures SameUpToKeyOrder(xs[i], b.items[i]) {
        SameContentSameUpToKeyOrder(xs[i], b.items[i]);
      }
    case Obj(ms) =>
      assert b.Obj?;
      assert Dict(ms) == Dict(b.members);
      forall i, j | 0 <= i < |ms| && 0 <= j < |b.members| && ms[i].key == b.members[j].key
        ensures SameUpToKeyOrder(ms[i].value, b.members[j].value)
      {
        DictAt(ms, i);
        DictAt(b.members, j);
        SameContentSameUpToKeyOrder(ms[i].value, b.members[j].value);
      }
    case _ =>
  }

  /** The sorted-key serialisations agree exactly when the documents differ only in key order. */
  lemma SameCanonIffSameUpToKeyOrder(a: Json, b: Json)
    requires WellFormed(a) && WellFormed(b)
    ensures Canon(a) == Canon(b) <==> SameUpToKeyOrder(a, b)
  {
    SameCanonIffSameContent(a, b);
    if SameUpToKeyOrder(a, b) {
      SameUpToKeyOrderSameContent(a, b);
    }
    if Content(a) == Content(b) {
      SameContentSameUpToKeyOrder(a, b);
    }
  }

  /** Documents that differ only in key order, at any depth, serialise alike. */
  lemma KeyOrderNeverCounts(a: Json, b: Json)
    requires SameUpToKeyOrder(a, b)
    ensures Canon(a) == Canon(b)
  {
    SameUpToKeyOrderWellFormed(a, b);
    SameCanonIffSameUpToKeyOrder(a, b);
  }
}
