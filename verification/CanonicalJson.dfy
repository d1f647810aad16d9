/**
 * The canonical form behind the request hash: object members rewritten in sorted key order at every depth.
 * Objects carry their members in the order JavaScript enumerates them.
 */
module CanonicalJson {

  type CodeUnit = n: nat | n < 0x10000

  /** A JavaScript string: UTF-16 code units, compared unit by unit. */
  type JsString = seq<CodeUnit>

  datatype Member = Member(key: JsString, value: Json)

  /** A number is the decimal numeral JSON text writes for it. */
  datatype Json =
    | Null
    | Boolean(b: bool)
    | Number(numeral: JsString)
    | Text(s: JsString)
    | Arr(items: seq<Json>)
    | Obj(members: seq<Member>)

  /** No object has two members with one key. */
  predicate DistinctKeys(ms: seq<Member>) {
    forall i, j | 0 <= i < j < |ms| :: ms[i].key != ms[j].key
  }

  predicate WellFormed(v: Json) {
    match v
    case Arr(items) => forall i | 0 <= i < |items| :: WellFormed(items[i])
    case Obj(members) => DistinctKeys(members) && forall i | 0 <= i < |members| :: WellFormed(members[i].value)
    case _ => true
  }

  // ---- Key orders ----

  /** The order of `Array.prototype.sort` on strings. */
  predicate Lex(a: JsString, b: JsString) {
    b != [] && (a == [] || a[0] < b[0] || (a[0] == b[0] && Lex(a[1..], b[1..])))
  }

  /** Array indices: decimal numerals without leading zeros, up to 4294967294. */
  predicate IsIndex(k: JsString) {
    k != [] && (forall i | 0 <= i < |k| :: 48 <= k[i] <= 57) && (|k| == 1 || k[0] != 48) &&
    (|k| < 10 || (|k| == 10 && Lex(k, [52, 50, 57, 52, 57, 54, 55, 50, 57, 53])))
  }

  /** The numeric order of such numerals. */
  predicate IndexLess(a: JsString, b: JsString) {
    |a| < |b| || (|a| == |b| && Lex(a, b))
  }

  /** Index keys come first, in numeric order, whatever order they were assigned in. */
  predicate OwnLess(a: JsString, b: JsString) {
    if IsIndex(a) && IsIndex(b) then IndexLess(a, b)
    else if IsIndex(a) || IsIndex(b) then IsIndex(a)
    else Lex(a, b)
  }

  // ---- sortKeys ----

  const PROTO: JsString := [95, 95, 112, 114, 111, 116, 111, 95, 95]

  function LexInsert(m: Member, ms: seq<Member>): seq<Member> {
    if ms == [] || Lex(m.key, ms[0].key) then [m] + ms else [ms[0]] + LexInsert(m, ms[1..])
  }

  function LexSort(ms: seq<Member>): seq<Member> {
    if ms == [] then [] else LexInsert(ms[0], LexSort(ms[1..]))
  }

  function InsertIndex(m: Member, ms: seq<Member>): seq<Member> {
    if ms == [] || !IsIndex(ms[0].key) || IndexLess(m.key, ms[0].key) then [m] + ms
    else [ms[0]] + InsertIndex(m, ms[1..])
  }

  /** `sorted[key] = value` on a plain object: the key `__proto__` sets the prototype and adds no member. */
  function Assign(ms: seq<Member>, m: Member): seq<Member> {
    if m.key == PROTO then ms
    else if IsIndex(m.key) then InsertIndex(m, ms)
    else ms + [m]
  }

  function AssignAll(ms: seq<Member>): seq<Member> {
    if ms == [] then [] else Assign(AssignAll(ms[..|ms| - 1]), ms[|ms| - 1])
  }

  function SortKeys(v: Json): Json {
    match v
    case Arr(items) => Arr(seq(|items|, i requires 0 <= i < |items| => SortKeys(items[i])))
    case Obj(members) => Obj(AssignAll(LexSort(SortedValues(v))))
    case _ => v
  }

  function SortedValues(v: Json): (r: seq<Member>)
    requires v.Obj?
    ensures |r| == |v.members|
    ensures forall i | 0 <= i < |r| :: r[i] == Member(v.members[i].key, SortKeys(v.members[i].value))
    decreases v, 0
  {
    seq(|v.members|, i requires 0 <= i < |v.members| => Member(v.members[i].key, SortKeys(v.members[i].value)))
  }

  // ---- The relation it is canonical for ----

  predicate HasKey(ms: seq<Member>, k: JsString) {
    exists i | 0 <= i < |ms| :: ms[i].key == k
  }

  /** Equal up to the order of members and to `__proto__` members, at every depth. */
  ghost predicate Same(a: Json, b: Json) {
    match (a, b)
    case (Arr(x), Arr(y)) => |x| == |y| && forall i | 0 <= i < |x| :: Same(x[i], y[i])
    case (Obj(x), Obj(y)) =>
      (forall k: JsString | k != PROTO :: HasKey(x, k) <==> HasKey(y, k)) &&
      (forall i, j | 0 <= i < |x| && 0 <= j < |y| && x[i].key == y[j].key != PROTO :: Same(x[i].value, y[j].value))
    case _ => a == b
  }

  // ---- The orders are strict and total ----

  lemma {:induction false} LexTotal(a: JsString, b: JsString)
    ensures a == b || Lex(a, b) || Lex(b, a)
    ensures !(Lex(a, b) && Lex(b, a))
    ensures !Lex(a, a)
  {
    if a != [] && b != [] {
      LexTotal(a[1..], b[1..]);
      if a[0] == b[0] && a[1..] == b[1..] {
        assert a == [a[0]] + a[1..] && b == [b[0]] + b[1..];
      }
    }
    if a != [] { LexTotal(a[1..], a[1..]); }
  }

  lemma {:induction false} LexTransitive(a: JsString, b: JsString, c: JsString)
    requires Lex(a, b) && Lex(b, c)
    ensures Lex(a, c)
  {
    if a != [] && a[0] == b[0] == c[0] { LexTransitive(a[1..], b[1..], c[1..]); }
  }

  lemma OwnTotal(a: JsString, b: JsString)
    ensures a == b || OwnLess(a, b) || OwnLess(b, a)
    ensures !(OwnLess(a, b) && OwnLess(b, a))
    ensures !OwnLess(a, a)
  {
    LexTotal(a, b);
  }

  lemma OwnTransitive(a: JsString, b: JsString, c: JsString)
    requires OwnLess(a, b) && OwnLess(b, c)
    ensures OwnLess(a, c)
  {
    if Lex(a, b) && Lex(b, c) { LexTransitive(a, b, c); }
  }

  // ---- What the rewriting does to a member list ----

  predicate LexSorted(ms: seq<Member>) {
    forall i, j | 0 <= i < j < |ms| :: Lex(ms[i].key, ms[j].key)
  }

  predicate OwnSorted(ms: seq<Member>) {
    forall i, j | 0 <= i < j < |ms| :: OwnLess(ms[i].key, ms[j].key)
  }

  lemma {:induction false} LexInsertFacts(m: Member, ms: seq<Member>)
    requires LexSorted(ms) && !HasKey(ms, m.key)
    ensures LexSorted(LexInsert(m, ms))
    ensures forall x :: x in LexInsert(m, ms) <==> x == m || x in ms
  {
    if ms == [] {
    } else if Lex(m.key, ms[0].key) {
      forall j | 0 < j < |ms| ensures Lex(m.key, ms[j].key) { LexTransitive(m.key, ms[0].key, ms[j].key); }
    } else {
      var rest := LexInsert(m, ms[1..]);
      LexInsertFacts(m, ms[1..]);
      assert ms == [ms[0]] + ms[1..];
      forall j | 0 <= j < |rest| ensures Lex(ms[0].key, rest[j].key) {
        assert rest[j] in rest;
        if rest[j] == m { LexTotal(ms[0].key, m.key); assert ms[0].key != m.key; }
      }
    }
  }

  lemma {:induction false} LexSortFacts(ms: seq<Member>)
    requires DistinctKeys(ms)
    ensures LexSorted(LexSort(ms))
    ensures forall x :: x in LexSort(ms) <==> x in ms
  {
    if ms != [] {
      var rest := LexSort(ms[1..]);
      LexSortFacts(ms[1..]);
      assert ms == [ms[0]] + ms[1..];
      forall i | 0 <= i < |rest| ensures rest[i].key != ms[0].key {
        assert rest[i] in rest;
        var j :| 0 <= j < |ms[1..]| && ms[1..][j] == rest[i];
        assert ms[j + 1] == rest[i];
      }
      LexInsertFacts(ms[0], rest);
    }
  }

  lemma {:induction false} InsertIndexFacts(m: Member, ms: seq<Member>)
    requires OwnSorted(ms) && IsIndex(m.key) && !HasKey(ms, m.key)
    ensures OwnSorted(InsertIndex(m, ms))
    ensures forall x :: x in InsertIndex(m, ms) <==> x == m || x in ms
  {
    if ms == [] {
    } else if !IsIndex(ms[0].key) || IndexLess(m.key, ms[0].key) {
      assert OwnLess(m.key, ms[0].key);
      forall j | 0 < j < |ms| ensures OwnLess(m.key, ms[j].key) { OwnTransitive(m.key, ms[0].key, ms[j].key); }
    } else {
      var rest := InsertIndex(m, ms[1..]);
      InsertIndexFacts(m, ms[1..]);
      assert ms == [ms[0]] + ms[1..];
      forall j | 0 <= j < |rest| ensures OwnLess(ms[0].key, rest[j].key) {
        assert rest[j] in rest;
        if rest[j] == m { OwnTotal(ms[0].key, m.key); assert ms[0].key != m.key; }
      }
    }
  }

  /** Assigning in sorted order yields the members but `__proto__`, in enumeration order. */
  lemma {:induction false} AssignAllFacts(ms: seq<Member>)
    requires LexSorted(ms)
    ensures OwnSorted(AssignAll(ms))
    ensures forall x :: x in AssignAll(ms) <==> x in ms && x.key != PROTO
  {
    if ms != [] {
      var head, m := ms[..|ms| - 1], ms[|ms| - 1];
      AssignAllFacts(head);
      assert ms == head + [m];
      var out := AssignAll(head);
      forall i | 0 <= i < |out| ensures Lex(out[i].key, m.key) && out[i].key != m.key {
        assert out[i] in out;
        var j :| 0 <= j < |head| && head[j] == out[i];
        assert ms[j] == out[i];
        LexTotal(out[i].key, m.key);
      }
      if m.key != PROTO && IsIndex(m.key) { InsertIndexFacts(m, out); }
    }
  }

  lemma {:induction false} SortedIsUnique(a: seq<Member>, b: seq<Member>)
    requires OwnSorted(a) && OwnSorted(b) && forall x :: x in a <==> x in b
    ensures a == b
  {
    assert b == [] || b[0] in b;
    if a != [] {
      assert a[0] in a;
      var j :| 0 <= j < |b| && b[j] == a[0];
      assert b[0] in b;
      var i :| 0 <= i < |a| && a[i] == b[0];
      assert a[0] == b[0] by {
        OwnTotal(a[0].key, b[0].key);
      }
      forall x ensures x in a[1..] <==> x in b[1..] {
        Tail(a, x);
        Tail(b, x);
      }
      SortedIsUnique(a[1..], b[1..]);
      assert a == [a[0]] + a[1..] && b == [b[0]] + b[1..];
    }
  }

  lemma Tail(a: seq<Member>, x: Member)
    requires OwnSorted(a) && a != []
    ensures x in a[1..] <==> x in a && x != a[0]
  {
    assert a == [a[0]] + a[1..];
    if x in a[1..] {
      var i :| 0 <= i < |a[1..]| && a[1..][i] == x;
      assert OwnLess(a[0].key, a[i + 1].key);
      OwnTotal(a[0].key, a[0].key);
    }
  }

  /** The members of a rewritten object: sorted, and exactly the rewritten members other than `__proto__`. */
  lemma SortedMembers(v: Json)
    requires v.Obj? && WellFormed(v)
    ensures SortKeys(v).Obj? && OwnSorted(SortKeys(v).members)
    ensures forall x :: x in SortKeys(v).members <==>
              exists i | 0 <= i < |v.members| :: x == Member(v.members[i].key, SortKeys(v.members[i].value)) && x.key != PROTO
  {
    var ms := SortedValues(v);
    LexSortFacts(ms);
    AssignAllFacts(LexSort(ms));
    forall x
      ensures x in SortKeys(v).members <==>
              exists i | 0 <= i < |v.members| :: x == Member(v.members[i].key, SortKeys(v.members[i].value)) && x.key != PROTO
    {
      if x in ms && x.key != PROTO {
        var i :| 0 <= i < |ms| && ms[i] == x;
        assert x == Member(v.members[i].key, SortKeys(v.members[i].value));
      }
      if i :| 0 <= i < |v.members| && x == Member(v.members[i].key, SortKeys(v.members[i].value)) && x.key != PROTO {
        assert ms[i] == x;
      }
    }
  }

  // ---- Canonicity ----

  lemma {:induction false} EqualFormsAreSame(a: Json, b: Json)
    requires WellFormed(a) && WellFormed(b) && SortKeys(a) == SortKeys(b)
    ensures Same(a, b)
    decreases a
  {
    match a
    case Arr(x) =>
      assert b.Arr?;
      forall i | 0 <= i < |x| ensures Same(x[i], b.items[i]) {
        assert SortKeys(a).items[i] == SortKeys(b).items[i];
        EqualFormsAreSame(x[i], b.items[i]);
      }
    case Obj(x) =>
      var y := b.members;
      SortedMembers(a);
      SortedMembers(b);
      var out := SortKeys(a).members;
      forall k: JsString | k != PROTO ensures HasKey(x, k) <==> HasKey(y, k) {
        if i :| 0 <= i < |x| && x[i].key == k { assert Member(x[i].key, SortKeys(x[i].value)) in out; }
        if j :| 0 <= j < |y| && y[j].key == k { assert Member(y[j].key, SortKeys(y[j].value)) in out; }
      }
      forall i, j | 0 <= i < |x| && 0 <= j < |y| && x[i].key == y[j].key != PROTO ensures Same(x[i].value, y[j].value) {
        OneValuePerKey(out, Member(x[i].key, SortKeys(x[i].value)), Member(y[j].key, SortKeys(y[j].value)));
        EqualFormsAreSame(x[i].value, y[j].value);
      }
    case _ =>
  }

  lemma OneValuePerKey(ms: seq<Member>, m: Member, n: Member)
    requires OwnSorted(ms) && m in ms && n in ms && m.key == n.key
    ensures m == n
  {
    var i :| 0 <= i < |ms| && ms[i] == m;
    var j :| 0 <= j < |ms| && ms[j] == n;
    OwnTotal(m.key, n.key);
  }

  /** A member of one rewritten object is a member of the other, given as much of their values. */
  lemma MemberCarriesOver(a: Json, b: Json, m: Member)
    requires a.Obj? && b.Obj? && WellFormed(a) && WellFormed(b) && m in SortKeys(a).members
    requires forall k: JsString | k != PROTO :: HasKey(a.members, k) ==> HasKey(b.members, k)
    requires forall i, j | 0 <= i < |a.members| && 0 <= j < |b.members| && a.members[i].key == b.members[j].key != PROTO ::
      SortKeys(a.members[i].value) == SortKeys(b.members[j].value)
    ensures m in SortKeys(b).members
  {
    var x, y := a.members, b.members;
    SortedMembers(a);
    SortedMembers(b);
    var i :| 0 <= i < |x| && m == Member(x[i].key, SortKeys(x[i].value)) && m.key != PROTO;
    assert HasKey(x, m.key);
    var j :| 0 <= j < |y| && y[j].key == m.key;
    assert m == Member(y[j].key, SortKeys(y[j].value));
  }

  lemma {:induction false} SameHaveEqualForms(a: Json, b: Json)
    requires WellFormed(a) && WellFormed(b) && Same(a, b)
    ensures SortKeys(a) == SortKeys(b)
    decreases a
  {
    match a
    case Arr(x) =>
      forall i | 0 <= i < |x| ensures SortKeys(x[i]) == SortKeys(b.items[i]) {
        SameHaveEqualForms(x[i], b.items[i]);
      }
    case Obj(x) =>
      var y := b.members;
      forall i, j | 0 <= i < |x| && 0 <= j < |y| && x[i].key == y[j].key != PROTO
        ensures SortKeys(x[i].value) == SortKeys(y[j].value)
      {
        SameHaveEqualForms(x[i].value, y[j].value);
      }
      forall m ensures m in SortKeys(a).members <==> m in SortKeys(b).members {
        if m in SortKeys(a).members { MemberCarriesOver(a, b, m); }
        if m in SortKeys(b).members { MemberCarriesOver(b, a, m); }
      }
      SortedMembers(a);
      SortedMembers(b);
      SortedIsUnique(SortKeys(a).members, SortKeys(b).members);
    case _ =>
  }

  /** Two requests get one canonical form exactly when they differ in member order (and `__proto__`) only. */
  lemma SortKeysIsCanonical(a: Json, b: Json)
    requires WellFormed(a) && WellFormed(b)
    ensures SortKeys(a) == SortKeys(b) <==> Same(a, b)
  {
    if SortKeys(a) == SortKeys(b) { EqualFormsAreSame(a, b); }
    if Same(a, b) { SameHaveEqualForms(a, b); }
  }

  lemma {:induction false} FormIsSame(v: Json)
    requires WellFormed(v)
    ensures WellFormed(SortKeys(v)) && Same(SortKeys(v), v)
    decreases v
  {
    match v
    case Arr(items) =>
      forall i | 0 <= i < |items| ensures WellFormed(SortKeys(items[i])) && Same(SortKeys(items[i]), items[i]) {
        FormIsSame(items[i]);
      }
    case Obj(members) =>
      SortedMembers(v);
      var out := SortKeys(v).members;
      forall i, j | 0 <= i < j < |out| ensures out[i].key != out[j].key { OwnTotal(out[i].key, out[j].key); }
      forall i | 0 <= i < |out| ensures WellFormed(out[i].value) && HasKey(members, out[i].key) && out[i].key != PROTO {
        assert out[i] in out;
        var k :| 0 <= k < |members| && out[i] == Member(members[k].key, SortKeys(members[k].value));
        FormIsSame(members[k].value);
      }
      forall k | 0 <= k < |members| && members[k].key != PROTO ensures HasKey(out, members[k].key) {
        assert Member(members[k].key, SortKeys(members[k].value)) in out;
      }
      forall i, j | 0 <= i < |out| && 0 <= j < |members| && out[i].key == members[j].key != PROTO
        ensures Same(out[i].value, members[j].value)
      {
        assert Member(members[j].key, SortKeys(members[j].value)) in out;
        OneValuePerKey(out, out[i], Member(members[j].key, SortKeys(members[j].value)));
        FormIsSame(members[j].value);
      }
    case _ =>
  }

  /** Rewriting a canonical form changes nothing. */
  lemma SortKeysIsIdempotent(v: Json)
    requires WellFormed(v)
    ensures SortKeys(SortKeys(v)) == SortKeys(v)
  {
    FormIsSame(v);
    SameHaveEqualForms(SortKeys(v), v);
  }

  // ---- The member that is lost ----

  /** No object in the value, at any depth, has a member called `__proto__`. */
  predicate NoProto(v: Json) {
    match v
    case Arr(items) => forall i | 0 <= i < |items| :: NoProto(items[i])
    case Obj(members) => forall i | 0 <= i < |members| :: members[i].key != PROTO && NoProto(members[i].value)
    case _ => true
  }

  /** Equal up to the order of members alone, at every depth. */
  ghost predicate Reordered(a: Json, b: Json) {
    match (a, b)
    case (Arr(x), Arr(y)) => |x| == |y| && forall i | 0 <= i < |x| :: Reordered(x[i], y[i])
    case (Obj(x), Obj(y)) =>
      (forall k: JsString :: HasKey(x, k) <==> HasKey(y, k)) &&
      (forall i, j | 0 <= i < |x| && 0 <= j < |y| && x[i].key == y[j].key :: Reordered(x[i].value, y[j].value))
    case _ => a == b
  }

  lemma {:induction false} WithoutProtoSameIsReordered(a: Json, b: Json)
    requires NoProto(a) && NoProto(b)
    ensures Same(a, b) <==> Reordered(a, b)
    decreases a
  {
    if a.Arr? && b.Arr? && |a.items| == |b.items| {
      forall i | 0 <= i < |a.items| ensures Same(a.items[i], b.items[i]) <==> Reordered(a.items[i], b.items[i]) {
        WithoutProtoSameIsReordered(a.items[i], b.items[i]);
      }
    } else if a.Obj? && b.Obj? {
      var x, y := a.members, b.members;
      assert !HasKey(x, PROTO) && !HasKey(y, PROTO);
      forall i, j | 0 <= i < |x| && 0 <= j < |y| && x[i].key == y[j].key
        ensures Same(x[i].value, y[j].value) <==> Reordered(x[i].value, y[j].value)
      {
        WithoutProtoSameIsReordered(x[i].value, y[j].value);
      }
    }
  }

  /** Values without such members get one canonical form exactly when they differ in member order alone. */
  lemma CanonicalUpToOrder(a: Json, b: Json)
    requires WellFormed(a) && WellFormed(b) && NoProto(a) && NoProto(b)
    ensures SortKeys(a) == SortKeys(b) <==> Reordered(a, b)
  {
    SortKeysIsCanonical(a, b);
    WithoutProtoSameIsReordered(a, b);
  }

  /** The one way values with different members share a form: a member called `__proto__` is lost. */
  lemma ProtoMembersAreLost(value: Json)
    ensures SortKeys(Obj([Member(PROTO, value)])) == SortKeys(Obj([]))
  {
    var v := Obj([Member(PROTO, value)]);
    assert SortedValues(v) == [Member(PROTO, SortKeys(value))];
    assert LexSort(SortedValues(v)) == SortedValues(v);
    assert AssignAll(SortedValues(v)[..0]) == [];
    assert SortedValues(Obj([])) == [];
  }
}
