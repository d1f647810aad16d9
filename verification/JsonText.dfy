/** The JSON text of a value, and why two values never share one. */
module JsonText {
  import opened CanonicalJson

  const QUOTE: CodeUnit := 34
  const BACKSLASH: CodeUnit := 92
  const COMMA: CodeUnit := 44
  const COLON: CodeUnit := 58
  const OPEN_ARRAY: CodeUnit := 91
  const CLOSE_ARRAY: CodeUnit := 93
  const OPEN_OBJECT: CodeUnit := 123
  const CLOSE_OBJECT: CodeUnit := 125
  const LETTER_U: CodeUnit := 117

  // ---- Strings ----

  predicate HighSurrogate(u: CodeUnit) { 0xD800 <= u <= 0xDBFF }

  predicate LowSurrogate(u: CodeUnit) { 0xDC00 <= u <= 0xDFFF }

  function HexDigit(d: nat): CodeUnit
    requires d < 16
  {
    if d < 10 then 48 + d else 87 + d
  }

  function HexEscape(u: CodeUnit): JsString {
    [BACKSLASH, LETTER_U, HexDigit(u / 4096), HexDigit(u / 256 % 16), HexDigit(u / 16 % 16), HexDigit(u % 16)]
  }

  /** The letter after the backslash, for the units that have a short escape. */
  function ShortEscape(u: CodeUnit): (letter: CodeUnit)
    ensures letter != LETTER_U
  {
    if u == 8 then 98 else if u == 9 then 116 else if u == 10 then 110 else if u == 12 then 102
    else if u == 13 then 114 else if u == QUOTE then QUOTE else if u == BACKSLASH then BACKSLASH else 0
  }

  /** One unit inside quotes; `paired` when it is half of a surrogate pair, which is written as it is. */
  function UnitText(u: CodeUnit, paired: bool): JsString {
    if ShortEscape(u) != 0 then [BACKSLASH, ShortEscape(u)]
    else if u < 32 then HexEscape(u)
    else if (HighSurrogate(u) || LowSurrogate(u)) && !paired then HexEscape(u)
    else [u]
  }

  predicate StartsPair(s: JsString) { |s| > 1 && HighSurrogate(s[0]) && LowSurrogate(s[1]) }

  /** `second` says the first unit completes a surrogate pair. */
  function UnitsText(s: JsString, second: bool): JsString {
    if s == [] then []
    else UnitText(s[0], second || StartsPair(s)) + UnitsText(s[1..], !second && StartsPair(s))
  }

  function Quoted(s: JsString): JsString { [QUOTE] + UnitsText(s, false) + [QUOTE] }

  // ---- Values ----

  /** Digits, signs, the point and the exponent mark. */
  predicate InNumeral(u: CodeUnit) { 48 <= u <= 57 || u == 43 || u == 45 || u == 46 || u == 69 || u == 101 }

  predicate IsNumeral(s: JsString) {
    s != [] && (48 <= s[0] <= 57 || s[0] == 45) && forall i | 0 <= i < |s| :: InNumeral(s[i])
  }

  /** Every number in the value is written as a numeral. */
  predicate Numeric(v: Json) {
    match v
    case Number(numeral) => IsNumeral(numeral)
    case Arr(items) => forall i | 0 <= i < |items| :: Numeric(items[i])
    case Obj(members) => forall i | 0 <= i < |members| :: Numeric(members[i].value)
    case _ => true
  }

  function Stringify(v: Json): JsString
    decreases v, 1, 0
  {
    match v
    case Null => [110, 117, 108, 108]
    case Boolean(b) => if b then [116, 114, 117, 101] else [102, 97, 108, 115, 101]
    case Number(numeral) => numeral
    case Text(s) => Quoted(s)
    case Arr(_) => [OPEN_ARRAY] + (ItemsText(v, 0) + [CLOSE_ARRAY])
    case Obj(_) => [OPEN_OBJECT] + (MembersText(v, 0) + [CLOSE_OBJECT])
  }

  /** The items from the `k`th on, with commas between them. */
  function ItemsText(v: Json, k: nat): JsString
    requires v.Arr? && k <= |v.items|
    decreases v, 0, |v.items| - k
  {
    if k == |v.items| then []
    else if k + 1 == |v.items| then Stringify(v.items[k])
    else Stringify(v.items[k]) + ([COMMA] + ItemsText(v, k + 1))
  }

  function MemberText(m: Member): JsString
    decreases m.value, 2, 0
  {
    Quoted(m.key) + ([COLON] + Stringify(m.value))
  }

  function MembersText(v: Json, k: nat): JsString
    requires v.Obj? && k <= |v.members|
    decreases v, 0, |v.members| - k
  {
    if k == |v.members| then []
    else if k + 1 == |v.members| then MemberText(v.members[k])
    else MemberText(v.members[k]) + ([COMMA] + MembersText(v, k + 1))
  }

  // ---- Strings read back ----

  function HexValue(h: CodeUnit): int { if h < 58 then h - 48 else h - 87 }

  function Unescaped(letter: CodeUnit): CodeUnit {
    if letter == 98 then 8 else if letter == 116 then 9 else if letter == 110 then 10 else if letter == 102 then 12
    else if letter == 114 then 13 else letter
  }

  /** The unit a quoted text starts with, and how much of the text writes it. */
  function FirstUnit(t: JsString): int {
    if t == [] then 0
    else if t[0] != BACKSLASH then t[0]
    else if |t| >= 6 && t[1] == LETTER_U then 4096 * HexValue(t[2]) + 256 * HexValue(t[3]) + 16 * HexValue(t[4]) + HexValue(t[5])
    else if |t| >= 2 then Unescaped(t[1])
    else 0
  }

  function FirstLength(t: JsString): nat {
    if t == [] || t[0] != BACKSLASH then 1 else if |t| >= 6 && t[1] == LETTER_U then 6 else 2
  }

  lemma HexReadsBack(u: CodeUnit)
    ensures 4096 * HexValue(HexDigit(u / 4096)) + 256 * HexValue(HexDigit(u / 256 % 16)) +
            16 * HexValue(HexDigit(u / 16 % 16)) + HexValue(HexDigit(u % 16)) == u
  {
    assert u / 256 == 16 * (u / 4096) + u / 256 % 16;
    assert u / 16 == 16 * (u / 256) + u / 16 % 16;
  }

  lemma UnitReadsBack(u: CodeUnit, paired: bool, rest: JsString)
    ensures var t := UnitText(u, paired) + rest;
            t[0] != QUOTE && FirstUnit(t) == u && FirstLength(t) == |UnitText(u, paired)|
  {
    HexReadsBack(u);
  }

  lemma UnitsUnfold(s: JsString, second: bool, r: JsString)
    requires s != []
    ensures var t := UnitsText(s, second) + ([QUOTE] + r);
            && t[0] != QUOTE && FirstUnit(t) == s[0] && FirstLength(t) <= |t|
            && t[FirstLength(t)..] == UnitsText(s[1..], !second && StartsPair(s)) + ([QUOTE] + r)
  {
    var head, rest := UnitText(s[0], second || StartsPair(s)), UnitsText(s[1..], !second && StartsPair(s)) + ([QUOTE] + r);
    UnitReadsBack(s[0], second || StartsPair(s), rest);
    assert UnitsText(s, second) + ([QUOTE] + r) == head + rest;
  }

  /** Quoted strings end at their first bare quote, and no two have one text. */
  lemma {:induction false} UnitsReadBack(s: JsString, second: bool, r: JsString, s': JsString, second': bool, r': JsString)
    requires UnitsText(s, second) + ([QUOTE] + r) == UnitsText(s', second') + ([QUOTE] + r')
    ensures s == s' && r == r'
    decreases s
  {
    if s != [] { UnitsUnfold(s, second, r); }
    if s' != [] { UnitsUnfold(s', second', r'); }
    if s == [] {
      BareQuote(second, r);
      BareQuote(second', r');
    } else if s' == [] {
      BareQuote(second', r');
    } else {
      UnitsReadBack(s[1..], !second && StartsPair(s), r, s'[1..], !second' && StartsPair(s'), r');
      assert s == [s[0]] + s[1..] && s' == [s'[0]] + s'[1..];
    }
  }

  lemma BareQuote(second: bool, r: JsString)
    ensures var t := UnitsText([], second) + ([QUOTE] + r); t[0] == QUOTE && t[1..] == r
  {
    assert UnitsText([], second) + ([QUOTE] + r) == [QUOTE] + r;
  }

  lemma QuotedUnfold(s: JsString, r: JsString)
    ensures (Quoted(s) + r)[0] == QUOTE && (Quoted(s) + r)[1..] == UnitsText(s, false) + ([QUOTE] + r)
  {
    var units := UnitsText(s, false);
    assert Quoted(s) + r == [QUOTE] + (units + ([QUOTE] + r));
  }

  lemma QuotedReadsBack(s: JsString, r: JsString, s': JsString, r': JsString)
    requires Quoted(s) + r == Quoted(s') + r'
    ensures s == s' && r == r'
  {
    QuotedUnfold(s, r);
    QuotedUnfold(s', r');
    UnitsReadBack(s, false, r, s', false, r');
  }

  // ---- Values read back ----

  /** What may follow a value inside a text: nothing, a comma or a closing bracket. */
  predicate Follows(r: JsString) { r == [] || r[0] == COMMA || r[0] == CLOSE_ARRAY || r[0] == CLOSE_OBJECT }

  lemma NumeralReadsBack(n: JsString, r: JsString, n': JsString, r': JsString)
    requires IsNumeral(n) && IsNumeral(n') && Follows(r) && Follows(r') && n + r == n' + r'
    ensures n == n' && r == r'
  {
    var t := n + r;
    assert forall i | 0 <= i < |n| :: InNumeral(t[i]);
    assert forall i | 0 <= i < |n'| :: InNumeral(t[i]);
    assert |n| < |t| ==> t[|n|] == r[0] && !InNumeral(t[|n|]);
    assert |n'| < |t| ==> t[|n'|] == r'[0] && !InNumeral(t[|n'|]);
    assert n == t[..|n|] && r == t[|n|..] && n' == t[..|n'|] && r' == t[|n'|..];
  }

  /** Which kind of value a text starts is told by its first unit. */
  function KindOf(v: Json): nat {
    match v
    case Null => 0 case Boolean(b) => if b then 1 else 2
    case Number(_) => 3 case Text(_) => 4 case Arr(_) => 5 case Obj(_) => 6
  }

  function KindFrom(u: CodeUnit): nat {
    if u == 110 then 0 else if u == 116 then 1 else if u == 102 then 2 else if u == QUOTE then 4
    else if u == OPEN_ARRAY then 5 else if u == OPEN_OBJECT then 6 else 3
  }

  lemma FirstUnitTellsKind(v: Json)
    requires Numeric(v)
    ensures Stringify(v) != [] && KindFrom(Stringify(v)[0]) == KindOf(v)
    ensures Stringify(v)[0] != CLOSE_ARRAY && Stringify(v)[0] != CLOSE_OBJECT
  {
  }

  /** What follows the opening bracket. */
  lemma BracketUnfold(v: Json, r: JsString)
    requires v.Arr? || v.Obj?
    ensures (Stringify(v) + r)[1..] ==
            if v.Arr? then ItemsText(v, 0) + ([CLOSE_ARRAY] + r) else MembersText(v, 0) + ([CLOSE_OBJECT] + r)
  {
  }

  lemma SameKind(a: Json, r: JsString, b: Json, q: JsString)
    requires Numeric(a) && Numeric(b) && Stringify(a) + r == Stringify(b) + q
    ensures KindOf(a) == KindOf(b)
  {
    FirstUnitTellsKind(a);
    FirstUnitTellsKind(b);
    assert (Stringify(a) + r)[0] == Stringify(a)[0] && (Stringify(b) + q)[0] == Stringify(b)[0];
  }

  lemma LiteralReadsBack(a: Json, r: JsString, b: Json, q: JsString)
    requires KindOf(a) == KindOf(b) <= 2 && Stringify(a) + r == Stringify(b) + q
    ensures a == b && r == q
  {
    assert a == b;
    var n := |Stringify(a)|;
    assert (Stringify(a) + r)[n..] == r && (Stringify(b) + q)[n..] == q;
  }

  /** A value's text says where it ends and which value it is. */
  lemma {:induction false} ValueReadsBack(a: Json, r: JsString, b: Json, q: JsString)
    requires Numeric(a) && Numeric(b) && Follows(r) && Follows(q) && Stringify(a) + r == Stringify(b) + q
    ensures a == b && r == q
    decreases a, 1, 0
  {
    SameKind(a, r, b, q);
    match a
    case Number(n) => NumeralReadsBack(n, r, b.numeral, q);
    case Text(s) => QuotedReadsBack(s, r, b.s, q);
    case Arr(_) =>
      BracketUnfold(a, r);
      BracketUnfold(b, q);
      ItemsReadBack(a, r, b, q, 0);
      assert a.items == a.items[0..] && b.items == b.items[0..];
    case Obj(_) =>
      BracketUnfold(a, r);
      BracketUnfold(b, q);
      MembersReadBack(a, r, b, q, 0);
      assert a.members == a.members[0..] && b.members == b.members[0..];
    case _ => LiteralReadsBack(a, r, b, q);
  }

  /** What follows the `k`th item: the closing bracket, or a comma and the items after it. */
  function AfterItem(v: Json, k: nat, r: JsString): JsString
    requires v.Arr? && k < |v.items|
  {
    if k + 1 == |v.items| then [CLOSE_ARRAY] + r else [COMMA] + (ItemsText(v, k + 1) + ([CLOSE_ARRAY] + r))
  }

  lemma ItemsUnfold(v: Json, k: nat, r: JsString)
    requires v.Arr? && k < |v.items|
    ensures ItemsText(v, k) + ([CLOSE_ARRAY] + r) == Stringify(v.items[k]) + AfterItem(v, k, r)
  {
  }

  lemma FirstItemUnit(v: Json, k: nat, r: JsString)
    requires v.Arr? && Numeric(v) && k < |v.items|
    ensures (ItemsText(v, k) + ([CLOSE_ARRAY] + r))[0] != CLOSE_ARRAY
  {
    ItemsUnfold(v, k, r);
    FirstUnitTellsKind(v.items[k]);
  }

  lemma NoItemLeft(v: Json, r: JsString)
    requires v.Arr?
    ensures ItemsText(v, |v.items|) + ([CLOSE_ARRAY] + r) == [CLOSE_ARRAY] + r
    ensures ([CLOSE_ARRAY] + r)[1..] == r
  {
  }

  lemma {:induction false} ItemsReadBack(a: Json, r: JsString, b: Json, q: JsString, k: nat)
    requires a.Arr? && b.Arr? && k <= |a.items| && k <= |b.items| && Numeric(a) && Numeric(b)
    requires ItemsText(a, k) + ([CLOSE_ARRAY] + r) == ItemsText(b, k) + ([CLOSE_ARRAY] + q)
    ensures a.items[k..] == b.items[k..] && r == q
    decreases a, 0, |a.items| - k
  {
    if k == |a.items| || k == |b.items| {
      if k < |a.items| { FirstItemUnit(a, k, r); }
      if k < |b.items| { FirstItemUnit(b, k, q); }
      NoItemLeft(a, r);
      NoItemLeft(b, q);
    } else {
      ItemsUnfold(a, k, r);
      ItemsUnfold(b, k, q);
      var after, after' := AfterItem(a, k, r), AfterItem(b, k, q);
      ValueReadsBack(a.items[k], after, b.items[k], after');
      assert k + 1 == |a.items| <==> after[0] == CLOSE_ARRAY;
      if k + 1 < |a.items| {
        assert after[1..] == ItemsText(a, k + 1) + ([CLOSE_ARRAY] + r);
        assert after'[1..] == ItemsText(b, k + 1) + ([CLOSE_ARRAY] + q);
        ItemsReadBack(a, r, b, q, k + 1);
      } else {
        assert after[1..] == r && after'[1..] == q;
      }
      assert a.items[k..] == [a.items[k]] + a.items[k + 1..] && b.items[k..] == [b.items[k]] + b.items[k + 1..];
    }
  }

  function AfterMember(v: Json, k: nat, r: JsString): JsString
    requires v.Obj? && k < |v.members|
  {
    if k + 1 == |v.members| then [CLOSE_OBJECT] + r else [COMMA] + (MembersText(v, k + 1) + ([CLOSE_OBJECT] + r))
  }

  lemma MembersUnfold(v: Json, k: nat, r: JsString)
    requires v.Obj? && k < |v.members|
    ensures MembersText(v, k) + ([CLOSE_OBJECT] + r) == MemberText(v.members[k]) + AfterMember(v, k, r)
    ensures (MembersText(v, k) + ([CLOSE_OBJECT] + r))[0] == QUOTE
  {
  }

  lemma NoMemberLeft(v: Json, r: JsString)
    requires v.Obj?
    ensures MembersText(v, |v.members|) + ([CLOSE_OBJECT] + r) == [CLOSE_OBJECT] + r
    ensures ([CLOSE_OBJECT] + r)[1..] == r
  {
  }

  lemma MemberSplit(m: Member, r: JsString)
    ensures MemberText(m) + r == Quoted(m.key) + ([COLON] + (Stringify(m.value) + r))
    ensures ([COLON] + (Stringify(m.value) + r))[1..] == Stringify(m.value) + r
  {
    var key, value := Quoted(m.key), Stringify(m.value);
    assert key + ([COLON] + value) + r == key + ([COLON] + (value + r));
  }

  lemma {:induction false} MembersReadBack(a: Json, r: JsString, b: Json, q: JsString, k: nat)
    requires a.Obj? && b.Obj? && k <= |a.members| && k <= |b.members| && Numeric(a) && Numeric(b)
    requires MembersText(a, k) + ([CLOSE_OBJECT] + r) == MembersText(b, k) + ([CLOSE_OBJECT] + q)
    ensures a.members[k..] == b.members[k..] && r == q
    decreases a, 0, |a.members| - k
  {
    if k == |a.members| || k == |b.members| {
      if k < |a.members| { MembersUnfold(a, k, r); }
      if k < |b.members| { MembersUnfold(b, k, q); }
      NoMemberLeft(a, r);
      NoMemberLeft(b, q);
    } else {
      MembersUnfold(a, k, r);
      MembersUnfold(b, k, q);
      var m, m', after, after' := a.members[k], b.members[k], AfterMember(a, k, r), AfterMember(b, k, q);
      MemberSplit(m, after);
      MemberSplit(m', after');
      QuotedReadsBack(m.key, [COLON] + (Stringify(m.value) + after), m'.key, [COLON] + (Stringify(m'.value) + after'));
      ValueReadsBack(m.value, after, m'.value, after');
      assert k + 1 == |a.members| <==> after[0] == CLOSE_OBJECT;
      if k + 1 < |a.members| {
        assert after[1..] == MembersText(a, k + 1) + ([CLOSE_OBJECT] + r);
        assert after'[1..] == MembersText(b, k + 1) + ([CLOSE_OBJECT] + q);
        MembersReadBack(a, r, b, q, k + 1);
      } else {
        assert after[1..] == r && after'[1..] == q;
      }
      assert a.members[k..] == [m] + a.members[k + 1..] && b.members[k..] == [m'] + b.members[k + 1..];
    }
  }

  /** JSON text is unambiguous: equal texts are texts of equal values. */
  lemma EqualTextsEqualValues(a: Json, b: Json)
    requires Numeric(a) && Numeric(b)
    ensures Stringify(a) == Stringify(b) <==> a == b
  {
    if Stringify(a) == Stringify(b) {
      assert Stringify(a) + [] == Stringify(a) && Stringify(b) + [] == Stringify(b);
      ValueReadsBack(a, [], b, []);
    }
  }

  // ---- Request hashes ----

  lemma {:induction false} SortedIsNumeric(v: Json)
    requires WellFormed(v) && Numeric(v)
    ensures Numeric(SortKeys(v))
    decreases v
  {
    match v
    case Arr(items) =>
      forall i | 0 <= i < |items| ensures Numeric(SortKeys(items[i])) { SortedIsNumeric(items[i]); }
    case Obj(members) =>
      SortedMembers(v);
      var out := SortKeys(v).members;
      forall i | 0 <= i < |out| ensures Numeric(out[i].value) {
        assert out[i] in out;
        var k :| 0 <= k < |members| && out[i] == Member(members[k].key, SortKeys(members[k].value));
        SortedIsNumeric(members[k].value);
      }
    case _ =>
  }

  /** stableStringify. */
  function CanonicalText(v: Json): JsString { Stringify(SortKeys(v)) }

  /** The digest tells the texts of these two values apart, if they differ. */
  predicate NoCollision(digest: JsString -> string, a: Json, b: Json) {
    digest(CanonicalText(a)) == digest(CanonicalText(b)) ==> CanonicalText(a) == CanonicalText(b)
  }

  /** Unless the digest collides on the two, equal request hashes mean the same request. */
  lemma HashIdentifiesRequest(digest: JsString -> string, a: Json, b: Json)
    requires WellFormed(a) && WellFormed(b) && Numeric(a) && Numeric(b) && NoCollision(digest, a, b)
    ensures digest(CanonicalText(a)) == digest(CanonicalText(b)) <==> Same(a, b)
  {
    SortedIsNumeric(a);
    SortedIsNumeric(b);
    EqualTextsEqualValues(SortKeys(a), SortKeys(b));
    SortKeysIsCanonical(a, b);
  }
}
