/** What an administrator's refund call hashes: its payment and its amount, and why the hash tells calls apart. */
module RefundRequest {
  import opened Model
  import opened CanonicalJson
  import opened Numerals
  import JsonText

  /** A string as JavaScript has it, in UTF-16 code units. */
  function Units(s: string): JsString {
    if s == "" then []
    else
      var c := s[0] as int;
      if c < 0x10000 then [c] + Units(s[1..])
      else [0xD800 + (c - 0x10000) / 0x400, 0xDC00 + (c - 0x10000) % 0x400] + Units(s[1..])
  }

  lemma FirstCharacter(s: string)
    requires s != ""
    ensures var u, wide := Units(s), s[0] as int >= 0x10000;
            && |u| >= (if wide then 2 else 1)
            && (wide <==> 0xD800 <= u[0] <= 0xDBFF)
            && (s[0] as int == if wide then 0x10000 + 0x400 * (u[0] as int - 0xD800) + (u[1] as int - 0xDC00) else u[0])
            && u[if wide then 2 else 1..] == Units(s[1..])
  {
    var c := s[0] as int;
    assert c < 0xD800 || 0xE000 <= c < 0x110000;
    if c >= 0x10000 { assert c - 0x10000 == 0x400 * ((c - 0x10000) / 0x400) + (c - 0x10000) % 0x400; }
  }

  lemma {:induction false} UnitsDiffer(s: string, t: string)
    requires Units(s) == Units(t)
    ensures s == t
  {
    if s != "" && t != "" {
      FirstCharacter(s);
      FirstCharacter(t);
      assert s[0] as int == t[0] as int;
      UnitsDiffer(s[1..], t[1..]);
      assert s == [s[0]] + s[1..] && t == [t[0]] + t[1..];
    }
  }

  function AmountNumeral(n: int): JsString { Units(if n < 0 then "-" + Decimal(-n) else Decimal(n)) }

  lemma {:induction false} UnitsOfNumeral(s: string)
    requires forall i | 0 <= i < |s| :: '0' <= s[i] <= '9' || s[i] == '-'
    ensures |Units(s)| == |s| && forall i | 0 <= i < |s| :: Units(s)[i] == s[i] as int
  {
    if s != "" {
      assert forall i | 0 <= i < |s| - 1 :: s[1..][i] == s[i + 1];
      UnitsOfNumeral(s[1..]);
    }
  }

  lemma AmountNumeralFacts(m: int, n: int)
    ensures JsonText.IsNumeral(AmountNumeral(m))
    ensures AmountNumeral(m) == AmountNumeral(n) ==> m == n
  {
    var s, t := if m < 0 then "-" + Decimal(-m) else Decimal(m), if n < 0 then "-" + Decimal(-n) else Decimal(n);
    UnitsOfNumeral(s);
    UnitsOfNumeral(t);
    if AmountNumeral(m) == AmountNumeral(n) {
      UnitsDiffer(s, t);
      assert s[0] == t[0];
      if m < 0 {
        assert s[1..] == Decimal(-m) && t[1..] == Decimal(-n);
        DecimalsDiffer(-m, -n);
      } else {
        DecimalsDiffer(m, n);
      }
    }
  }

  const PAYMENT_ID: JsString := [112, 97, 121, 109, 101, 110, 116, 73, 100]
  const AMOUNT: JsString := [97, 109, 111, 117, 110, 116]

  /** `{ paymentId, amount }`; an amount that was not given is no member of the text. */
  function RequestOf(paymentId: string, amount: Option<int>): Json {
    Obj([Member(PAYMENT_ID, Json.Text(Units(paymentId)))] +
        if amount.Some? then [Member(AMOUNT, Json.Number(AmountNumeral(amount.value)))] else [])
  }

  function RequestHash(digest: JsString -> string, paymentId: string, amount: Option<int>): string {
    digest(JsonText.CanonicalText(RequestOf(paymentId, amount)))
  }

  lemma RequestIsProper(paymentId: string, amount: Option<int>)
    ensures WellFormed(RequestOf(paymentId, amount)) && JsonText.Numeric(RequestOf(paymentId, amount))
  {
    if amount.Some? { AmountNumeralFacts(amount.value, amount.value); }
    assert |PAYMENT_ID| != |AMOUNT|;
  }

  lemma RequestsDiffer(p: string, a: Option<int>, q: string, b: Option<int>)
    ensures Same(RequestOf(p, a), RequestOf(q, b)) <==> p == q && a == b
  {
    var x, y := RequestOf(p, a).members, RequestOf(q, b).members;
    assert PAYMENT_ID != PROTO && AMOUNT != PROTO && AMOUNT != PAYMENT_ID by {
      assert PAYMENT_ID[0] == 112 && AMOUNT[0] == 97 && PROTO[0] == 95;
    }
    if Same(RequestOf(p, a), RequestOf(q, b)) {
      assert Same(x[0].value, y[0].value);
      UnitsDiffer(p, q);
      assert a.Some? <==> HasKey(x, AMOUNT) by { assert a.Some? ==> x[1].key == AMOUNT; }
      assert b.Some? <==> HasKey(y, AMOUNT) by { assert b.Some? ==> y[1].key == AMOUNT; }
      if a.Some? {
        assert Same(x[1].value, y[1].value);
        AmountNumeralFacts(a.value, b.value);
      }
    }
  }

  /** Unless the digest collides on the two, one hash means one payment and one amount. */
  lemma HashTellsRequests(digest: JsString -> string, p: string, a: Option<int>, q: string, b: Option<int>)
    requires JsonText.NoCollision(digest, RequestOf(p, a), RequestOf(q, b))
    ensures RequestHash(digest, p, a) == RequestHash(digest, q, b) <==> p == q && a == b
  {
    RequestIsProper(p, a);
    RequestIsProper(q, b);
    RequestsDiffer(p, a, q, b);
    JsonText.HashIdentifiesRequest(digest, RequestOf(p, a), RequestOf(q, b));
  }
}
