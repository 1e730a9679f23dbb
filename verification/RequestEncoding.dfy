/**
 buildRequestHash: the text that is hashed into the idempotency key. SHA-256 is taken to be
 injective, so the key is modelled by the text itself.
 */
module RequestEncoding {
  import opened Text

  /** uuid.UUID.String(): always 36 characters. */
  type UuidText = s: string | |s| == 36 witness seq(36, _ => '0')

  predicate IsPriceText(s: string) {
    forall i | 0 <= i < |s| :: IsDigit(s[i]) || s[i] == '.' || s[i] == '-'
  }

  /** Decimal.String(): canonical, so two decimals are equal exactly when these texts are. */
  type PriceText = s: string | IsPriceText(s) witness "0"

  datatype Request = Request(market: UuidText, orderType: nat, price: PriceText, quantity: int)

  /** OrderType.String(): every value other than 1 to 4 has the same name. */
  function TypeName(orderType: nat): string {
    match orderType
    case 1 => "limit"
    case 2 => "market"
    case 3 => "stop_loss"
    case 4 => "take_profit"
    case _ => "unspecified"
  }

  /** chk_orders_type_valid. */
  predicate TypeValid(orderType: nat) {
    1 <= orderType <= 4
  }

  function Encode(r: Request): string {
    r.market + "|" + TypeName(r.orderType) + "|" + r.price + "|" + IntText(r.quantity)
  }

  predicate NoBar(s: string) {
    forall i | 0 <= i < |s| :: s[i] != '|'
  }

  /** The text up to the first bar is determined by the whole. */
  lemma SplitAtBar(a: string, x: string, b: string, y: string)
    requires NoBar(a) && NoBar(b)
    requires a + "|" + x == b + "|" + y
    ensures a == b && x == y
  {
    var whole := a + "|" + x;
    assert whole[|a|] == '|' && whole[|b|] == '|';
    assert forall i | 0 <= i < |a| :: whole[i] == a[i];
    assert forall i | 0 <= i < |b| :: whole[i] == b[i];
    assert whole[..|a|] == a && whole[..|b|] == b;
    assert whole[|a| + 1..] == x && whole[|b| + 1..] == y;
  }

  lemma TypeNameInjective(s: nat, t: nat)
    requires TypeValid(s) && TypeName(s) == TypeName(t)
    ensures s == t
  {
    assert |TypeName(s)| == |TypeName(t)|;
  }

  lemma TypeNameNoBar(t: nat)
    ensures NoBar(TypeName(t))
  {
  }

  /** Two equal concatenations whose left parts have the same length split the same way. */
  lemma SplitAt(a: string, x: string, b: string, y: string)
    requires |a| == |b| && a + x == b + y
    ensures a == b && x == y
  {
    assert (a + x)[..|a|] == a && (b + y)[..|b|] == b;
    assert (a + x)[|a|..] == x && (b + y)[|b|..] == y;
  }

  lemma EncodeParts(r: Request)
    ensures Encode(r) == r.market + ("|" + (TypeName(r.orderType) + "|" + (r.price + "|" + IntText(r.quantity))))
  {
    var t, p, n := TypeName(r.orderType), r.price, IntText(r.quantity);
    calc {
      r.market + "|" + t + "|" + p + "|" + n;
      r.market + ("|" + (t + "|" + (p + "|" + n)));
    }
  }

  /** Two requests have the same key text only if they are the same request. */
  lemma EncodeInjective(r: Request, q: Request)
    requires TypeValid(r.orderType)
    requires Encode(r) == Encode(q)
    ensures r == q
  {
    var r1, q1 := r.price + "|" + IntText(r.quantity), q.price + "|" + IntText(q.quantity);
    var r2, q2 := TypeName(r.orderType) + "|" + r1, TypeName(q.orderType) + "|" + q1;
    EncodeParts(r);
    EncodeParts(q);
    SplitAt(r.market, "|" + r2, q.market, "|" + q2);
    SplitAt("|", r2, "|", q2);
    TypeNameNoBar(r.orderType);
    TypeNameNoBar(q.orderType);
    SplitAtBar(TypeName(r.orderType), r1, TypeName(q.orderType), q1);
    TypeNameInjective(r.orderType, q.orderType);
    SplitAtBar(r.price, IntText(r.quantity), q.price, IntText(q.quantity));
    IntTextInjective(r.quantity, q.quantity);
  }

  /** Outside 1 to 4 the type name collapses, so the text alone does not tell two requests apart. */
  lemma EncodeCollapsesInvalidTypes(r: Request, t: nat)
    requires !TypeValid(r.orderType) && !TypeValid(t)
    ensures Encode(r) == Encode(r.(orderType := t))
    ensures Encode(r) == r.market + "|unspecified|" + r.price + "|" + IntText(r.quantity)
  {
    var m, p, n := r.market, r.price, IntText(r.quantity);
    assert m + "|" + "unspecified" + "|" + p + "|" + n == m + "|unspecified|" + p + "|" + n;
  }

  /** The texts of the four valid types. */
  lemma EncodeValidTypes(r: Request)
    requires TypeValid(r.orderType)
    ensures
      var name := if r.orderType == 1 then "|limit|" else if r.orderType == 2 then "|market|"
                  else if r.orderType == 3 then "|stop_loss|" else "|take_profit|";
      Encode(r) == r.market + name + r.price + "|" + IntText(r.quantity)
  {
    var name := if r.orderType == 1 then "|limit|" else if r.orderType == 2 then "|market|"
                else if r.orderType == 3 then "|stop_loss|" else "|take_profit|";
    assert "|" + TypeName(r.orderType) + "|" == name;
    assert r.market + "|" + TypeName(r.orderType) + "|" == r.market + name;
  }
}
