/**
 * The TokenAmount value type: an exact amount of some token (a currency).
 * Amounts are integers counting minor units (hundredths of the token), so
 * that sums and differences are exact and every amount prints with exactly
 * two decimal places.
 */
module Money {
  import opened Wrappers

  /** Minor units per major unit of a token. */
  const MinorPerMajor: nat := 100

  /** The token that `money(n)` gives its amounts. */
  const DefaultToken: string := "USD"

  datatype TokenAmount = TokenAmount(amount: int, token: string)

  datatype MoneyError = UnitMismatch

  /** `money(n)`: n major units of the default token. */
  function MoneyOf(major: int): TokenAmount
  {
    TokenAmount(major * MinorPerMajor, DefaultToken)
  }

  // ---------------------------------------------------------------------
  // Comparisons. Two amounts are comparable only when their tokens agree.

  function IsLess(a: TokenAmount, b: TokenAmount): Result<bool, MoneyError>
  {
    if a.token != b.token then Err(UnitMismatch) else Ok(a.amount < b.amount)
  }

  function IsGreater(a: TokenAmount, b: TokenAmount): Result<bool, MoneyError>
  {
    if a.token != b.token then Err(UnitMismatch) else Ok(a.amount > b.amount)
  }

  function IsEqual(a: TokenAmount, b: TokenAmount): Result<bool, MoneyError>
  {
    if a.token != b.token then Err(UnitMismatch) else Ok(a.amount == b.amount)
  }

  // ---------------------------------------------------------------------
  // Arithmetic. Binary operations need equal tokens; a scalar has no unit.

  function Add(a: TokenAmount, b: TokenAmount): Result<TokenAmount, MoneyError>
  {
    if a.token != b.token then Err(UnitMismatch) else Ok(TokenAmount(a.amount + b.amount, a.token))
  }

  function Subtract(a: TokenAmount, b: TokenAmount): Result<TokenAmount, MoneyError>
  {
    if a.token != b.token then Err(UnitMismatch) else Ok(TokenAmount(a.amount - b.amount, a.token))
  }

  function MultiplyByScalar(a: TokenAmount, k: int): TokenAmount
  {
    TokenAmount(a.amount * k, a.token)
  }

  /** For amounts of one token exactly one of less, equal and greater holds. */
  lemma Trichotomy(a: TokenAmount, b: TokenAmount)
    requires a.token == b.token
    ensures IsLess(a, b).Ok? && IsEqual(a, b).Ok? && IsGreater(a, b).Ok?
    ensures IsLess(a, b).value || IsEqual(a, b).value || IsGreater(a, b).value
    ensures !(IsLess(a, b).value && IsEqual(a, b).value)
    ensures !(IsLess(a, b).value && IsGreater(a, b).value)
    ensures !(IsEqual(a, b).value && IsGreater(a, b).value)
  {
  }

  /** Less and greater are converses, and equality is symmetric. */
  lemma ComparisonsConverse(a: TokenAmount, b: TokenAmount)
    ensures IsLess(a, b) == IsGreater(b, a)
    ensures IsEqual(a, b) == IsEqual(b, a)
  {
  }

  /** Every binary operation on amounts of different tokens fails with UnitMismatch. */
  lemma MismatchFails(a: TokenAmount, b: TokenAmount)
    requires a.token != b.token
    ensures IsLess(a, b) == IsGreater(a, b) == IsEqual(a, b) == Err(UnitMismatch)
    ensures Add(a, b) == Subtract(a, b) == Err(UnitMismatch)
  {
  }

  /** Adding then subtracting the same amount gives back the original amount. */
  lemma AddSubtractRoundTrip(a: TokenAmount, b: TokenAmount)
    requires a.token == b.token
    ensures Add(a, b).Ok?
    ensures Subtract(Add(a, b).value, b) == Ok(a)
    ensures IsEqual(Subtract(Add(a, b).value, b).value, a) == Ok(true)
  {
  }

  /** Addition keeps the token and is commutative. */
  lemma AddCommutes(a: TokenAmount, b: TokenAmount)
    requires a.token == b.token
    ensures Add(a, b) == Add(b, a)
    ensures Add(a, b).Ok? && Add(a, b).value.token == a.token
  {
  }

  /** `money` is additive: money(x).add(money(y)) is money(x + y). */
  lemma MoneyOfAdditive(x: int, y: int)
    ensures Add(MoneyOf(x), MoneyOf(y)) == Ok(MoneyOf(x + y))
  {
  }

  /** `money(n)` holds n major units, so distinct n give distinct amounts. */
  lemma MoneyOfInjective(x: int, y: int)
    ensures MoneyOf(x).amount == x * MinorPerMajor && MoneyOf(x).token == DefaultToken
    ensures MoneyOf(x) == MoneyOf(y) ==> x == y
  {
  }

  /** money(10).add(money(5)).isEqual(money(15)) == true */
  lemma TenPlusFiveIsFifteen()
    ensures Add(MoneyOf(10), MoneyOf(5)).Ok?
    ensures IsEqual(Add(MoneyOf(10), MoneyOf(5)).value, MoneyOf(15)) == Ok(true)
  {
    MoneyOfAdditive(10, 5);
  }

  /** Scaling distributes over addition. */
  lemma ScalarDistributes(a: TokenAmount, b: TokenAmount, k: int)
    requires a.token == b.token
    ensures Add(MultiplyByScalar(a, k), MultiplyByScalar(b, k)) == Ok(MultiplyByScalar(Add(a, b).value, k))
  {
    assert (a.amount + b.amount) * k == a.amount * k + b.amount * k;
  }

  // ---------------------------------------------------------------------
  // Formatting: "10.00" (plain), "10.00 USD" (with unit), "$10.00" (symbolic).

  datatype Style = Plain | WithUnit | Symbolic

  predicate IsDigit(c: char) { '0' <= c <= '9' }

  predicate AllDigits(s: string) { forall i :: 0 <= i < |s| ==> IsDigit(s[i]) }

  predicate NoSpace(s: string) { forall i :: 0 <= i < |s| ==> s[i] != ' ' }

  function Digit(d: nat): (c: char)
    requires d < 10
    ensures IsDigit(c) && c as int - '0' as int == d
  {
    ('0' as int + d) as char
  }

  /** The decimal numeral of n, without leading zeros. */
  function Numeral(n: nat): (s: string)
    ensures |s| > 0 && AllDigits(s)
    ensures |s| > 1 ==> s[0] != '0'
  {
    if n < 10 then [Digit(n)] else Numeral(n / 10) + [Digit(n % 10)]
  }

  /** The value of a string of decimal digits. */
  function NumeralValue(s: string): nat
    requires AllDigits(s)
  {
    if |s| == 0 then 0 else 10 * NumeralValue(s[..|s| - 1]) + (s[|s| - 1] as int - '0' as int)
  }

  lemma {:induction false} NumeralRoundTrip(n: nat)
    ensures NumeralValue(Numeral(n)) == n
  {
    if n >= 10 {
      var s := Numeral(n);
      assert s[..|s| - 1] == Numeral(n / 10);
      NumeralRoundTrip(n / 10);
    }
  }

  /**
   * Plain form: an optional minus sign, the major units, a point and two
   * digits. The literal 100 here and in ParsePlain is MinorPerMajor.
   */
  function FormatPlain(amount: int): (s: string)
    ensures |s| >= 4 && s[|s| - 3] == '.' && IsDigit(s[|s| - 2]) && IsDigit(s[|s| - 1])
    ensures (s[0] == '-') <==> amount < 0
    ensures if s[0] == '-' then IsDigit(s[1]) else IsDigit(s[0])
    ensures NoSpace(s)
  {
    var mag := if amount < 0 then -amount else amount;
    (if amount < 0 then "-" else "") + Numeral(mag / 100) + "." + [Digit(mag % 100 / 10), Digit(mag % 10)]
  }

  /** Reads back a plain-form string; None for anything FormatPlain never produces. */
  function ParsePlain(s: string): Option<int>
  {
    if |s| < 4 || s[|s| - 3] != '.' then None
    else
      var negative := s[0] == '-';
      var whole := if negative then s[1..|s| - 3] else s[..|s| - 3];
      var fraction := s[|s| - 2..];
      if |whole| == 0 || !AllDigits(whole) || !AllDigits(fraction) then None
      else
        var mag := NumeralValue(whole) * 100 + NumeralValue(fraction);
        Some(if negative then -mag else mag)
  }

  /** The two cents digits read back as the amount's last two decimal digits. */
  lemma CentsValue(mag: nat)
    ensures NumeralValue([Digit(mag % 100 / 10), Digit(mag % 10)]) == mag % 100
  {
    var cents := [Digit(mag % 100 / 10), Digit(mag % 10)];
    assert cents[..1] == [cents[0]];
    assert [cents[0]][..0] == [];
    assert NumeralValue([cents[0]]) == mag % 100 / 10;
  }

  lemma {:induction false} PlainRoundTrip(amount: int)
    ensures ParsePlain(FormatPlain(amount)) == Some(amount)
  {
    var mag := if amount < 0 then -amount else amount;
    var sign := if amount < 0 then "-" else "";
    var digits := Numeral(mag / 100);
    var cents := [Digit(mag % 100 / 10), Digit(mag % 10)];
    var s := FormatPlain(amount);
    assert s == sign + digits + "." + cents;
    if amount < 0 {
      assert s[1..|s| - 3] == digits;
    } else {
      assert s[..|s| - 3] == digits;
    }
    assert s[|s| - 2..] == cents;
    NumeralRoundTrip(mag / 100);
    CentsValue(mag);
  }

  /** Formatting loses nothing: distinct amounts print differently. */
  lemma PlainFormatInjective(x: int, y: int)
    ensures FormatPlain(x) == FormatPlain(y) ==> x == y
  {
    PlainRoundTrip(x);
    PlainRoundTrip(y);
  }

  /** The currency symbol of a token, when it has one. */
  function Symbol(token: string): Option<string>
  {
    if token == "USD" then Some("$") else None
  }

  /** A token without a symbol prints in with-unit form even when the symbolic form is asked for. */
  function Format(a: TokenAmount, style: Style): string
  {
    match style
    case Plain => FormatPlain(a.amount)
    case WithUnit => FormatPlain(a.amount) + " " + a.token
    case Symbolic =>
      match Symbol(a.token)
      case Some(sym) =>
        if a.amount < 0 then "-" + sym + FormatPlain(-a.amount) else sym + FormatPlain(a.amount)
      case None => FormatPlain(a.amount) + " " + a.token
  }

  /** amt(10) prints as "10.00", "10.00 USD" and "$10.00". */
  lemma FormatTen()
    ensures Format(MoneyOf(10), Plain) == "10.00"
    ensures Format(MoneyOf(10), WithUnit) == "10.00 USD"
    ensures Format(MoneyOf(10), Symbolic) == "$10.00"
  {
    assert Numeral(10) == "10";
  }

  /** The index of the first space of s, if it has one. */
  function FirstSpace(s: string): (k: Option<nat>)
    ensures k.Some? ==> k.value < |s| && s[k.value] == ' ' && NoSpace(s[..k.value])
    ensures k.None? ==> NoSpace(s)
  {
    if |s| == 0 then None
    else if s[0] == ' ' then Some(0)
    else
      match FirstSpace(s[1..])
      case Some(k) =>
        assert s[..k + 1] == [s[0]] + s[1..][..k];
        Some(k + 1)
      case None => None
  }

  lemma {:induction false} FirstSpaceAfter(p: string, t: string)
    requires NoSpace(p)
    ensures FirstSpace(p + " " + t) == Some(|p|)
  {
    var s := p + " " + t;
    if p != [] {
      assert s[1..] == p[1..] + " " + t;
      FirstSpaceAfter(p[1..], t);
    }
  }

  /** Reads back a with-unit string: the plain form, one space, then the token. */
  function ParseWithUnit(s: string): Option<TokenAmount>
  {
    match FirstSpace(s)
    case None => None
    case Some(k) =>
      match ParsePlain(s[..k])
      case None => None
      case Some(amount) => Some(TokenAmount(amount, s[k + 1..]))
  }

  /** Reads back a symbolic string: "$" or "-$" before a plain USD magnitude, else the with-unit form. */
  function ParseSymbolic(s: string): Option<TokenAmount>
  {
    if |s| >= 2 && s[..2] == "-$" then
      match ParsePlain(s[2..])
      case None => None
      case Some(mag) => Some(TokenAmount(-mag, "USD"))
    else if |s| >= 1 && s[0] == '$' then
      match ParsePlain(s[1..])
      case None => None
      case Some(mag) => Some(TokenAmount(mag, "USD"))
    else ParseWithUnit(s)
  }

  /** The with-unit form gives back both the amount and the token. */
  lemma WithUnitRoundTrip(a: TokenAmount)
    ensures ParseWithUnit(Format(a, WithUnit)) == Some(a)
  {
    var p := FormatPlain(a.amount);
    FirstSpaceAfter(p, a.token);
    assert (p + " " + a.token)[..|p|] == p;
    assert (p + " " + a.token)[|p| + 1..] == a.token;
    PlainRoundTrip(a.amount);
  }

  /** A plain string after "-$" reads back as the negated USD amount. */
  lemma NegativeDollarsRead(p: string, m: int)
    requires ParsePlain(p) == Some(m)
    ensures ParseSymbolic("-" + "$" + p) == Some(TokenAmount(-m, "USD"))
  {
    var s := "-" + "$" + p;
    assert s[..2] == "-$" && s[2..] == p;
    SymbolicBranches(s);
  }

  /** A plain string after "$" reads back as the USD amount. */
  lemma DollarsRead(p: string, m: int)
    requires ParsePlain(p) == Some(m)
    ensures ParseSymbolic("$" + p) == Some(TokenAmount(m, "USD"))
  {
    var s := "$" + p;
    assert s[0] == '$' && s[1..] == p;
    SymbolicBranches(s);
  }

  /** A string that starts with a digit, or a minus and a digit, is read in the with-unit form. */
  lemma UnsignedIsWithUnit(p: string, t: string)
    requires |p| >= 2 && if p[0] == '-' then IsDigit(p[1]) else IsDigit(p[0])
    ensures ParseSymbolic(p + " " + t) == ParseWithUnit(p + " " + t)
  {
    var s := p + " " + t;
    assert s[0] == p[0] && s[1] == p[1];
    SymbolicBranches(s);
  }

  /** Which reading ParseSymbolic takes, by the first two characters. */
  lemma SymbolicBranches(s: string)
    ensures |s| >= 2 && s[0] == '-' && s[1] == '$' ==>
      ParseSymbolic(s) == match ParsePlain(s[2..]) { case None => None case Some(mag) => Some(TokenAmount(-mag, "USD")) }
    ensures |s| >= 1 && s[0] == '$' ==>
      ParseSymbolic(s) == match ParsePlain(s[1..]) { case None => None case Some(mag) => Some(TokenAmount(mag, "USD")) }
    ensures |s| >= 2 && s[0] != '$' && !(s[0] == '-' && s[1] == '$') ==> ParseSymbolic(s) == ParseWithUnit(s)
  {
    if |s| >= 2 {
      assert s[..2] == "-$" <==> s[0] == '-' && s[1] == '$' by {
        if s[..2] == "-$" {
          assert s[..2][0] == s[0] && s[..2][1] == s[1];
        }
        if s[0] == '-' && s[1] == '$' {
          assert s[..2] == [s[0], s[1]];
        }
      }
    }
  }

  /** A negative USD amount prints as "-$" and its magnitude, and reads back. */
  lemma SymbolicNegativeDollars(a: TokenAmount)
    requires a.token == "USD" && a.amount < 0
    ensures ParseSymbolic(Format(a, Symbolic)) == Some(a)
  {
    var p := FormatPlain(-a.amount);
    assert Format(a, Symbolic) == "-" + "$" + p;
    assert ParseSymbolic("-" + "$" + p) == Some(TokenAmount(a.amount, "USD")) by {
      PlainRoundTrip(-a.amount);
      NegativeDollarsRead(p, -a.amount);
    }
  }

  /** A non-negative USD amount prints as "$" and the amount, and reads back. */
  lemma SymbolicDollars(a: TokenAmount)
    requires a.token == "USD" && a.amount >= 0
    ensures ParseSymbolic(Format(a, Symbolic)) == Some(a)
  {
    var p := FormatPlain(a.amount);
    assert Format(a, Symbolic) == "$" + p;
    assert ParseSymbolic("$" + p) == Some(TokenAmount(a.amount, "USD")) by {
      PlainRoundTrip(a.amount);
      DollarsRead(p, a.amount);
    }
  }

  /** A token with no symbol prints in with-unit form, and reads back. */
  lemma SymbolicWithoutSymbol(a: TokenAmount)
    requires Symbol(a.token).None?
    ensures Format(a, Symbolic) == Format(a, WithUnit)
    ensures ParseSymbolic(Format(a, Symbolic)) == Some(a)
  {
    UnsignedIsWithUnit(FormatPlain(a.amount), a.token);
    WithUnitRoundTrip(a);
  }

  /**
   * The symbolic form gives back the amount and the token; a token with no
   * symbol prints exactly as in the with-unit form.
   */
  lemma SymbolicRoundTrip(a: TokenAmount)
    ensures ParseSymbolic(Format(a, Symbolic)) == Some(a)
    ensures Symbol(a.token).None? ==> Format(a, Symbolic) == Format(a, WithUnit)
  {
    if a.token != "USD" {
      SymbolicWithoutSymbol(a);
    } else if a.amount < 0 {
      SymbolicNegativeDollars(a);
    } else {
      SymbolicDollars(a);
    }
  }

  /** Every form reads back: the plain form to the amount, the other two to the whole TokenAmount. */
  lemma FormatRoundTrip(a: TokenAmount)
    ensures ParsePlain(Format(a, Plain)) == Some(a.amount)
    ensures ParseWithUnit(Format(a, WithUnit)) == Some(a)
    ensures ParseSymbolic(Format(a, Symbolic)) == Some(a)
  {
    PlainRoundTrip(a.amount);
    WithUnitRoundTrip(a);
    SymbolicRoundTrip(a);
  }
}
