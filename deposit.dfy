/**
 * The amount handling of FrontEnd/src/components/wallet/DepositModal.jsx: cleaning the
 * typed text, the guards before a deposit is sent, the live input formatter and the
 * balance preview. Amounts are exact reals.
 */
module Deposit {
  import opened Wrappers
  import opened Js
  import opened Seqs
  import PriceCalculator

  predicate IsDigitOrDot(c: char) {
    IsDigit(c) || c == '.'
  }

  predicate IsAmountChar(c: char) {
    IsDigit(c) || c == ',' || c == '.'
  }

  /** `amount.trim().replace(',', '.').replace(/[^\d.]/g, '')`. */
  function CleanAmount(amount: string): (r: string)
    ensures forall i :: 0 <= i < |r| ==> IsDigitOrDot(r[i])
    ensures DigitsOf(r) == DigitsOf(Trim(amount))
  {
    var t := Trim(amount);
    var replaced := ReplaceFirst(t, ',', '.');
    ReplaceKeepsDigits(t, ',', '.');
    FilterKeepsDigits(replaced, IsDigitOrDot);
    Filter(replaced, IsDigitOrDot)
  }

  /** Replacing a non-digit by a non-digit keeps the digits. */
  lemma ReplaceKeepsDigits(s: string, a: char, b: char)
    requires !IsDigit(a) && !IsDigit(b)
    ensures DigitsOf(ReplaceFirst(s, a, b)) == DigitsOf(s)
  {
    var i := FirstIndex(s, a);
    if i < |s| {
      assert s == s[..i] + [a] + s[i + 1..];
      DigitsOfAppend(s[..i] + [a], s[i + 1..]);
      DigitsOfAppend(s[..i], [a]);
      DigitsOfAppend(s[..i] + [b], s[i + 1..]);
      DigitsOfAppend(s[..i], [b]);
    }
  }

  /** A filter that keeps every digit keeps the digits. */
  lemma {:induction false} FilterKeepsDigits(s: string, p: char -> bool)
    requires forall c :: IsDigit(c) ==> p(c)
    ensures DigitsOf(Filter(s, p)) == DigitsOf(s)
  {
    if s != [] {
      FilterKeepsDigits(s[1..], p);
      var head := if p(s[0]) then [s[0]] else [];
      DigitsOfAppend(head, Filter(s[1..], p));
    }
  }

  /** The value `parseFloat` reads from a cleaned amount. */
  function ParseAmount(cleaned: string): Num {
    ParseFloat(cleaned)
  }

  /** The texts rejected before parsing. */
  predicate EmptyAmount(cleaned: string) {
    cleaned == "" || cleaned == "."
  }

  /** `handleDeposit`'s guards: the amount sent, or the message shown instead. */
  function HandleDeposit(hasUser: bool, amount: string): (r: Result<real, string>)
    ensures !hasUser ==> r == Err("Usuário não autenticado")
    ensures hasUser ==> r == Guard(CleanAmount(amount))
  {
    if !hasUser then Err("Usuário não autenticado")
    else Guard(CleanAmount(amount))
  }

  /** The guards on the cleaned text, once a user is known. */
  function Guard(cleaned: string): (r: Result<real, string>)
    ensures EmptyAmount(cleaned) ==> r == Err("Por favor, insira um valor válido")
    ensures r.Ok? ==> r.value > 0.0 && PriceCalculator.IsCents(r.value)
    ensures r.Ok? <==> !EmptyAmount(cleaned) && ParseAmount(cleaned).Fin?
                       && PriceCalculator.RoundCents(ParseAmount(cleaned).v) > 0.0
    ensures r.Ok? ==> r.value == PriceCalculator.RoundCents(ParseAmount(cleaned).v)
  {
    if EmptyAmount(cleaned) then Err("Por favor, insira um valor válido")
    else
      var deposit := ParseAmount(cleaned);
      if deposit.NaN? || deposit.v <= 0.0 then Err("Por favor, insira um valor maior que zero")
      else
        var final := PriceCalculator.RoundCents(deposit.v);
        if final <= 0.0 then Err("O valor deve ser maior que zero")
        else Ok(final)
  }

  /** `formatAmount`: keep digits, ',' and '.', turn the first ',' into '.', keep one '.'. */
  function FormatAmount(text: string): (r: string)
    ensures Count(r, '.') <= 1
    ensures forall i :: 0 <= i < |r| ==> IsAmountChar(r[i])
    ensures DigitsOf(r) == DigitsOf(text)
  {
    var cleaned := Filter(text, IsAmountChar);
    var normalized := ReplaceFirst(cleaned, ',', '.');
    var parts := Split(normalized, '.');
    FilterKeepsDigits(text, IsAmountChar);
    ReplaceKeepsDigits(cleaned, ',', '.');
    ReplaceKeepsAmountChars(cleaned);
    if |parts| > 2 then
      FormatJoinedParts(normalized);
      parts[0] + "." + Join(parts[1..], "")
    else normalized
  }

  lemma ReplaceKeepsAmountChars(s: string)
    requires forall i :: 0 <= i < |s| ==> IsAmountChar(s[i])
    ensures forall i :: 0 <= i < |s| ==> IsAmountChar(ReplaceFirst(s, ',', '.')[i])
  {
  }

  /** Collapsing the pieces after the first '.' keeps one '.', the characters and the digits. */
  lemma FormatJoinedParts(s: string)
    requires forall i :: 0 <= i < |s| ==> IsAmountChar(s[i])
    requires |Split(s, '.')| > 2
    ensures var parts := Split(s, '.');
            var r := parts[0] + "." + Join(parts[1..], "");
            Count(r, '.') == 1 && DigitsOf(r) == DigitsOf(s)
            && forall i :: 0 <= i < |r| ==> IsAmountChar(r[i])
  {
    var parts := Split(s, '.');
    var tail := Join(parts[1..], "");
    JoinSplit(s, '.');
    assert Join(parts, ".") == parts[0] + "." + Join(parts[1..], ".");
    DigitsOfJoin(parts[1..], ".");
    DigitsOfAppend(parts[0] + ".", Join(parts[1..], "."));
    DigitsOfAppend(parts[0] + ".", tail);
    JoinPiecesWithout(parts[1..], '.');
    CountAbsent(parts[0], '.');
    CountAbsent(tail, '.');
    CountAppend(parts[0] + ".", tail, '.');
    CountAppend(parts[0], ".", '.');
    SplitPiecesKeep(s, '.', IsAmountChar);
    assert forall k, i :: 0 <= k < |parts[1..]| && 0 <= i < |parts[1..][k]| ==>
             parts[1..][k][i] == parts[k + 1][i];
    JoinKeeps(parts[1..], IsAmountChar);
  }

  /** Concatenating pieces that lack c gives a string that lacks c. */
  lemma {:induction false} JoinPiecesWithout(parts: seq<string>, c: char)
    requires forall k :: 0 <= k < |parts| ==> c !in parts[k]
    ensures c !in Join(parts, "")
  {
    if |parts| > 1 {
      JoinPiecesWithout(parts[1..], c);
      assert Join(parts, "") == parts[0] + "" + Join(parts[1..], "");
    }
  }

  /** Concatenating pieces whose characters satisfy p keeps that. */
  lemma {:induction false} JoinKeeps(parts: seq<string>, p: char -> bool)
    requires forall k, i :: 0 <= k < |parts| && 0 <= i < |parts[k]| ==> p(parts[k][i])
    ensures forall i :: 0 <= i < |Join(parts, "")| ==> p(Join(parts, "")[i])
  {
    if |parts| > 1 {
      JoinKeeps(parts[1..], p);
      assert Join(parts, "") == parts[0] + Join(parts[1..], "");
    }
  }

  /** The pieces of a split hold only characters of the split string. */
  lemma {:induction false} SplitPiecesKeep(s: string, c: char, p: char -> bool)
    requires forall i :: 0 <= i < |s| ==> p(s[i])
    ensures forall k, i :: 0 <= k < |Split(s, c)| && 0 <= i < |Split(s, c)[k]| ==> p(Split(s, c)[k][i])
  {
    if s != [] {
      SplitPiecesKeep(s[1..], c, p);
    }
  }

  /** The preview's `depositValue`: 0 for empty or '.', and for text that parses to NaN. */
  function DepositValue(amount: string): (v: real)
    ensures EmptyAmount(CleanAmount(amount)) ==> v == 0.0
    ensures v >= 0.0
  {
    var cleaned := CleanAmount(amount);
    if EmptyAmount(cleaned) then 0.0
    else
      match ParseAmount(cleaned)
      case NaN => 0.0
      case Fin(x) =>
        CleanedParsesNonNegative(cleaned);
        x
  }

  /** A cleaned amount has no sign, so it never parses to a negative value. */
  lemma CleanedParsesNonNegative(cleaned: string)
    requires forall i :: 0 <= i < |cleaned| ==> IsDigitOrDot(cleaned[i])
    ensures ParseAmount(cleaned).Fin? ==> ParseAmount(cleaned).v >= 0.0
  {
    assert cleaned != [] ==> !IsSpace(cleaned[0]) && cleaned[0] != '+' && cleaned[0] != '-';
    assert TrimStart(cleaned) == cleaned;
    assert ParseAmount(cleaned) == ParseUnsigned(cleaned);
    match ScanDecimal(cleaned)
    case Some(d) => DecimalValueNonNegative(d);
    case None =>
  }

  /** The preview balance: the wallet (0 when absent) plus the preview value. */
  function PreviewBalance(wallet: Option<real>, amount: string): (b: real)
    ensures b >= (if wallet.Some? then wallet.value else 0.0)
  {
    (if wallet.Some? then wallet.value else 0.0) + DepositValue(amount)
  }

  /** The deposit button is disabled while submitting or when the preview value is not positive. */
  predicate DepositEnabled(isSubmitting: bool, amount: string) {
    !isSubmitting && DepositValue(amount) > 0.0
  }

  /** A deposit that the guards accept was typed with the button enabled. */
  lemma AcceptedDepositWasEnabled(amount: string)
    requires HandleDeposit(true, amount).Ok?
    ensures DepositEnabled(false, amount)
    ensures HandleDeposit(true, amount).value == PriceCalculator.RoundCents(DepositValue(amount))
    ensures DepositValue(amount) - 0.005 < HandleDeposit(true, amount).value <= DepositValue(amount) + 0.005
  {
  }

  lemma CleanTiny()
    ensures CleanAmount("0.004") == "0.004"
  {
    var s := "0.004";
    assert s == ['0', '.', '0', '0', '4'];
    assert !IsSpace(s[0]);
    assert TrimStart(s) == s;
    assert !IsSpace(s[|s| - 1]);
    assert TrimEnd(s) == s;
    assert ',' !in s;
    assert ReplaceFirst(s, ',', '.') == s;
    assert forall x :: x in s ==> IsDigitOrDot(x);
    FilterAll(s, IsDigitOrDot);
  }

  lemma ParseTiny()
    ensures ParseAmount("0.004") == Fin(0.004)
  {
    var s := "0.004";
    assert TrimStart(s) == s by {
      assert !IsSpace(s[0]);
    }
    assert ParseAmount(s) == ParseUnsigned(s);
    ScanTiny();
    DigitsTiny();
    assert DecimalValue(Decimal("0", "004", 5)) == 4.0 / 1000.0;
  }

  lemma ScanTiny()
    ensures ScanDecimal("0.004") == Some(Decimal("0", "004", 5))
  {
    var s := "0.004";
    LeadingTiny();
    assert s[..1] == "0";
    assert s[2..] == "004" && s[2..][..3] == "004" && s[2..5] == "004";
  }

  lemma LeadingTiny()
    ensures LeadingDigits("0.004") == 1
    ensures LeadingDigits("004") == 3
  {
    assert "0.004"[1..] == ".004";
    assert LeadingDigits(".004") == 0;
    assert "004"[1..] == "04" && "04"[1..] == "4" && "4"[1..] == "";
    assert LeadingDigits("4") == 1;
    assert LeadingDigits("04") == 2;
  }

  lemma DigitsTiny()
    ensures DigitsValue("0") == 0
    ensures DigitsValue("004") == 4
    ensures Pow10(3) == 1000
  {
    assert "0"[..0] == "";
    assert "004"[..2] == "00" && "00"[..1] == "0";
    assert DigitsValue("00") == 0;
  }

  /** The converse fails: 0.004 enables the button but rounds to zero cents. */
  lemma TinyAmountRejected()
    ensures DepositEnabled(false, "0.004")
    ensures HandleDeposit(true, "0.004") == Err("O valor deve ser maior que zero")
  {
    CleanTiny();
    GuardTiny();
    ValueTiny();
  }

  lemma RoundTiny()
    ensures PriceCalculator.RoundCents(0.004) == 0.0
  {
    assert (0.004 * 100.0 + 0.5).Floor == 0;
  }

  lemma GuardTiny()
    ensures Guard("0.004") == Err("O valor deve ser maior que zero")
  {
    ParseTiny();
    RoundTiny();
  }

  lemma ValueTiny()
    ensures DepositValue("0.004") == 0.004
  {
    CleanTiny();
    ParseTiny();
  }
}
