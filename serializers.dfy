/**
  The field validators of TransactionSerializer. Each parses, compares or
  quantizes once and either returns a value or raises a ValidationError
  (an Err here).
*/
module Serializers {
  import opened Wrappers
  import opened Decimals
  import opened Strings
  import opened DecimalText

  /** A JSON amount as it arrives: a string, an integer, or an already parsed decimal. */
  datatype RawAmount =
    | TextAmount(s: string)
    | IntegerAmount(i: int)
    | DecimalAmount(d: Decimal)

  /** `Decimal(value)`: None where Python raises InvalidOperation. */
  function ToDecimal(v: RawAmount): (r: Option<Decimal>)
    ensures r.None? <==> v.TextAmount? && Parse(v.s).None?
    ensures v.TextAmount? ==> r == Parse(v.s)
    ensures v.IntegerAmount? ==> r == Some(Decimal(v.i, 0))
    ensures v.DecimalAmount? ==> r == Some(v.d)
  {
    match v
    case TextAmount(s) => Parse(s)
    case IntegerAmount(i) => Some(Decimal(i, 0))
    case DecimalAmount(d) => Some(d)
  }

  /** Python truthiness of an amount value. */
  predicate AmountTruthy(v: RawAmount)
  {
    match v
    case TextAmount(s) => s != ""
    case IntegerAmount(i) => i != 0
    case DecimalAmount(d) => d.coef != 0
  }

  /** Python truthiness of an optional string field. */
  predicate Present(s: Option<string>)
  {
    s.Some? && s.value != ""
  }

  datatype ValidationError =
    | NotPositive        // "Amount must be greater than zero."
    | InvalidInput       // "Invalid input amount."
    | InvalidOutput      // "Invalid output amount."
    | CurrenciesMissing  // "Both input_currency and output_currency are required."

  /** `validate_input_amount`: the parsed decimal when it is greater than zero. */
  function ValidateInputAmount(v: RawAmount): (r: Result<Decimal, ValidationError>)
    ensures r.Ok? <==> ToDecimal(v).Some? && IsPositive(ToDecimal(v).value)
    ensures r.Ok? ==> r.value == ToDecimal(v).value && r.value.coef > 0
    ensures r == Err(InvalidInput) <==> ToDecimal(v).None?
    ensures r == Err(NotPositive) <==> ToDecimal(v).Some? && ToDecimal(v).value.coef <= 0
  {
    match ToDecimal(v)
    case None => Err(InvalidInput)
    case Some(d) => if d.coef <= 0 then Err(NotPositive) else Ok(d)
  }

  /** Zero and a negative amount are refused as not positive, a non-number as invalid. */
  lemma InputAmountRejections()
    ensures ValidateInputAmount(TextAmount("0")) == Err(NotPositive)
    ensures ValidateInputAmount(TextAmount("-5")) == Err(NotPositive)
    ensures ValidateInputAmount(TextAmount("abc")) == Err(InvalidInput)
  {
    ParseZero();
    ParseMinusFive();
    ParseLetters();
  }

  lemma ParseZero()
    ensures Parse("0") == Some(Decimal(0, 0))
  {
    assert IndexOf("0", '.') == 1;
    assert "0"[..1] == "0";
    assert DigitsValue("0") == 0 by { assert "0"[..0] == ""; }
  }

  lemma ParseMinusFive()
    ensures Parse("-5") == Some(Decimal(-5, 0))
  {
    assert "-5"[1..] == "5";
    assert IndexOf("5", '.') == 1;
    assert "5"[..1] == "5";
    assert DigitsValue("5") == 5 by { assert "5"[..0] == ""; }
  }

  lemma ParseLetters()
    ensures Parse("abc") == None
  {
    assert IndexOf("abc", '.') == 3;
    assert "abc"[..3] == "abc";
    assert !IsDigit('a');
  }

  /**
    `validate_output_amount`: the value quantized to `10 ** -precision`, so
    with exactly `precision` fractional digits, rounded half-even. A value
    that does not parse, or whose quantized coefficient needs more than the
    context's 28 digits, raises InvalidOperation: "Invalid output amount."
  */
  function ValidateOutputAmount(v: RawAmount, precision: nat): (r: Result<Decimal, ValidationError>)
    ensures r.Ok? <==> ToDecimal(v).Some? && QuantizeFitsContext(ToDecimal(v).value, precision)
    ensures r.Err? ==> r.error == InvalidOutput
    ensures r.Ok? ==> r.value.exp == -(precision as int) && Abs(r.value.coef) < Pow10(ContextPrecision)
    ensures r.Ok? && ToDecimal(v).value.exp >= -(precision as int) ==>
              SameValue(r.value, ToDecimal(v).value)
    ensures r.Ok? && ToDecimal(v).value.exp < -(precision as int) ==>
              NearestEven(ToDecimal(v).value.coef, Pow10(-(precision as int) - ToDecimal(v).value.exp), r.value.coef)
  {
    var d := ToDecimal(v);
    if d.Some? && QuantizeFitsContext(d.value, precision) then Ok(Quantize(d.value, precision))
    else Err(InvalidOutput)
  }

  /** Validating an already validated amount with the same precision changes nothing. */
  lemma ValidateOutputAmountIdempotent(v: RawAmount, precision: nat)
    requires ValidateOutputAmount(v, precision).Ok?
    ensures ValidateOutputAmount(DecimalAmount(ValidateOutputAmount(v, precision).value), precision) ==
            ValidateOutputAmount(v, precision)
  {
    QuantizeIdempotent(ToDecimal(v).value, precision);
  }

  /**
    The view hands `str(q)` of its 2-place amount q to this validator, which
    reads it back exactly and quantizes it to the user's precision: the
    stored amount is q re-quantized, not the product rounded once, and it
    is refused when that needs more than 28 digits.
  */
  lemma {:induction false} ValidateViewOutput(q: Decimal, precision: nat)
    requires q.exp == -2
    ensures ValidateOutputAmount(TextAmount(Format(q)), precision) ==
            if QuantizeFitsContext(q, precision) then Ok(Quantize(q, precision)) else Err(InvalidOutput)
  {
    ParseFormat(q);
  }

  /** 92.00 passes at precision 26, where it needs 28 digits. */
  lemma OutputAmountAtContextLimit()
    ensures ValidateOutputAmount(DecimalAmount(Decimal(9200, -2)), 26).Ok?
  {
    NinetyTwoAtContextEdge();
  }

  /** 92.00 is refused at precision 27, where it would need 29 digits. */
  lemma OutputAmountOverContextLimit()
    ensures ValidateOutputAmount(DecimalAmount(Decimal(9200, -2)), 27) == Err(InvalidOutput)
  {
    NinetyTwoAtContextEdge();
  }

  datatype TransactionAttrs = TransactionAttrs(
    customer: Option<int>,
    inputAmount: Option<Decimal>,
    inputCurrency: Option<string>,
    outputAmount: Option<Decimal>,
    outputCurrency: Option<string>
  )

  /** `validate`: both currency codes present and non-empty, attrs passed on unchanged. */
  function Validate(attrs: TransactionAttrs): (r: Result<TransactionAttrs, ValidationError>)
    ensures r.Ok? <==> Present(attrs.inputCurrency) && Present(attrs.outputCurrency)
    ensures r.Ok? ==> r.value == attrs
    ensures r.Err? ==> r.error == CurrenciesMissing
  {
    if !Present(attrs.inputCurrency) || !Present(attrs.outputCurrency) then Err(CurrenciesMissing)
    else Ok(attrs)
  }
}
