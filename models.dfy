/**
  The `Transaction` record: its field constraints, its `__str__`, and the
  table that holds the records (identifier unique, never edited).
*/
module Models {
  import opened Wrappers
  import opened Decimals
  import opened Strings
  import opened DecimalText

  datatype Transaction = Transaction(
    id: nat,                  // AutoField primary key
    identifier: nat,          // the UUID, as a number
    customerId: int,
    inputAmount: Decimal,
    inputCurrency: string,
    outputAmount: Decimal,
    outputCurrency: string,
    transactionDate: int      // auto_now_add: the creation time
  )

  const MaxDigits: nat := 15
  const DecimalPlaces: nat := 2
  const CurrencyLength: nat := 3

  /**
    A value DecimalField(max_digits=15, decimal_places=2) accepts: at most
    two fractional digits (trailing zeros count, so 5.000 is refused) and at
    most thirteen integer digits. Here |coef| * 10^(exp + 2) is the value in
    hundredths, so the second condition says it has at most fifteen digits.
  */
  predicate FitsAmountField(d: Decimal)
  {
    && d.exp >= -(DecimalPlaces as int)
    && Abs(d.coef) * Pow10((d.exp + DecimalPlaces) as nat) < Pow10(MaxDigits)
  }

  /** An amount as the column holds it: exactly two fractional digits, fifteen digits in all. */
  predicate StoredAmount(d: Decimal)
  {
    d.exp == -(DecimalPlaces as int) && Abs(d.coef) < Pow10(MaxDigits)
  }

  /** The stored form of an accepted amount: the same value written with two places (5 becomes 5.00). */
  function StoreAmount(d: Decimal): (r: Decimal)
    requires FitsAmountField(d)
    ensures StoredAmount(r) && SameValue(r, d)
  {
    AmountFieldIsTwoPlaceFit(d);
    Quantize(d, DecimalPlaces)
  }

  /**
    The field accepts an amount exactly when no digit would be dropped at
    two places and the two-place form has at most fifteen digits; a stored
    amount is accepted and stored as it is.
  */
  lemma AmountFieldIsTwoPlaceFit(d: Decimal)
    ensures FitsAmountField(d) <==> d.exp >= -2 && StoredAmount(Quantize(d, 2))
  {
    if d.exp >= -2 {
      var k: nat := d.exp + 2;
      assert Quantize(d, 2).coef == d.coef * Pow10(k);
      AbsOfMultiple(d.coef, Pow10(k));
      assert Abs(Quantize(d, 2).coef) == Abs(d.coef) * Pow10(k);
    }
  }

  lemma StoredAmountIsKept(d: Decimal)
    ensures StoredAmount(d) ==> FitsAmountField(d) && StoreAmount(d) == d
  {
    if StoredAmount(d) {
      assert (d.exp + 2) as nat == 0;
      assert Abs(d.coef) * Pow10(0) == Abs(d.coef);
    }
  }

  /** 5 is stored as 5.00 and 9999999999999 fits; 1.005 and 10^13 are refused. */
  lemma AmountFieldExamples()
    ensures FitsAmountField(Decimal(5, 0)) && StoreAmount(Decimal(5, 0)) == Decimal(500, -2)
    ensures FitsAmountField(Decimal(9999999999999, 0))
    ensures !FitsAmountField(Decimal(1005, -3))
    ensures !FitsAmountField(Decimal(10000000000000, 0))
  {
    assert Pow10(2) == 100;
    assert Pow10(15) == 1000000000000000;
  }

  /** A CharField(max_length=3) value. */
  predicate FitsCurrencyField(s: string)
  {
    |s| <= CurrencyLength
  }

  /** What the serializer's field validation demands of the four saved values. */
  predicate FieldsAccepted(inputAmount: Decimal, inputCurrency: string, outputAmount: Decimal, outputCurrency: string)
  {
    && FitsAmountField(inputAmount)
    && FitsAmountField(outputAmount)
    && FitsCurrencyField(inputCurrency)
    && FitsCurrencyField(outputCurrency)
  }

  predicate ValidTransaction(t: Transaction)
  {
    && StoredAmount(t.inputAmount)
    && StoredAmount(t.outputAmount)
    && FitsCurrencyField(t.inputCurrency)
    && FitsCurrencyField(t.outputCurrency)
  }

  /** `__str__`: customer id, input amount and input currency joined by single spaces. */
  function TransactionStr(t: Transaction): string
    requires -6 <= t.inputAmount.exp <= 0
  {
    IntStr(t.customerId) + " " + Format(t.inputAmount) + " " + t.inputCurrency
  }

  lemma IntStrHasNoSpace(i: int)
    ensures Free(IntStr(i), ' ')
  {
    DigitsHaveNoPointOrSpace(NatStr(if i < 0 then -i else i));
  }

  lemma FormatHasNoSpace(d: Decimal)
    requires -6 <= d.exp <= 0
    ensures Free(Format(d), ' ')
  {
    var m, p := Abs(d.coef), -d.exp;
    if p == 0 {
      DigitsHaveNoPointOrSpace(NatStr(m));
    } else {
      var (whole, frac) := DivModPow(m, p);
      NatStrShorterThanPower(frac, p);
      DigitsHaveNoPointOrSpace(NatStr(whole));
      PadZerosKeepsValue(NatStr(frac), p);
      DigitsHaveNoPointOrSpace(PadZeros(NatStr(frac), p));
    }
  }

  /**
    The three parts of `__str__` can be read back: splitting on spaces gives
    the customer id, the amount (which parses to the stored decimal) and the
    currency, whenever the currency holds no space.
  */
  lemma {:induction false} TransactionStrFields(t: Transaction)
    requires -6 <= t.inputAmount.exp <= 0
    requires Free(t.inputCurrency, ' ')
    ensures Split(TransactionStr(t), ' ') ==
            [IntStr(t.customerId), Format(t.inputAmount), t.inputCurrency]
    ensures Parse(Split(TransactionStr(t), ' ')[1]) == Some(t.inputAmount)
  {
    IntStrHasNoSpace(t.customerId);
    FormatHasNoSpace(t.inputAmount);
    SplitJoin3(IntStr(t.customerId), Format(t.inputAmount), t.inputCurrency, ' ');
    ParseFormat(t.inputAmount);
  }

  datatype InsertError = FieldInvalid | DuplicateIdentifier

  /** The identifiers of the records, as the unique index on the column sees them. */
  function Identifiers(records: seq<Transaction>): (ids: set<nat>)
    ensures forall x :: x in ids <==> exists i :: 0 <= i < |records| && records[i].identifier == x
  {
    set i | 0 <= i < |records| :: records[i].identifier
  }

  /** No two records share an identifier. */
  predicate IdentifiersUnique(records: seq<Transaction>)
  {
    forall i, j :: 0 <= i < j < |records| ==> records[i].identifier != records[j].identifier
  }

  /** Appending a record with a new identifier adds that identifier and keeps them unique. */
  lemma AppendFresh(records: seq<Transaction>, t: Transaction)
    requires IdentifiersUnique(records) && t.identifier !in Identifiers(records)
    ensures IdentifiersUnique(records + [t])
    ensures Identifiers(records + [t]) == Identifiers(records) + {t.identifier}
  {
    var after := records + [t];
    assert after[|records|] == t;
    assert forall i :: 0 <= i < |records| ==> after[i] == records[i];
    forall x | x in Identifiers(records) + {t.identifier}
      ensures x in Identifiers(after)
    {
      if x == t.identifier {
        assert after[|records|].identifier == x;
      } else {
        var i :| 0 <= i < |records| && records[i].identifier == x;
        assert after[i].identifier == x;
      }
    }
  }

  /**
    The transactions table. Records are only ever appended: no member
    changes a stored record, so the identifier and the creation date set
    at insertion stay as they were.
  */
  class Ledger {
    var records: seq<Transaction>
    var identifiers: set<nat>

    ghost predicate Valid()
      reads this
    {
      identifiers == Identifiers(records) && IdentifiersUnique(records)
    }

    constructor ()
      ensures Valid() && records == []
    {
      records := [];
      identifiers := {};
    }

    /**
      Saves a new record with a fresh identifier (uuid4, given here) and the
      creation time now. Field validation comes first: an amount outside
      DecimalField(15, 2) or a code longer than three characters is refused.
      An identifier already in the table (unique=True) is refused next.
      Amounts are stored with two places.
    */
    method Insert(customerId: int, inputAmount: Decimal, inputCurrency: string,
                  outputAmount: Decimal, outputCurrency: string, identifier: nat, now: int)
      returns (r: Result<Transaction, InsertError>)
      requires Valid()
      modifies this
      ensures Valid()
      ensures r.Ok? ==> records == old(records) + [r.value]
      ensures r.Err? ==> records == old(records)
      ensures r == Err(FieldInvalid) <==> !FieldsAccepted(inputAmount, inputCurrency, outputAmount, outputCurrency)
      ensures r == Err(DuplicateIdentifier) <==>
              FieldsAccepted(inputAmount, inputCurrency, outputAmount, outputCurrency) &&
              exists i :: 0 <= i < |old(records)| && old(records)[i].identifier == identifier
      ensures r.Ok? ==> r.value == Transaction(|old(records)| + 1, identifier, customerId, Quantize(inputAmount, 2),
                                               inputCurrency, Quantize(outputAmount, 2), outputCurrency, now)
      ensures r.Ok? ==> ValidTransaction(r.value)
      ensures r.Ok? ==> SameValue(r.value.inputAmount, inputAmount) && SameValue(r.value.outputAmount, outputAmount)
    {
      if !FieldsAccepted(inputAmount, inputCurrency, outputAmount, outputCurrency) {
        r := Err(FieldInvalid);
      } else if identifier in identifiers {
        r := Err(DuplicateIdentifier);
      } else {
        var t := Transaction(|records| + 1, identifier, customerId, StoreAmount(inputAmount),
                             inputCurrency, StoreAmount(outputAmount), outputCurrency, now);
        AppendFresh(records, t);
        records := records + [t];
        identifiers := identifiers + {identifier};
        r := Ok(t);
      }
    }
  }
}
