/** The data-entry script around the unit table: how one typed answer becomes a number,
    the prompt loop that repeats until an answer is accepted, and the pass that converts
    the collected record from the statements' unit to another. */
module DataEntry {
  import opened UnitConversion

  /** Python's option type, for results that may be missing. */
  datatype Option<T> = Some(value: T) | None

  // ---------------------------------------------------------------------------
  // Preprocessing of one answer

  /** The ASCII characters that `str.strip` removes. */
  predicate IsSpace(c: char)
  {
    c == ' ' || c == '\t' || c == '\n' || c == '\r' || c == '\U{000B}' || c == '\U{000C}'
      || c == '\U{001C}' || c == '\U{001D}' || c == '\U{001E}' || c == '\U{001F}'
  }

  /** Removes leading white space: what remains is a suffix of `s` that does not start with
      white space, and everything cut off was white space. */
  function StripLeading(s: string): (r: string)
    ensures |r| <= |s| && r == s[|s| - |r|..]
    ensures |r| > 0 ==> !IsSpace(r[0])
    ensures forall i :: 0 <= i < |s| - |r| ==> IsSpace(s[i])
  {
    if |s| > 0 && IsSpace(s[0]) then StripLeading(s[1..]) else s
  }

  /** Removes trailing white space: what remains is a prefix of `s` that does not end with
      white space, and everything cut off was white space. */
  function StripTrailing(s: string): (r: string)
    ensures |r| <= |s| && r == s[..|r|]
    ensures |r| > 0 ==> !IsSpace(r[|r| - 1])
    ensures forall i :: |r| <= i < |s| ==> IsSpace(s[i])
  {
    if |s| > 0 && IsSpace(s[|s| - 1]) then StripTrailing(s[..|s| - 1]) else s
  }

  /** Python's `str.strip()` restricted to ASCII white space: the answer with its leading and
      trailing white space cut off, and nothing else. */
  function Strip(s: string): (r: string)
    ensures |r| > 0 ==> !IsSpace(r[0]) && !IsSpace(r[|r| - 1])
    ensures exists a, b :: 0 <= a <= b <= |s| && r == s[a..b]
                           && forall i :: (0 <= i < a || b <= i < |s|) ==> IsSpace(s[i])
  {
    var lead := StripLeading(s);
    var r := StripTrailing(lead);
    StripCutsSpaceOnly(s, lead, r);
    var a, b := |s| - |lead|, |s| - |lead| + |r|;
    assert forall i :: (0 <= i < a || b <= i < |s|) ==> IsSpace(s[i]);
    r
  }

  /** Cutting white space off the front of `s`, then off the back of what is left, keeps one
      slice of `s` and cuts only white space around it. */
  lemma StripCutsSpaceOnly(s: string, lead: string, r: string)
    requires |lead| <= |s| && lead == s[|s| - |lead|..] && |r| <= |lead| && r == lead[..|r|]
    requires forall i :: 0 <= i < |s| - |lead| ==> IsSpace(s[i])
    requires forall i :: |r| <= i < |lead| ==> IsSpace(lead[i])
    ensures |r| <= |lead| <= |s|
    ensures r == s[|s| - |lead|..|s| - |lead| + |r|]
    ensures forall i :: 0 <= i < |s| - |lead| ==> IsSpace(s[i])
    ensures forall i :: |s| - |lead| + |r| <= i < |s| ==> IsSpace(s[i])
  {
    var a := |s| - |lead|;
    PrefixOfSuffix(s, a, lead, r);
    forall i | a + |r| <= i < |s|
      ensures IsSpace(s[i])
    {
      assert s[i] == lead[i - a];
    }
  }

  /** A prefix of a suffix of `s` is a slice of `s`. */
  lemma PrefixOfSuffix(s: string, a: nat, suffix: string, prefix: string)
    requires a <= |s| && suffix == s[a..] && |prefix| <= |suffix| && prefix == suffix[..|prefix|]
    ensures prefix == s[a..a + |prefix|]
  {
  }

  /** A string that neither starts nor ends with white space is unchanged by stripping. */
  lemma StripKeepsTrimmed(s: string)
    requires |s| > 0 ==> !IsSpace(s[0]) && !IsSpace(s[|s| - 1])
    ensures Strip(s) == s
  {
  }

  /** Stripping twice is stripping once. */
  lemma StripIsIdempotent(s: string)
    ensures Strip(Strip(s)) == Strip(s)
  {
    StripKeepsTrimmed(Strip(s));
  }

  /** An answer strips to nothing exactly when it is all white space. */
  lemma {:induction false} StripEmptyIffAllSpace(s: string)
    ensures Strip(s) == [] <==> forall i :: 0 <= i < |s| ==> IsSpace(s[i])
  {
    if |s| > 0 && IsSpace(s[0]) {
      StripEmptyIffAllSpace(s[1..]);
      assert forall i :: 1 <= i < |s| ==> s[i] == s[1..][i - 1];
    }
  }

  /** `str.replace(',', '')`: the answer with every comma taken out. */
  function RemoveCommas(s: string): (r: string)
    ensures ',' !in r
    ensures |r| <= |s|
  {
    if |s| == 0 then s
    else if s[0] == ',' then RemoveCommas(s[1..])
    else [s[0]] + RemoveCommas(s[1..])
  }

  /** Without commas there is nothing to remove. */
  lemma {:induction false} RemoveCommasKeepsCommaFree(s: string)
    requires ',' !in s
    ensures RemoveCommas(s) == s
  {
    if |s| > 0 {
      assert ',' !in s[1..];
      RemoveCommasKeepsCommaFree(s[1..]);
      assert s == [s[0]] + s[1..];
    }
  }

  /** Removing commas works piece by piece: the pieces of an answer are cleaned separately. */
  lemma {:induction false} RemoveCommasOfConcat(a: string, b: string)
    ensures RemoveCommas(a + b) == RemoveCommas(a) + RemoveCommas(b)
  {
    if |a| > 0 {
      assert (a + b)[1..] == a[1..] + b;
      RemoveCommasOfConcat(a[1..], b);
    } else {
      assert a + b == b;
    }
  }

  /** Removing commas keeps every other character, in order: the count of each other character is unchanged. */
  lemma {:induction false} RemoveCommasKeepsOthers(s: string, c: char)
    requires c != ','
    ensures multiset(RemoveCommas(s))[c] == multiset(s)[c]
  {
    if |s| > 0 {
      RemoveCommasKeepsOthers(s[1..], c);
      assert s == [s[0]] + s[1..];
    }
  }

  /** One answer after the preprocessing: blank, or the text handed to the number parser. */
  datatype Prepared = Blank | Text(text: string)

  /** Trims the answer; a blank answer is blank, and otherwise its commas are removed. */
  function Prepare(answer: string): (p: Prepared)
    ensures p.Blank? <==> forall i :: 0 <= i < |answer| ==> IsSpace(answer[i])
    ensures p.Text? ==> ',' !in p.text
    ensures p.Text? ==> p.text == RemoveCommas(Strip(answer))
  {
    var trimmed := Strip(answer);
    StripEmptyIffAllSpace(answer);
    if |trimmed| == 0 then Blank else Text(RemoveCommas(trimmed))
  }

  /** The number an answer gives, with `parse` standing for Python's `float()` applied to the
      prepared text (`None` where it raises): a blank answer gives 0.0. */
  function ValidatedFloat(answer: string, parse: string -> Option<real>): (r: Option<real>)
    ensures (forall i :: 0 <= i < |answer| ==> IsSpace(answer[i])) ==> r == Some(0.0)
    ensures !(forall i :: 0 <= i < |answer| ==> IsSpace(answer[i])) ==> r == parse(RemoveCommas(Strip(answer)))
  {
    match Prepare(answer)
    case Blank => Some(0.0)
    case Text(t) => parse(t)
  }

  /** Thousands separators do not matter: an answer with commas inside reads as the same
      number as the answer without them. */
  lemma CommasDoNotChangeTheNumber(before: string, after: string, parse: string -> Option<real>)
    requires |before| > 0 && !IsSpace(before[0]) && |after| > 0 && !IsSpace(after[|after| - 1])
    requires ',' !in before && ',' !in after
    ensures ValidatedFloat(before + "," + after, parse) == ValidatedFloat(before + after, parse)
  {
    var s, t := before + "," + after, before + after;
    assert s[0] == before[0] && s[|s| - 1] == after[|after| - 1];
    assert t[0] == before[0] && t[|t| - 1] == after[|after| - 1];
    PrepareTrimmed(s);
    PrepareTrimmed(t);
    RemoveInnerComma(before, after);
    RemoveCommasOfConcat(before, after);
    RemoveCommasKeepsCommaFree(before);
    RemoveCommasKeepsCommaFree(after);
  }

  /** An answer with no white space at either end is only cleaned of commas. */
  lemma PrepareTrimmed(s: string)
    requires |s| > 0 && !IsSpace(s[0]) && !IsSpace(s[|s| - 1])
    ensures Prepare(s) == Text(RemoveCommas(s))
  {
    StripKeepsTrimmed(s);
  }

  /** A single comma between comma-free pieces is removed and the pieces are joined. */
  lemma RemoveInnerComma(before: string, after: string)
    requires ',' !in before && ',' !in after
    ensures RemoveCommas(before + "," + after) == before + after
  {
    RemoveTrailingComma(before);
    RemoveCommasOfConcat(before + ",", after);
    RemoveCommasKeepsCommaFree(after);
  }

  /** A comma at the end of a comma-free piece is removed. */
  lemma RemoveTrailingComma(before: string)
    requires ',' !in before
    ensures RemoveCommas(before + ",") == before
  {
    assert RemoveCommas(",") == "" by { assert ","[1..] == ""; }
    RemoveCommasOfConcat(before, ",");
    RemoveCommasKeepsCommaFree(before);
  }

  /** The prompt loop of one number over the answers typed in turn: the first answer that
      reads as a number is the value; `used` says how many answers were read. */
  method GetValidatedFloat(answers: seq<string>, parse: string -> Option<real>)
    returns (found: bool, value: real, used: nat)
    ensures found ==> 0 < used <= |answers| && ValidatedFloat(answers[used - 1], parse) == Some(value)
    ensures !found ==> used == |answers| && value == 0.0
    ensures forall k :: 0 <= k < used - (if found then 1 else 0) ==> ValidatedFloat(answers[k], parse).None?
  {
    found, value, used := false, 0.0, 0;
    while used < |answers|
      invariant used <= |answers|
      invariant forall k :: 0 <= k < used ==> ValidatedFloat(answers[k], parse).None?
    {
      var v := ValidatedFloat(answers[used], parse);
      used := used + 1;
      if v.Some? {
        found, value := true, v.value;
        return;
      }
    }
  }

  // ---------------------------------------------------------------------------
  // The collected record and its conversion

  /** The fields the script asks for, in order. */
  const CollectedFields: seq<string> := [
    "ppe_gross", "accumulated_depreciation", "goodwill", "other_intangible_assets",
    "non_current_investments", "inventories", "current_investments", "trade_receivables",
    "cash_and_equivalents", "bank_balances", "other_current_assets", "equity_share_capital",
    "other_equity", "non_controlling_interest", "long_term_borrowings", "short_term_borrowings",
    "trade_payables", "other_current_liabilities", "current_provisions", "shares_outstanding",
    "face_value_per_share", "revenue_from_operations", "other_income", "cost_materials_consumed",
    "purchases_stock_in_trade", "changes_in_inventories", "employee_benefits_expense", "finance_costs",
    "depreciation_amortisation", "other_expenses", "profit_before_tax", "tax_expense",
    "profit_for_period", "weighted_avg_shares", "dilutive_potential_shares", "cfo_profit_before_tax",
    "cfo_depreciation_amortisation", "cfo_finance_costs", "cfo_interest_income", "cfo_change_inventories",
    "cfo_change_receivables", "cfo_change_payables", "cash_generated_from_ops", "income_taxes_paid",
    "purchase_ppe", "sale_ppe", "cfi_interest_received", "cfi_dividends_received",
    "proceeds_issue_shares", "proceeds_long_term_borrowings", "repayment_long_term_borrowings",
    "cff_interest_paid", "dividends_paid"
  ]

  /** The fields entered as absolute numbers, which the conversion leaves alone. */
  const AbsoluteKeys: set<string> :=
    {"shares_outstanding", "face_value_per_share", "weighted_avg_shares", "dilutive_potential_shares"}

  /** Every absolute field is one the script collects. */
  lemma AbsoluteKeysAreCollected()
    ensures forall k :: k in AbsoluteKeys ==> k in CollectedFields
  {
    assert CollectedFields[19] == "shares_outstanding";
    assert CollectedFields[20] == "face_value_per_share";
    assert CollectedFields[33] == "weighted_avg_shares";
    assert CollectedFields[34] == "dilutive_potential_shares";
  }

  /** The value a field holds after conversion. */
  function ConvertField(key: string, value: real, baseUnit: string, targetUnit: string): real
    requires baseUnit == targetUnit || (IsUnit(baseUnit) && IsUnit(targetUnit))
  {
    if key in AbsoluteKeys then value else ConvertUnits(value, baseUnit, targetUnit)
  }

  /** The conversion pass: the record that results from converting every field of `data`. */
  function ConvertedRecord(data: map<string, real>, baseUnit: string, targetUnit: string): (c: map<string, real>)
    requires baseUnit == targetUnit || (IsUnit(baseUnit) && IsUnit(targetUnit))
    ensures c.Keys == data.Keys
    ensures forall k :: k in data && k in AbsoluteKeys ==> c[k] == data[k]
    ensures IsUnit(baseUnit) && IsUnit(targetUnit) ==>
              forall k :: k in data && k !in AbsoluteKeys ==> c[k] * Factor(targetUnit) == data[k] * Factor(baseUnit)
  {
    map k | k in data :: ConvertField(k, data[k], baseUnit, targetUnit)
  }

  /** The loop that builds the converted record field by field. The fields are taken in an
      arbitrary order; the dictionary it builds does not depend on the order. */
  method ConvertRecord(data: map<string, real>, baseUnit: string, targetUnit: string)
    returns (converted: map<string, real>)
    requires IsUnit(baseUnit) && IsUnit(targetUnit)
    ensures converted == ConvertedRecord(data, baseUnit, targetUnit)
  {
    converted := map[];
    var pending := data.Keys;
    while pending != {}
      invariant pending <= data.Keys
      invariant converted.Keys == data.Keys - pending
      invariant forall k :: k in converted ==> converted[k] == ConvertField(k, data[k], baseUnit, targetUnit)
      decreases |pending|
    {
      var key :| key in pending;
      var value := data[key];
      if key in AbsoluteKeys {
        converted := converted[key := value];
      } else {
        var convertedValue := ConvertUnits(value, baseUnit, targetUnit);
        converted := converted[key := convertedValue];
      }
      pending := pending - {key};
    }
  }

  /** Converting the record to another unit and back gives the original record. */
  lemma RecordRoundTrip(data: map<string, real>, baseUnit: string, targetUnit: string)
    requires IsUnit(baseUnit) && IsUnit(targetUnit)
    ensures ConvertedRecord(ConvertedRecord(data, baseUnit, targetUnit), targetUnit, baseUnit) == data
  {
    var there := ConvertedRecord(data, baseUnit, targetUnit);
    var back := ConvertedRecord(there, targetUnit, baseUnit);
    forall k | k in data
      ensures back[k] == data[k]
    {
      if k !in AbsoluteKeys {
        ConversionRoundTrip(data[k], baseUnit, targetUnit);
      }
    }
  }

  /** Converting to the unit the data is already in changes nothing. */
  lemma RecordToSameUnit(data: map<string, real>, unit: string)
    ensures ConvertedRecord(data, unit, unit) == data
  {
  }
}
