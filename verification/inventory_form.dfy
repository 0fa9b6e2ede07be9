/** The inventory form dialog: its category and status options, its defaults, the
    checks its submit handler runs and the parsing of the quantity inputs. */
module InventoryForm {
  import opened Common
  import opened Text
  import opened Inventory

  const CategoryOptions: seq<string> := [
    "Filters", "Mechanical Parts", "Electrical", "Lubricants", "Lighting", "Tools",
    "Safety Equipment", "Cleaning Supplies", "Plumbing", "HVAC Components", "Other"
  ]

  const StatusOptions: seq<(string, StockStatus)> := [
    ("in-stock", InStock), ("low-stock", LowStock), ("out-of-stock", OutOfStock), ("on-order", OnOrder)
  ]

  /** Each status option carries the name the list filters by. */
  lemma StatusOptionsNamed()
    ensures forall i :: 0 <= i < |StatusOptions| ==> StatusOptions[i].0 == StockStatusName(StatusOptions[i].1)
    ensures forall i, j :: 0 <= i < j < |StatusOptions| ==> StatusOptions[i].1 != StatusOptions[j].1
  {
  }

  /** The values the form starts with when it is opened to add an item. */
  const DefaultValues: FormValues := FormValues("", "", "", InStock, 0, 10, 0.0, "", "")

  function InitialValues(defaults: Option<FormValues>): (v: FormValues)
    ensures defaults.None? ==> v.status == InStock && v.quantity == 0 && v.minQuantity == 10
                               && v.name == "" && v.category == ""
    ensures defaults.Some? ==> v == defaults.value
  {
    if defaults.Some? then defaults.value else DefaultValues
  }

  /** The submit handler's checks, first failure wins: a name that is blank once trimmed,
      then an empty category. Values that pass are handed on unchanged. */
  function Validate(values: FormValues): (r: FormOutcome<FormValues>)
    ensures r == FieldError("name", "Item name is required") <==> AllSpace(values.name)
    ensures r == FieldError("category", "Category is required")
            <==> !AllSpace(values.name) && values.category == ""
    ensures r.Submitted? <==> !AllSpace(values.name) && values.category != ""
    ensures r.Submitted? ==> r.values == values
  {
    if Trim(values.name) == "" then FieldError("name", "Item name is required")
    else if values.category == "" then FieldError("category", "Category is required")
    else Submitted(values)
  }

  /** The untouched add form reports only the name error. */
  lemma DefaultFormIsRejected()
    ensures Validate(InitialValues(None)) == FieldError("name", "Item name is required")
  {
  }

  /** What a quantity input stores for the text typed into it: `parseInt(text, 10) || 0`,
      as an exact integer (the double rounding above `MaxSafeInteger` is not modelled). */
  function ParseQuantity(text: string): (n: int)
    ensures ParseInt(text).None? ==> n == 0
    ensures ParseInt(text).Some? ==> n == ParseInt(text).value
  {
    ParseIntOrZero(text)
  }

  /** `Number.MAX_SAFE_INTEGER`: up to here the double `parseInt` returns is exact, and
      the unbounded integer of `ParseQuantity` is the value the form stores. */
  const MaxSafeInteger: nat := 9007199254740991

  /** A typed number reads back as itself, with or without leading zeros. */
  lemma ParseQuantityRoundTrip(n: nat, width: nat)
    requires n <= MaxSafeInteger
    ensures ParseQuantity(ZeroPad(n, width)) == n
  {
    ParseZeroPadded(n, width);
  }

  /** An empty or non-numeric input becomes 0. */
  lemma ParseQuantityOfNonNumbers()
    ensures ParseQuantity("") == 0
    ensures ParseQuantity("abc") == 0
  {
    TrimStartAfterSpaces([], "abc");
    assert [] + "abc" == "abc";
  }

  /** A number followed by text that does not start with a digit reads as the number,
      as "12abc" reads as 12. */
  lemma ParseQuantityIgnoresTrailingText(n: nat, rest: string)
    requires n <= MaxSafeInteger
    requires |rest| == 0 || !IsDigit(rest[0])
    ensures ParseQuantity(NatToDecimal(n) + rest) == n
  {
    ParseIntOfDigits(NatToDecimal(n), rest);
    DecimalRoundTrip(n);
  }
}
