/**
 * The Item model (app/models/item.rb): four attributes must be present, and
 * the merchant named by `merchant_id` is fetched with `Merchant.find`, which
 * raises RecordNotFound instead of recording a validation error.
 */
module ItemModel {
  import opened Wrappers
  import opened Text
  import opened Store

  /** The attributes an item is validated with; any of them may be missing (nil). */
  datatype ItemParams = ItemParams(
    name: Option<string>,
    description: Option<string>,
    unitPrice: Option<int>,
    merchantId: Option<nat>)

  /** The outcome of `valid?`: valid, invalid with its error messages, or an exception raised while validating. */
  datatype Validation = Passed | Failed(errors: seq<string>) | Raised(error: Exception)

  /** ASCII white space, as Ruby's `blank?` counts it for strings. */
  predicate IsSpace(c: char)
  {
    c == ' ' || c == '\t' || c == '\n' || c == '\r' || c as int == 11 || c as int == 12
  }

  /** `blank?` on a string attribute: nil, empty, or white space only. */
  predicate BlankString(s: Option<string>)
  {
    s.None? || forall i :: 0 <= i < |s.value| ==> IsSpace(s.value[i])
  }

  const NameBlank := "Name can't be blank"
  const DescriptionBlank := "Description can't be blank"
  const UnitPriceBlank := "Unit price can't be blank"
  const MerchantBlank := "Merchant can't be blank"

  /** The position of a presence message's attribute in the `validates` declaration. */
  function Rank(message: string): nat
  {
    if message == NameBlank then 0
    else if message == DescriptionBlank then 1
    else if message == UnitPriceBlank then 2
    else 3
  }

  /**
   * `validates :name, :description, :unit_price, :merchant_id, presence: true`:
   * one full message per blank attribute, in declaration order (numbers are
   * blank only when nil; `merchant_id` is humanized as "Merchant").
   */
  function PresenceErrors(p: ItemParams): (r: seq<string>)
    ensures (NameBlank in r) <==> BlankString(p.name)
    ensures (DescriptionBlank in r) <==> BlankString(p.description)
    ensures (UnitPriceBlank in r) <==> p.unitPrice.None?
    ensures (MerchantBlank in r) <==> p.merchantId.None?
    ensures forall e :: e in r ==> e in [NameBlank, DescriptionBlank, UnitPriceBlank, MerchantBlank]
    ensures forall i, j :: 0 <= i < j < |r| ==> Rank(r[i]) < Rank(r[j])
  {
    (if BlankString(p.name) then [NameBlank] else [])
    + (if BlankString(p.description) then [DescriptionBlank] else [])
    + (if p.unitPrice.None? then [UnitPriceBlank] else [])
    + (if p.merchantId.None? then [MerchantBlank] else [])
  }

  /** All four required attributes are present. */
  predicate Present(p: ItemParams)
  {
    !BlankString(p.name) && !BlankString(p.description) && p.unitPrice.Some? && p.merchantId.Some?
  }

  /**
   * `valid?`: the presence errors are collected first, then `valid_merchant`
   * runs `Merchant.find(merchant_id)`; if that raises, the exception escapes
   * and the collected errors are lost. When it succeeds, the merchant's own
   * `valid?` result is discarded, so it adds no error.
   */
  function Validate(merchants: map<nat, Merchant>, p: ItemParams): (r: Validation)
    ensures r.Raised? <==> p.merchantId.None? || p.merchantId.value !in merchants
    ensures r.Failed? ==> r.errors == PresenceErrors(p) && r.errors != []
  {
    var errors := PresenceErrors(p);
    match FindNullable(merchants, "Merchant", p.merchantId)
    case Failure(e) => Raised(e)
    case Success(_) => if errors == [] then Passed else Failed(errors)
  }

  /** The message of the RecordInvalid raised for a failed validation. */
  function FailureMessage(errors: seq<string>): string
  {
    "Validation failed: " + Join(errors, ", ")
  }

  function Join(parts: seq<string>, separator: string): string
  {
    if parts == [] then ""
    else if |parts| == 1 then parts[0]
    else parts[0] + separator + Join(parts[1..], separator)
  }

  /** An item validates exactly when its four attributes are present and its merchant exists. */
  lemma ValidateSucceedsIff(merchants: map<nat, Merchant>, p: ItemParams)
    ensures Validate(merchants, p) == Passed <==> Present(p) && p.merchantId.value in merchants
  {
    if Present(p) {
      assert PresenceErrors(p) == [];
    }
  }

  /** Every item that validates references an existing merchant. */
  lemma ValidatedItemHasMerchant(merchants: map<nat, Merchant>, p: ItemParams)
    requires Validate(merchants, p) == Passed
    ensures p.merchantId.Some? && p.merchantId.value in merchants
  {
  }

  /**
   * A missing merchant raises RecordNotFound with ActiveRecord's message,
   * whatever else is blank: no validation errors are reported.
   */
  lemma ValidateMissingMerchant(merchants: map<nat, Merchant>, p: ItemParams)
    requires p.merchantId.None? || p.merchantId.value !in merchants
    ensures p.merchantId.Some? ==>
      Validate(merchants, p) == Raised(RecordNotFound("Couldn't find Merchant with 'id'=" + NatToString(p.merchantId.value)))
    ensures p.merchantId.None? ==>
      Validate(merchants, p) == Raised(RecordNotFound("Couldn't find Merchant without an ID"))
  {
    assert "Couldn't find " + "Merchant" + " with 'id'=" == "Couldn't find Merchant with 'id'=";
    assert "Couldn't find " + "Merchant" + " without an ID" == "Couldn't find Merchant without an ID";
  }

  /**
   * With the merchant present, a blank attribute makes validation fail with
   * exactly the presence messages: one naming each blank attribute and no
   * other, and never one about the merchant.
   */
  lemma ValidateBlankAttribute(merchants: map<nat, Merchant>, p: ItemParams)
    requires p.merchantId.Some? && p.merchantId.value in merchants
    requires !Present(p)
    ensures Validate(merchants, p).Failed?
    ensures var errors := Validate(merchants, p).errors;
      && errors != []
      && (NameBlank in errors <==> BlankString(p.name))
      && (DescriptionBlank in errors <==> BlankString(p.description))
      && (UnitPriceBlank in errors <==> p.unitPrice.None?)
      && MerchantBlank !in errors
  {
  }

  /** The request spec's case: a missing description alone gives "Validation failed: Description can't be blank". */
  lemma MissingDescriptionMessage(merchants: map<nat, Merchant>, merchantId: nat)
    requires merchantId in merchants
    ensures var p := ItemParams(Some("Treadmill"), None, Some(100000), Some(merchantId));
      Validate(merchants, p) == Failed([DescriptionBlank])
      && FailureMessage(Validate(merchants, p).errors) == "Validation failed: Description can't be blank"
  {
    var p := ItemParams(Some("Treadmill"), None, Some(100000), Some(merchantId));
    assert !BlankString(p.name) by { assert !IsSpace(p.name.value[0]); }
    assert PresenceErrors(p) == [] + [DescriptionBlank] + [] + [];
    assert Validate(merchants, p) == Failed([DescriptionBlank]);
    assert Join([DescriptionBlank], ", ") == DescriptionBlank;
  }

  /** The item row a validated set of attributes is stored as. */
  function ToItem(id: nat, p: ItemParams): Item
    requires Present(p)
  {
    Item(id, p.name.value, p.description.value, p.unitPrice.value, p.merchantId.value)
  }

  /** Storing an item that validated keeps every item's merchant in the store. */
  lemma ValidatedInsertKeepsIntegrity(db: Db, id: nat, p: ItemParams)
    requires db.Valid()
    requires Validate(db.merchants, p) == Passed
    ensures Present(p)
    ensures Db(db.merchants, db.items[id := ToItem(id, p)]).Valid()
  {
    ValidateSucceedsIff(db.merchants, p);
  }
}
