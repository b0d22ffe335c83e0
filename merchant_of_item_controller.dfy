/**
 * Api::V1::MerchantItemsController
 * (app/controllers/api/v1/merchant_items_controller.rb): the merchant that
 * owns an item, `Merchant.find(Item.find(id).merchant_id)`. There is no
 * rescue handler, so either lookup failing escapes as RecordNotFound.
 */
module MerchantOfItemController {
  import opened Wrappers
  import opened Text
  import opened Json
  import opened Store
  import opened Resources
  import opened Responses

  /** The two chained lookups: the item first, then the merchant its `merchant_id` names. */
  function MerchantOf(db: Db, itemId: nat): (r: Result<Merchant, Exception>)
    ensures itemId !in db.items ==> r == Failure(RecordNotFound(NotFoundMessage("Item", itemId)))
    ensures itemId in db.items ==> (r.Success? <==> db.items[itemId].merchantId in db.merchants)
    ensures r.Success? ==> itemId in db.items && r.value == db.merchants[db.items[itemId].merchantId]
  {
    match Store.Find(db.items, "Item", itemId)
    case Failure(e) => Failure(e)
    case Success(it) => Store.Find(db.merchants, "Merchant", it.merchantId)
  }

  /** In a consistent store every stored item has a merchant, and its id is the item's `merchant_id`. */
  lemma MerchantOfStoredItem(db: Db, itemId: nat)
    requires db.Valid() && itemId in db.items
    ensures MerchantOf(db, itemId).Success?
    ensures MerchantOf(db, itemId).value.id == db.items[itemId].merchantId
  {
  }

  /**
   * The answer depends only on the requested item and on its merchant: two
   * stores that agree there give the same result, whatever else they hold.
   */
  lemma MerchantOfIsLocal(db1: Db, db2: Db, itemId: nat)
    requires itemId in db1.items <==> itemId in db2.items
    requires itemId in db1.items ==> db1.items[itemId] == db2.items[itemId]
    requires itemId in db1.items ==>
      var mid := db1.items[itemId].merchantId;
      && (mid in db1.merchants <==> mid in db2.merchants)
      && (mid in db1.merchants ==> db1.merchants[mid] == db2.merchants[mid])
    ensures MerchantOf(db1, itemId) == MerchantOf(db2, itemId)
  {
  }

  /** `index`: the merchant rendered as `{data: resource}`; RecordNotFound is not rescued. */
  function Index(db: Db, itemId: nat): (r: Response)
    ensures r.Rendered? <==> itemId in db.items && db.items[itemId].merchantId in db.merchants
    ensures r.Rendered? ==> r.status == 200
    ensures itemId !in db.items ==> r == Raised(RecordNotFound(NotFoundMessage("Item", itemId)))
    ensures itemId in db.items && db.items[itemId].merchantId !in db.merchants ==>
      r == Raised(RecordNotFound(NotFoundMessage("Merchant", db.items[itemId].merchantId)))
  {
    Render(
      match MerchantOf(db, itemId)
      case Success(m) => Success(Document(MerchantResource(m)))
      case Failure(e) => Failure(e))
  }

  /** An absent item fails on the item lookup, whatever merchants are stored. */
  lemma IndexMissingItem(db: Db, itemId: nat)
    requires itemId !in db.items
    ensures Index(db, itemId) == Raised(RecordNotFound("Couldn't find Item with 'id'=" + NatToString(itemId)))
  {
    assert "Couldn't find " + "Item" + " with 'id'=" == "Couldn't find Item with 'id'=";
  }

  /** For a stored item, the envelope carries its merchant's id as a decimal string and the type "merchant". */
  lemma IndexEnvelope(db: Db, itemId: nat)
    requires db.Valid() && itemId in db.items
    ensures Index(db, itemId).Rendered? && Index(db, itemId).status == 200
    ensures Get(Index(db, itemId).body, "data").Some?
    ensures var data := Get(Index(db, itemId).body, "data").value;
      && Get(data, "id") == Some(JStr(NatToString(db.items[itemId].merchantId)))
      && Get(data, "type") == Some(JStr("merchant"))
      && MerchantFromResource(data) == Some(db.merchants[db.items[itemId].merchantId])
  {
    var m := db.merchants[db.items[itemId].merchantId];
    MerchantResourceRoundTrip(m);
    ResourceFields(MerchantResource(m));
  }
}
