/**
 * Api::V1::Merchant::ItemsController
 * (app/controllers/api/v1/merchant/items_controller.rb): the items of one
 * merchant, `Merchant.find(id).items`. There is no rescue handler, so an
 * absent merchant escapes as RecordNotFound.
 */
module ItemsOfMerchantController {
  import opened Wrappers
  import opened Text
  import opened Json
  import opened Store
  import opened Resources
  import opened Responses
  import ItemsController

  /** The keys of the items that belong to `merchantId`. */
  function OwnedIds(items: map<nat, Item>, merchantId: nat): set<nat>
  {
    set k | k in items && items[k].merchantId == merchantId
  }

  /** The `items` association: the stored items whose `merchant_id` is `merchantId`, in ascending id order. */
  function OwnedItems(items: map<nat, Item>, merchantId: nat): (r: seq<Item>)
    ensures forall it :: it in r ==> it in items.Values && it.merchantId == merchantId
    ensures forall k :: k in items && items[k].merchantId == merchantId ==> items[k] in r
    ensures |r| == |OwnedIds(items, merchantId)|
  {
    var p := (it: Item) => it.merchantId == merchantId;
    WhereMembers(items, p);
    assert Matching(items, p) == OwnedIds(items, merchantId) by {
      forall k ensures k in Matching(items, p) <==> k in OwnedIds(items, merchantId) {
        assert k in items ==> (p(items[k]) <==> items[k].merchantId == merchantId);
      }
    }
    Where(items, p)
  }

  /**
   * `Merchant.find(id).items`: the merchant is looked up first, and only if
   * it exists are its items read.
   */
  function ItemsOf(db: Db, merchantId: nat): (r: Result<seq<Item>, Exception>)
    ensures r.Failure? <==> merchantId !in db.merchants
    ensures r.Failure? ==> r.error == RecordNotFound(NotFoundMessage("Merchant", merchantId))
    ensures r.Success? ==> forall it :: it in r.value ==> it in db.items.Values && it.merchantId == merchantId
    ensures r.Success? ==> forall k :: k in db.items && db.items[k].merchantId == merchantId ==> db.items[k] in r.value
    ensures r.Success? ==> |r.value| == |OwnedIds(db.items, merchantId)|
  {
    match Store.Find(db.merchants, "Merchant", merchantId)
    case Failure(e) => Failure(e)
    case Success(_) => Success(OwnedItems(db.items, merchantId))
  }

  /** An absent merchant fails the same way whatever items are stored: they are never read. */
  lemma MissingMerchantIgnoresItems(db: Db, otherItems: map<nat, Item>, merchantId: nat)
    requires merchantId !in db.merchants
    ensures ItemsOf(db, merchantId) == ItemsOf(Db(db.merchants, otherItems), merchantId)
    ensures Index(db, merchantId) == Raised(RecordNotFound("Couldn't find Merchant with 'id'=" + NatToString(merchantId)))
  {
    assert "Couldn't find " + "Merchant" + " with 'id'=" == "Couldn't find Merchant with 'id'=";
  }

  /** `index`: the items rendered as `{data: [...]}`; RecordNotFound is not rescued. */
  function Index(db: Db, merchantId: nat): (r: Response)
    ensures r.Raised? <==> merchantId !in db.merchants
    ensures r.Raised? ==> r.error == RecordNotFound(NotFoundMessage("Merchant", merchantId))
    ensures r.Rendered? ==> r.status == 200
  {
    Render(
      match ItemsOf(db, merchantId)
      case Success(items) => Success(Document(JArr(ItemsController.ItemResources(items))))
      case Failure(e) => Failure(e))
  }

  /** `entry` is the resource of a stored item of `merchantId`, and says so in its id and attributes. */
  predicate IsOwnedItemEntry(db: Db, merchantId: nat, entry: Json)
  {
    var it := ItemFromResource(entry);
    && it.Some?
    && it.value in db.items.Values
    && it.value.merchantId == merchantId
    && entry == ItemResource(it.value)
    && ResourceId(entry) == Some(it.value.id)
  }

  /**
   * For a stored merchant, `index` renders one entry per item it owns, each
   * the resource of one of those items (so a decimal-string id and the four
   * attributes name, description, unit_price and merchant_id).
   */
  lemma IndexEntries(db: Db, merchantId: nat)
    requires merchantId in db.merchants
    ensures Index(db, merchantId).Rendered? && Index(db, merchantId).status == 200
    ensures Get(Index(db, merchantId).body, "data").Some? && Get(Index(db, merchantId).body, "data").value.JArr?
    ensures var entries := Get(Index(db, merchantId).body, "data").value.elems;
      && |entries| == |OwnedIds(db.items, merchantId)|
      && (forall i :: 0 <= i < |entries| ==> IsOwnedItemEntry(db, merchantId, entries[i]))
      && (forall k :: k in db.items && db.items[k].merchantId == merchantId ==> ItemResource(db.items[k]) in entries)
  {
    var items := ItemsOf(db, merchantId).value;
    var entries := ItemsController.ItemResources(items);
    MapJsonMember(items, ItemResource);
    forall i | 0 <= i < |entries| ensures IsOwnedItemEntry(db, merchantId, entries[i]) {
      assert items[i] in items;
      ItemResourceRoundTrip(items[i]);
    }
  }
}
