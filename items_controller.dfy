/**
 * Api::V1::ItemsController (app/controllers/api/v1/items_controller.rb):
 * list every item and show one by id, with RecordNotFound rescued as a 404.
 */
module ItemsController {
  import opened Wrappers
  import opened Text
  import opened Json
  import opened Store
  import opened Resources
  import opened Responses

  function ItemResources(items: seq<Item>): (r: seq<Json>)
    ensures |r| == |items|
    ensures forall i :: 0 <= i < |items| ==> r[i] == ItemResource(items[i])
  {
    MapJson(items, ItemResource)
  }

  /** `index`: `{data: [...]}` over `Item.all`. */
  function Index(db: Db): (r: Response)
    ensures r.Rendered? && r.status == 200
    ensures Get(r.body, "data").Some? && Get(r.body, "data").value.JArr?
    ensures |Get(r.body, "data").value.elems| == |db.items|
  {
    Rendered(200, Document(JArr(ItemResources(All(db.items)))))
  }

  /** `index` renders one entry per stored item: each appears, none twice. */
  lemma IndexOnePerItem(db: Db)
    requires db.Valid()
    ensures Index(db).Rendered? && Index(db).status == 200
    ensures Get(Index(db).body, "data").Some? && Get(Index(db).body, "data").value.JArr?
    ensures var entries := Get(Index(db).body, "data").value.elems;
      && |entries| == |db.items|
      && (forall k :: k in db.items ==> ItemResource(db.items[k]) in entries)
      && (forall i, j :: 0 <= i < j < |entries| ==> entries[i] != entries[j])
  {
    var entries := ItemResources(All(db.items));
    assert Get(Index(db).body, "data") == Some(JArr(entries));
    EveryItemListed(db.items);
    ItemRowsDistinct(db.items);
    ItemEntriesDistinct(All(db.items));
  }

  /** Every stored row has its resource among the entries rendered from `.all`. */
  lemma EveryItemListed(table: map<nat, Item>)
    ensures forall k :: k in table ==> ItemResource(table[k]) in ItemResources(All(table))
  {
    AllListsEveryRow(table);
    MapJsonMember(All(table), ItemResource);
  }

  /** Rows stored under their own ids come out of `.all` with pairwise distinct ids. */
  lemma ItemRowsDistinct(table: map<nat, Item>)
    requires forall k :: k in table ==> table[k].id == k
    ensures var rows := All(table);
      forall i, j :: 0 <= i < j < |rows| ==> rows[i].id != rows[j].id
  {
    var ks, rows := SortedIds(table.Keys), All(table);
    forall i, j | 0 <= i < j < |rows| ensures rows[i].id != rows[j].id {
      assert ks[i] in table && ks[j] in table;
    }
  }

  /** Rows with pairwise distinct ids render as pairwise distinct entries. */
  lemma ItemEntriesDistinct(rows: seq<Item>)
    requires forall i, j :: 0 <= i < j < |rows| ==> rows[i].id != rows[j].id
    ensures var entries := ItemResources(rows);
      forall i, j :: 0 <= i < j < |entries| ==> entries[i] != entries[j]
  {
    var entries := ItemResources(rows);
    forall i, j | 0 <= i < j < |entries| ensures entries[i] != entries[j] {
      if entries[i] == entries[j] {
        ItemResourceInjective(rows[i], rows[j]);
      }
    }
  }

  /** `show`: `Item.find(id)`, with RecordNotFound rescued as a 404. */
  function Show(db: Db, id: nat): (r: Response)
    ensures r.Rendered?
    ensures r.status == 200 <==> id in db.items
    ensures id in db.items ==> Get(r.body, "data") == Some(ItemResource(db.items[id]))
    ensures id !in db.items ==> r == NotFoundResponse(NotFoundMessage("Item", id))
  {
    RescueNotFound(
      match Store.Find(db.items, "Item", id)
      case Success(it) => Success(Document(ItemResource(it)))
      case Failure(e) => Failure(e))
  }

  /**
   * `show` of a stored id renders that item: a resource with exactly the
   * keys id, type and attributes, from which the item reads back unchanged.
   */
  lemma ShowExisting(db: Db, id: nat)
    requires id in db.items
    ensures Show(db, id).Rendered? && Show(db, id).status == 200
    ensures Get(Show(db, id).body, "data").Some?
    ensures var data := Get(Show(db, id).body, "data").value;
      && data.JObj? && Keys(data.fields) == ["id", "type", "attributes"]
      && ItemFromResource(data) == Some(db.items[id])
  {
    ItemResourceRoundTrip(db.items[id]);
  }

  /** `show` of an absent id renders 404 with a single error naming the id. */
  lemma ShowMissing(db: Db, id: nat)
    requires id !in db.items
    ensures Show(db, id).Rendered? && Show(db, id).status == 404
    ensures var entries := ErrorSerializer.Errors(Show(db, id).body);
      && entries.Some? && |entries.value| == 1
      && Get(entries.value[0], "status") == Some(JStr("404"))
      && Get(entries.value[0], "title") == Some(JStr("Couldn't find Item with 'id'=" + NatToString(id)))
  {
    var title := "Couldn't find Item with 'id'=" + NatToString(id);
    assert Show(db, id) == NotFoundResponse(title) by {
      assert NotFoundMessage("Item", id) == title by {
        assert "Couldn't find " + "Item" + " with 'id'=" == "Couldn't find Item with 'id'=";
      }
    }
    NotFoundBody(Show(db, id), title);
  }
}
