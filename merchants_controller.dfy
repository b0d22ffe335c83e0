/**
 * Api::V1::MerchantsController (app/controllers/api/v1/merchants_controller.rb):
 * list every merchant, show one by id (404 when absent), and find the
 * first merchant whose name contains a query, ignoring case.
 */
module MerchantsController {
  import opened Wrappers
  import opened Text
  import opened Json
  import opened Store
  import opened Resources
  import opened Responses

  function MerchantResources(ms: seq<Merchant>): (r: seq<Json>)
    ensures |r| == |ms|
    ensures forall i :: 0 <= i < |ms| ==> r[i] == MerchantResource(ms[i])
  {
    MapJson(ms, MerchantResource)
  }

  /** `index`: `{data: [...]}` over `Merchant.all`. */
  function Index(db: Db): (r: Response)
    ensures r.Rendered? && r.status == 200
    ensures Get(r.body, "data").Some? && Get(r.body, "data").value.JArr?
    ensures |Get(r.body, "data").value.elems| == |db.merchants|
  {
    Rendered(200, Document(JArr(MerchantResources(All(db.merchants)))))
  }

  /** `index` renders one entry per stored merchant: each appears, none twice. */
  lemma IndexOnePerMerchant(db: Db)
    requires db.Valid()
    ensures Index(db).Rendered? && Index(db).status == 200
    ensures Get(Index(db).body, "data").Some? && Get(Index(db).body, "data").value.JArr?
    ensures var entries := Get(Index(db).body, "data").value.elems;
      && |entries| == |db.merchants|
      && (forall k :: k in db.merchants ==> MerchantResource(db.merchants[k]) in entries)
      && (forall i, j :: 0 <= i < j < |entries| ==> entries[i] != entries[j])
  {
    var entries := MerchantResources(All(db.merchants));
    assert Get(Index(db).body, "data") == Some(JArr(entries));
    EveryMerchantListed(db.merchants);
    MerchantRowsDistinct(db.merchants);
    MerchantEntriesDistinct(All(db.merchants));
  }

  /** Every stored row has its resource among the entries rendered from `.all`. */
  lemma EveryMerchantListed(table: map<nat, Merchant>)
    ensures forall k :: k in table ==> MerchantResource(table[k]) in MerchantResources(All(table))
  {
    AllListsEveryRow(table);
    MapJsonMember(All(table), MerchantResource);
  }

  /** Rows stored under their own ids come out of `.all` with pairwise distinct ids. */
  lemma MerchantRowsDistinct(table: map<nat, Merchant>)
    requires forall k :: k in table ==> table[k].id == k
    ensures var rows := All(table);
      forall i, j :: 0 <= i < j < |rows| ==> rows[i].id != rows[j].id
  {
    var ks, rows := SortedIds(table.Keys), All(table);
    forall i, j | 0 <= i < j < |rows| ensures rows[i].id != rows[j].id {
      assert ks[i] in table && ks[j] in table;
    }
  }

  /** Rows with pairwise distinct ids render as pairwise distinct entries. */
  lemma MerchantEntriesDistinct(rows: seq<Merchant>)
    requires forall i, j :: 0 <= i < j < |rows| ==> rows[i].id != rows[j].id
    ensures var entries := MerchantResources(rows);
      forall i, j :: 0 <= i < j < |entries| ==> entries[i] != entries[j]
  {
    var entries := MerchantResources(rows);
    forall i, j | 0 <= i < j < |entries| ensures entries[i] != entries[j] {
      if entries[i] == entries[j] {
        MerchantResourceInjective(rows[i], rows[j]);
      }
    }
  }

  /** `show`: `Merchant.find(id)`, with RecordNotFound rescued as a 404. */
  function Show(db: Db, id: nat): (r: Response)
    ensures r.Rendered?
    ensures r.status == 200 <==> id in db.merchants
    ensures id in db.merchants ==> Get(r.body, "data") == Some(MerchantResource(db.merchants[id]))
    ensures id !in db.merchants ==> r == NotFoundResponse(NotFoundMessage("Merchant", id))
  {
    RescueNotFound(
      match Store.Find(db.merchants, "Merchant", id)
      case Success(m) => Success(Document(MerchantResource(m)))
      case Failure(e) => Failure(e))
  }

  /** `show` of a stored id renders exactly that merchant. */
  lemma ShowExisting(db: Db, id: nat)
    requires id in db.merchants
    ensures Show(db, id).Rendered? && Show(db, id).status == 200
    ensures Get(Show(db, id).body, "data").Some?
    ensures MerchantFromResource(Get(Show(db, id).body, "data").value) == Some(db.merchants[id])
  {
    MerchantResourceRoundTrip(db.merchants[id]);
  }

  /** `show` of an absent id renders 404 with a single error naming the id. */
  lemma ShowMissing(db: Db, id: nat)
    requires id !in db.merchants
    ensures Show(db, id).Rendered? && Show(db, id).status == 404
    ensures var entries := ErrorSerializer.Errors(Show(db, id).body);
      && entries.Some? && |entries.value| == 1
      && Get(entries.value[0], "status") == Some(JStr("404"))
      && Get(entries.value[0], "title") == Some(JStr("Couldn't find Merchant with 'id'=" + NatToString(id)))
  {
    var title := "Couldn't find Merchant with 'id'=" + NatToString(id);
    assert Show(db, id) == NotFoundResponse(title) by {
      assert NotFoundMessage("Merchant", id) == title by {
        assert "Couldn't find " + "Merchant" + " with 'id'=" == "Couldn't find Merchant with 'id'=";
      }
    }
    NotFoundBody(Show(db, id), title);
  }

  // ---------------------------------------------------------------------
  // find

  /** The merchant's lower-cased name contains the (lower-cased) pattern. */
  predicate NameMatches(m: Merchant, pattern: string)
  {
    Contains(Lower(m.name), pattern)
  }

  /** `Merchant.where("lower(name) LIKE ?", "%pattern%")`, in id order. */
  function MatchingMerchants(merchants: map<nat, Merchant>, pattern: string): (r: seq<Merchant>)
    ensures forall m :: m in r ==> m in merchants.Values && NameMatches(m, pattern)
    ensures forall k :: k in merchants && NameMatches(merchants[k], pattern) ==> merchants[k] in r
  {
    var p := (m: Merchant) => NameMatches(m, pattern);
    WhereMembers(merchants, p);
    Where(merchants, p)
  }

  /**
   * `.order('lower(name)').first`: a merchant whose lower-cased name is
   * least; among equal lower-cased names the earliest in `s` (the least id).
   */
  function FirstByLowerName(s: seq<Merchant>): (r: Option<Merchant>)
    ensures r.None? <==> s == []
    ensures r.Some? ==> r.value in s
    ensures r.Some? ==> forall m :: m in s ==> LessEq(Lower(r.value.name), Lower(m.name))
  {
    if s == [] then None
    else
      match FirstByLowerName(s[1..])
      case None =>
        LessEqReflexive(Lower(s[0].name));
        assert s == [s[0]];
        Some(s[0])
      case Some(least) =>
        if LessEq(Lower(s[0].name), Lower(least.name)) then
          assert forall m :: m in s[1..] ==> LessEq(Lower(s[0].name), Lower(m.name)) by {
            forall m | m in s[1..] ensures LessEq(Lower(s[0].name), Lower(m.name)) {
              LessEqTransitive(Lower(s[0].name), Lower(least.name), Lower(m.name));
            }
          }
          LessEqReflexive(Lower(s[0].name));
          Some(s[0])
        else
          LessEqTotal(Lower(s[0].name), Lower(least.name));
          Some(least)
  }

  /**
   * The `find` query: the matching merchant with the least lower-cased name,
   * or none. A result matches; it sorts no later than any other match; and
   * there is no result exactly when nothing matches.
   */
  function FindByName(merchants: map<nat, Merchant>, query: string): (r: Option<Merchant>)
    ensures r.Some? ==> r.value in merchants.Values && Contains(Lower(r.value.name), Lower(query))
    ensures r.Some? ==> forall k :: k in merchants && Contains(Lower(merchants[k].name), Lower(query)) ==>
      LessEq(Lower(r.value.name), Lower(merchants[k].name))
    ensures r.None? <==> forall k :: k in merchants ==> !Contains(Lower(merchants[k].name), Lower(query))
  {
    FirstByLowerName(MatchingMerchants(merchants, Lower(query)))
  }

  /** Queries that differ only in the case of ASCII letters find the same merchant. */
  lemma FindIgnoresQueryCase(merchants: map<nat, Merchant>, q1: string, q2: string)
    requires |q1| == |q2|
    requires forall i :: 0 <= i < |q1| ==> ToLower(q1[i]) == ToLower(q2[i])
    ensures FindByName(merchants, q1) == FindByName(merchants, q2)
  {
    assert Lower(q1) == Lower(q2);
  }

  /** An empty `name` matches every merchant (`LIKE '%%'`), so any stored merchant makes `find` succeed. */
  lemma FindEmptyQuery(merchants: map<nat, Merchant>)
    ensures FindByName(merchants, "").Some? <==> merchants != map[]
  {
    if merchants != map[] {
      var k :| k in merchants;
      ContainsEmpty(Lower(merchants[k].name));
    }
  }

  /**
   * `find`: `params[:name].downcase` raises NoMethodError when the name is
   * missing (no handler rescues it); otherwise the result is rendered with
   * status 200, `{data: null}` when no merchant matches.
   */
  function Find(db: Db, name: Option<string>): (r: Response)
    ensures r.Raised? <==> name.None?
    ensures r.Raised? ==> r.error.NoMethodError? && r.error.message == "undefined method `downcase' for nil:NilClass"
  {
    match name
    case None => Raised(NoMethodError("undefined method `downcase' for nil:NilClass"))
    case Some(query) =>
      Rendered(200, Document(
        match FindByName(db.merchants, query)
        case Some(m) => MerchantResource(m)
        case None => JNull))
  }

  /** No match is a success, not a 404: status 200 and a null `data`. */
  lemma FindNoMatch(db: Db, query: string)
    requires forall k :: k in db.merchants ==> !Contains(Lower(db.merchants[k].name), Lower(query))
    ensures Find(db, Some(query)) == Rendered(200, Document(JNull))
  {
  }

  /** A match is rendered as the found merchant's resource, read back unchanged. */
  lemma FindMatch(db: Db, query: string)
    requires exists k :: k in db.merchants && Contains(Lower(db.merchants[k].name), Lower(query))
    ensures Find(db, Some(query)).Rendered? && Find(db, Some(query)).status == 200
    ensures var found := MerchantFromResource(Get(Find(db, Some(query)).body, "data").value);
      && found.Some?
      && found == FindByName(db.merchants, query)
      && found.value in db.merchants.Values
      && Contains(Lower(found.value.name), Lower(query))
      && forall k :: k in db.merchants && Contains(Lower(db.merchants[k].name), Lower(query)) ==>
           LessEq(Lower(found.value.name), Lower(db.merchants[k].name))
  {
    var m := FindByName(db.merchants, query);
    MerchantResourceRoundTrip(m.value);
  }

  /** The merchants of a worked example of `find`. */
  function Candidates(): map<nat, Merchant>
  {
    map[1 := Merchant(1, "walmart"), 2 := Merchant(2, "walgreens"), 3 := Merchant(3, "Malmart"),
        4 := Merchant(4, "K-Mart"), 5 := Merchant(5, "Ballmart"), 6 := Merchant(6, "Carmart"),
        7 := Merchant(7, "minimart"), 8 := Merchant(8, "ezmart")]
  }

  /** Among the example's merchants, every name other than "Ballmart" sorts after it. */
  lemma OnlyBallmartSortsFirst(ms: map<nat, Merchant>, k: nat)
    requires ms == Candidates() && k in ms && k != 5
    ensures !LessEq(Lower(ms[k].name), Lower(ms[5].name))
  {
    assert Lower(ms[5].name)[0] == 'b';
    assert ms.Keys == {1, 2, 3, 4, 5, 6, 7, 8};
    assert Lower(ms[k].name)[0] > 'b';
  }

  /** `find?name=mart` over the example picks "Ballmart", the first match in lower-cased order. */
  lemma FindMartExample()
    ensures FindByName(Candidates(), "mart") == Some(Merchant(5, "Ballmart"))
  {
    var ms := Candidates();
    var ball := Lower(ms[5].name);
    assert Lower("mart") == "mart";
    assert OccursAt(ball, Lower("mart"), 4) by {
      assert ball[4..8] == "mart";
    }
    var r := FindByName(ms, "mart");
    assert LessEq(Lower(r.value.name), ball);
    var k :| k in ms && ms[k] == r.value;
    if k != 5 {
      OnlyBallmartSortsFirst(ms, k);
    }
  }
}
