/**
 * The envelope shape of the JSON:API serializers for merchants and items:
 * `{id: "<id>", type: "<singular>", attributes: {...}}`, wrapped as
 * `{data: resource}` or `{data: [resource, ...]}`. Only the shape the
 * request specs rely on is modelled, with a decoder to show nothing is lost.
 */
module Resources {
  import opened Wrappers
  import opened Text
  import opened Json
  import opened Store

  function MerchantResource(m: Merchant): (r: Json)
    ensures r.JObj? && Keys(r.fields) == ["id", "type", "attributes"]
  {
    JObj([
      ("id", JStr(NatToString(m.id))),
      ("type", JStr("merchant")),
      ("attributes", JObj([("name", JStr(m.name))]))
    ])
  }

  function ItemResource(it: Item): (r: Json)
    ensures r.JObj? && Keys(r.fields) == ["id", "type", "attributes"]
  {
    JObj([
      ("id", JStr(NatToString(it.id))),
      ("type", JStr("item")),
      ("attributes", ItemAttributes(it))
    ])
  }

  /** An item's attributes: every column but the id; the price as a decimal number. */
  function ItemAttributes(it: Item): (r: Json)
    ensures r.JObj? && Keys(r.fields) == ["name", "description", "unit_price", "merchant_id"]
  {
    JObj([
      ("name", JStr(it.name)),
      ("description", JStr(it.description)),
      ("unit_price", JDecimal(it.unitPrice)),
      ("merchant_id", JInt(it.merchantId))
    ])
  }

  /** The `id` member of a resource read back as a number. */
  function ResourceId(j: Json): Option<nat>
  {
    match Get(j, "id")
    case Some(JStr(s)) => ParseNat(s)
    case _ => None
  }

  /** Reads a merchant back from its resource; the partner of MerchantResource. */
  function MerchantFromResource(j: Json): Option<Merchant>
  {
    match (ResourceId(j), Get(j, "type"), Get(j, "attributes"))
    case (Some(id), Some(JStr(t)), Some(attrs)) =>
      if t != "merchant" then None
      else (
        match Get(attrs, "name")
        case Some(JStr(name)) => Some(Merchant(id, name))
        case _ => None)
    case _ => None
  }

  /** Reads an item back from its resource; the partner of ItemResource. */
  function ItemFromResource(j: Json): Option<Item>
  {
    match (ResourceId(j), Get(j, "type"), Get(j, "attributes"))
    case (Some(id), Some(JStr(t)), Some(attrs)) =>
      if t != "item" then None else ItemFromAttributes(id, attrs)
    case _ => None
  }

  /** Reads an item's columns back from its attributes. */
  function ItemFromAttributes(id: nat, attrs: Json): Option<Item>
  {
    var name, description := Get(attrs, "name"), Get(attrs, "description");
    var price, mid := Get(attrs, "unit_price"), Get(attrs, "merchant_id");
    if && name.Some? && name.value.JStr?
       && description.Some? && description.value.JStr?
       && price.Some? && price.value.JDecimal?
       && mid.Some? && mid.value.JInt? && mid.value.i >= 0
    then Some(Item(id, name.value.s, description.value.s, price.value.hundredths, mid.value.i))
    else None
  }

  /** A merchant's resource carries its id as a decimal string, its type and its name, and nothing is lost. */
  lemma MerchantResourceRoundTrip(m: Merchant)
    ensures ResourceId(MerchantResource(m)) == Some(m.id)
    ensures Get(MerchantResource(m), "type") == Some(JStr("merchant"))
    ensures MerchantFromResource(MerchantResource(m)) == Some(m)
  {
    ParseNatRoundTrip(m.id);
    ResourceFields(MerchantResource(m));
  }

  /** The three members of a resource are found under their own keys. */
  lemma ResourceFields(r: Json)
    requires r.JObj? && Keys(r.fields) == ["id", "type", "attributes"]
    ensures Get(r, "id") == Some(r.fields[0].1)
    ensures Get(r, "type") == Some(r.fields[1].1)
    ensures Get(r, "attributes") == Some(r.fields[2].1)
  {
    LookupAt(r.fields, 0);
    LookupAt(r.fields, 1);
    LookupAt(r.fields, 2);
  }

  /**
   * An item's resource has exactly the keys id, type and attributes; its
   * attributes are name, description, unit_price and merchant_id; and the
   * item can be read back from it unchanged.
   */
  lemma ItemResourceRoundTrip(it: Item)
    ensures ResourceId(ItemResource(it)) == Some(it.id)
    ensures Get(ItemResource(it), "type") == Some(JStr("item"))
    ensures Get(ItemResource(it), "attributes") == Some(ItemAttributes(it))
    ensures Keys(ItemAttributes(it).fields) == ["name", "description", "unit_price", "merchant_id"]
    ensures Get(ItemAttributes(it), "merchant_id") == Some(JInt(it.merchantId))
    ensures ItemFromResource(ItemResource(it)) == Some(it)
  {
    ParseNatRoundTrip(it.id);
    ResourceFields(ItemResource(it));
    ItemAttributesRoundTrip(it);
  }

  lemma ItemAttributesRoundTrip(it: Item)
    ensures Get(ItemAttributes(it), "merchant_id") == Some(JInt(it.merchantId))
    ensures ItemFromAttributes(it.id, ItemAttributes(it)) == Some(it)
  {
    AttributeFields(ItemAttributes(it));
  }

  /** The four members of an item's attributes are found under their own keys. */
  lemma AttributeFields(a: Json)
    requires a.JObj? && Keys(a.fields) == ["name", "description", "unit_price", "merchant_id"]
    ensures Get(a, "name") == Some(a.fields[0].1)
    ensures Get(a, "description") == Some(a.fields[1].1)
    ensures Get(a, "unit_price") == Some(a.fields[2].1)
    ensures Get(a, "merchant_id") == Some(a.fields[3].1)
  {
    LookupAt(a.fields, 0);
    LookupAt(a.fields, 1);
    LookupAt(a.fields, 2);
    LookupAt(a.fields, 3);
  }

  /** Two merchants with the same resource are the same merchant. */
  lemma MerchantResourceInjective(a: Merchant, b: Merchant)
    requires MerchantResource(a) == MerchantResource(b)
    ensures a == b
  {
    MerchantResourceRoundTrip(a);
    MerchantResourceRoundTrip(b);
  }

  /** Two items with the same resource are the same item. */
  lemma ItemResourceInjective(a: Item, b: Item)
    requires ItemResource(a) == ItemResource(b)
    ensures a == b
  {
    ItemResourceRoundTrip(a);
    ItemResourceRoundTrip(b);
  }

  /** `{data: payload}`: the top-level document of a successful response. */
  function Document(payload: Json): (r: Json)
    ensures r.JObj? && Keys(r.fields) == ["data"]
    ensures Get(r, "data") == Some(payload)
  {
    JObj([("data", payload)])
  }
}
