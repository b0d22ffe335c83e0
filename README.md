# rails_engine core, modelled in Dafny

A model of the request-handling core of a small Rails JSON API that serves
Merchants and Items. It covers:

- the merchants controller: `index`, `show` and the `find` search;
- the items controller: `index` and `show`;
- the two nested controllers: the items of a merchant, and the merchant of an item;
- the Item model's validations;
- the `ErrorSerializer` that builds `{errors: [{status, title}]}` documents.

The database is replaced by two immutable tables (`map<nat, Merchant>`,
`map<nat, Item>`). `Model.find` becomes a lookup that returns the row or the
RecordNotFound exception with ActiveRecord's message. Every action ends in a
`Response`: either a rendered JSON body with its HTTP status, or an exception
that no `rescue_from` handles.

Files, one module each:

| file | module | models |
|---|---|---|
| `wrappers.dfy` | `Wrappers` | Option / Result |
| `text.dfy` | `Text` | ASCII `downcase`/`lower`, `LIKE '%q%'` as substring containment, lexicographic order, `Integer#to_s` and its parser |
| `json.dfy` | `Json` | JSON values; hashes as ordered key/value lists |
| `store.dfy` | `Store` | the tables, `find`, `all`, `where`, referential integrity (`Db.Valid`) |
| `resources.dfy` | `Resources` | envelope shape of the merchant and item serializers, with decoders |
| `error_serializer.dfy` | `ErrorSerializer` | `serialize_json`, `data_serialize` |
| `responses.dfy` | `Responses` | render outcome, `rescue_from RecordNotFound` and `not_found_response` |
| `merchants_controller.dfy` | `MerchantsController` | `index`, `show`, `find` |
| `items_controller.dfy` | `ItemsController` | `index`, `show` |
| `items_of_merchant_controller.dfy` | `ItemsOfMerchantController` | `Api::V1::Merchant::ItemsController#index` |
| `merchant_of_item_controller.dfy` | `MerchantOfItemController` | `Api::V1::MerchantItemsController#index` |
| `item.dfy` | `ItemModel` | presence validations and `valid_merchant` |

Three behaviours of the code are easy to get wrong, and the model follows the code in each:

- **`find` with no match.** `find` with no match renders `{data: null}` with status 200, not a 404 and not an error object: the code passes `nil` to `MerchantSerializer`.
- **Missing merchant at validation.** A missing merchant raises RecordNotFound from `Merchant.find` instead of adding a validation error. The request spec expects this too: a 404 with "Couldn't find Merchant with 'id'=1".
- **Missing `name` parameter.** In `find`, a missing `name` makes `nil.downcase` raise NoMethodError. No handler rescues it, so the model's `Find` ends in `Raised`.

## Model

| member | source | states |
|---|---|---|
| `MerchantsController.FindByName` | app/controllers/api/v1/merchants_controller.rb:13 | A found merchant is stored and its lower-cased name contains the lower-cased query. Its lower-cased name sorts no later than that of any other matching merchant. There is no result exactly when no merchant matches. |
| `MerchantsController.FirstByLowerName` | app/controllers/api/v1/merchants_controller.rb:13 | `.order('lower(name)').first`: the result is empty exactly for an empty relation. Otherwise it is one of its rows, and its lower-cased name is ≤ every row's. |
| `MerchantsController.MatchingMerchants` | app/controllers/api/v1/merchants_controller.rb:13 | The `where` relation holds only stored merchants whose lower-cased name contains the pattern, and every such merchant. |
| `MerchantsController.FindIgnoresQueryCase` | app/controllers/api/v1/merchants_controller.rb:13 | Two queries that differ only in letter case find the same merchant. |
| `MerchantsController.Find` | app/controllers/api/v1/merchants_controller.rb:12-14 | The action raises exactly when the `name` parameter is missing, and then with NoMethodError ("undefined method `downcase' for nil:NilClass"), not RecordNotFound, so the 404 handler does not apply. |
| `MerchantsController.FindNoMatch` | app/controllers/api/v1/merchants_controller.rb:13 | When nothing matches, `find` renders status 200 with `{data: null}`. It is not a not-found error. |
| `MerchantsController.FindMatch` | app/controllers/api/v1/merchants_controller.rb:13 | When some merchant matches, `find` renders 200. The rendered resource reads back as `FindByName`'s result: a stored merchant whose name matches and whose lower-cased name sorts no later than any other match's. |
| `MerchantsController.FindEmptyQuery` | app/controllers/api/v1/merchants_controller.rb:13 | An empty `name` matches every merchant, so `find` finds one exactly when some merchant is stored. |
| `MerchantsController.FindMartExample` | app/controllers/api/v1/merchants_controller.rb:13 | Over walmart, walgreens, Malmart, K-Mart, Ballmart, Carmart, minimart and ezmart, the query "mart" finds Ballmart. |
| `MerchantsController.Index` | app/controllers/api/v1/merchants_controller.rb:4-6 | `index` renders status 200 with a `data` array holding exactly as many entries as there are stored merchants. |
| `MerchantsController.Show` | app/controllers/api/v1/merchants_controller.rb:8-10 | `show` always renders. The status is 200 exactly when the id is stored, and then `data` is that merchant's resource. Otherwise the response is the not-found response for "Couldn't find Merchant with 'id'=<id>". |
| `MerchantsController.IndexOnePerMerchant` | app/controllers/api/v1/merchants_controller.rb:4-6 | `index` renders 200 with one `data` entry per stored merchant. Every merchant appears and no entry repeats. |
| `MerchantsController.ShowExisting` | app/controllers/api/v1/merchants_controller.rb:8-10 | `show` of a stored id renders 200, and the resource reads back as exactly that merchant. |
| `MerchantsController.ShowMissing` | app/controllers/api/v1/merchants_controller.rb:18-21 | `show` of an absent id renders 404 with one error: status "404", title "Couldn't find Merchant with 'id'=<id>". |
| `ItemsController.Index` | app/controllers/api/v1/items_controller.rb:4-6 | `index` renders status 200 with a `data` array holding exactly as many entries as there are stored items. |
| `ItemsController.Show` | app/controllers/api/v1/items_controller.rb:8-10 | `show` always renders. The status is 200 exactly when the id is stored, and then `data` is that item's resource. Otherwise the response is the not-found response for "Couldn't find Item with 'id'=<id>". |
| `ItemsController.IndexOnePerItem` | app/controllers/api/v1/items_controller.rb:4-6 | `index` renders 200 with one `data` entry per stored item. Every item appears and no entry repeats. |
| `ItemsController.ShowExisting` | app/controllers/api/v1/items_controller.rb:8-10 | `show` of a stored id renders 200. The resource has exactly the keys id, type and attributes, and reads back as that item. |
| `ItemsController.ShowMissing` | app/controllers/api/v1/items_controller.rb:15-18 | `show` of an absent id renders 404 with one error: status "404", title "Couldn't find Item with 'id'=<id>". |
| `Responses.NotFoundResponse` | app/controllers/api/v1/merchants_controller.rb:18-21 | The not-found handler renders status 404. |
| `Responses.NotFoundBody` | app/controllers/api/v1/merchants_controller.rb:18-21 | The not-found response has one error entry, with status "404" and the exception message as title. |
| `Responses.RescueNotFound` | app/controllers/api/v1/merchants_controller.rb:2 | `rescue_from`: a success renders 200 and RecordNotFound becomes the 404 response. Any other exception escapes. |
| `Responses.Render` | app/controllers/api/v1/merchant_items_controller.rb:4 | Without a rescue handler, a success renders status 200 with the body, and any exception escapes unchanged. |
| `ErrorSerializer.SerializeJson` | app/serializers/error_serializer.rb:6-15 | The document's only key is `errors`. |
| `ErrorSerializer.SerializeJsonShape` | app/serializers/error_serializer.rb:8-13 | There is exactly one error entry, with keys status and title. The status is the decimal string of the code and parses back to it. The title is the message, nil included. The error object reads back unchanged. |
| `ErrorSerializer.ErrorEntryRoundTrip` | app/serializers/error_serializer.rb:9-12 | Status and title are found under their keys. The status parses back to the code, and the error object reads back from the entry. |
| `ErrorSerializer.DataSerialize` | app/serializers/error_serializer.rb:17-19 | The document's only key is `data`. |
| `ErrorSerializer.DataSerializeRoundTrip` | app/serializers/error_serializer.rb:17-19 | The error object sits under `data` unchanged: message and status code read back. |
| `ErrorSerializer.NotFoundExample` | app/serializers/error_serializer.rb:10 | Status code 404 is serialized as "404". |
| `ItemModel.PresenceErrors` | app/models/item.rb:4 | Each of the four messages appears exactly when its attribute is blank, and no other message appears. The messages follow the declaration order (name, description, unit_price, merchant_id), so none repeats. |
| `ItemModel.Validate` | app/models/item.rb:4-11 | `valid?` raises exactly when merchant_id is nil or names no stored merchant. When it fails without raising, the errors are the presence messages, and there is at least one. |
| `ItemModel.ValidateSucceedsIff` | app/models/item.rb:4-11 | An item validates exactly when name, description, unit_price and merchant_id are present and the merchant exists. |
| `ItemModel.ValidatedItemHasMerchant` | app/models/item.rb:6-11 | A validated item's merchant_id names a stored merchant. |
| `ItemModel.ValidateMissingMerchant` | app/models/item.rb:10-11 | An absent merchant raises RecordNotFound ("…with 'id'=<id>", or "…without an ID" for nil) instead of any validation error. |
| `ItemModel.ValidateBlankAttribute` | app/models/item.rb:4-11 | With the merchant present and an attribute blank, validation fails. The errors name exactly the blank attributes, and the merchant check adds none. |
| `ItemModel.MissingDescriptionMessage` | app/models/item.rb:4 | A missing description alone gives "Validation failed: Description can't be blank". |
| `ItemModel.ValidatedInsertKeepsIntegrity` | app/models/item.rb:2-6 | Storing an item that validated keeps every item's merchant in the store. |
| `ItemsOfMerchantController.ItemsOf` | app/controllers/api/v1/merchant/items_controller.rb:3 | The lookup fails with the merchant's RecordNotFound exactly when the merchant is absent. Otherwise it returns only stored items with that merchant_id, and all of them: the count equals the number of owned items. |
| `ItemsOfMerchantController.OwnedItems` | app/controllers/api/v1/merchant/items_controller.rb:3 | The `items` association holds only stored items with that merchant_id, and all of them: as many rows as owned ids. |
| `ItemsOfMerchantController.MissingMerchantIgnoresItems` | app/controllers/api/v1/merchant/items_controller.rb:3 | An absent merchant gives the same bare RecordNotFound whatever items are stored, so the items are never read. |
| `ItemsOfMerchantController.Index` | app/controllers/api/v1/merchant/items_controller.rb:2-4 | The action raises exactly when the merchant is absent, and then with "Couldn't find Merchant with 'id'=<id>". Otherwise it renders 200. |
| `ItemsOfMerchantController.IndexEntries` | app/controllers/api/v1/merchant/items_controller.rb:3 | For a stored merchant, the response is 200 with one entry per owned item. Each entry is such an item's resource, with a decimal-string id, and every owned item's resource is among the entries. |
| `MerchantOfItemController.MerchantOf` | app/controllers/api/v1/merchant_items_controller.rb:4 | An absent item fails with the item's RecordNotFound before any merchant lookup. A result is the merchant stored under the item's merchant_id. |
| `MerchantOfItemController.MerchantOfStoredItem` | app/controllers/api/v1/merchant_items_controller.rb:4 | In a consistent store, a stored item always has a merchant, and that merchant's id equals the item's merchant_id. |
| `MerchantOfItemController.MerchantOfIsLocal` | app/controllers/api/v1/merchant_items_controller.rb:4 | The result depends only on the requested item and its merchant, not on other rows. |
| `MerchantOfItemController.Index` | app/controllers/api/v1/merchant_items_controller.rb:3-5 | The action renders, with status 200, exactly when the item is stored and its merchant exists. An absent item raises the item's RecordNotFound; an absent merchant raises the merchant's. |
| `MerchantOfItemController.IndexMissingItem` | app/controllers/api/v1/merchant_items_controller.rb:4 | An absent item escapes as RecordNotFound "Couldn't find Item with 'id'=<id>". |
| `MerchantOfItemController.IndexEnvelope` | app/controllers/api/v1/merchant_items_controller.rb:4 | The envelope's id is the merchant id as a decimal string and its type is "merchant". It reads back as the owning merchant. |
| `Resources.ItemResourceRoundTrip` | spec/requests/api/v1/items_request_spec.rb:43-58 | An item resource has type "item", and its id string parses to the item id. Its attributes are name, description, unit_price and merchant_id, and the item reads back unchanged. |
| `Resources.MerchantResourceRoundTrip` | spec/requests/api/v1/merchants_request_spec.rb:34-40 | A merchant resource has type "merchant", and its id string parses to the merchant id. The merchant reads back unchanged. |
| `Resources.MerchantResource` | app/controllers/api/v1/merchants_controller.rb:9 | A merchant's resource has exactly the keys id, type and attributes. `MerchantResourceRoundTrip` shows it reads back unchanged. |
| `Resources.ItemResource` | app/controllers/api/v1/items_controller.rb:9 | An item's resource has exactly the keys id, type and attributes. `ItemResourceRoundTrip` shows it reads back unchanged. |
| `Store.Where` | app/controllers/api/v1/merchant/items_controller.rb:3 | A `where` relation has one row per matching key, in ascending key order. |
| `Store.All` | app/controllers/api/v1/merchants_controller.rb:5 | `Model.all` has one row per stored key, in ascending key order. |
| `Store.Find` | app/controllers/api/v1/items_controller.rb:9 | `Model.find(id)` succeeds exactly when the id is stored, returning that row. Otherwise it raises RecordNotFound "Couldn't find <Model> with 'id'=<id>". |
| `Store.FindNullable` | app/models/item.rb:11 | `Merchant.find(merchant_id)` succeeds exactly for a stored id. For nil it raises "Couldn't find Merchant without an ID". |
| `Text.IntToStringRoundTrip` | app/serializers/error_serializer.rb:10 | `status_code.to_s` parses back to the same integer. |
| `Text.ContainsLower` | app/controllers/api/v1/merchants_controller.rb:13 | A case-sensitive occurrence of the query is also found by the lower-cased `LIKE`. |
| `Text.LessEqTransitive` | app/controllers/api/v1/merchants_controller.rb:13 | The order used by `order('lower(name)')` is transitive. It is also total (`LessEqTotal`) and antisymmetric (`LessEqAntisymmetric`). |

## Left out

- HTTP routing (`config/routes.rb`), `render`, status symbols and the web server. Each action is a function from the store and its parameters to a `Response`.
- ActiveRecord and SQL: the tables are immutable maps.
  - `%` and `_` in a `find` query act as SQL wildcards in the source; the model matches them literally.
  - The database collation behind `order('lower(name)')` is replaced by lexicographic order on character codes.
  - Lower-casing is ASCII only. Ruby's `downcase` and SQL `lower` also fold other letters.
- `.all` and `where` without an `ORDER BY` have no defined order in the source. The model returns rows in ascending id order.
- `MerchantsController.FirstByLowerName`: among merchants with equal lower-cased names it picks the least id. The source leaves that choice to the database.
- The internals of the `ItemSerializer` and `MerchantSerializer` gems are not part of this model. Only the envelope shape the request specs check is modelled (string id, type, attributes), plus `{data: null}` for a nil resource.
- `unit_price` is a Float in the source. The model keeps an integer number of hundredths and renders it as a decimal number.
- Request ids are natural numbers. Non-numeric id strings, which ActiveRecord would cast, are not modelled.
- `blank?` counts ASCII white space only. Ruby also counts Unicode spaces.
- The `ErrorMessage` class is not part of this model. Its JSON form under `data` is taken to be its two attributes, message and status_code.
- The Merchant model is not part of this model. `valid_merchant` discards the result of the merchant's own `valid?`, so that result is not modelled.
- The "must exist" error of `belongs_to :merchant` is left out because no caller can see it. It is added before `valid_merchant` runs, and `valid_merchant` then raises, so `valid?` never returns it.
- `items_controller.rb` defines no `find_all`, `create`, `update` or `destroy` actions, although the routes and the request specs use them. Those actions, and the price-range search, are not modelled.
- The error serializer is pure, so "serialization does not modify the stored error object" holds by construction. The read-back lemmas state that the object is kept unchanged.
- Concurrency between requests and database transactions are not modelled.
