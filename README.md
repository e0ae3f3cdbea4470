# Centro Costos Automatico — cost-centre pipeline in Dafny

This project models the cost-centre pipeline of the WooCommerce plugin
"Centro Costos Automatico" (`centro-costos-automatico.php`), then proves
properties of the model. The pipeline has five steps:

- On the product edit screen, the plugin obtains a Siigo access token and
  fetches the list of cost centres. It offers them in a select. The
  product's current choice is marked selected.
- Saving the product stores the chosen id in the product meta entry
  `_centro_costos`. The save is guarded by the autosave flag, the nonce and
  the post type. Choosing the placeholder stores the empty string. The
  entry is deleted only when the field is absent from the request.
- At checkout, the plugin reads the `_centro_costos` value of every cart
  line. Arrays are flattened and falsy strings are skipped. Duplicates are
  removed with `array_unique`, keeping first occurrences. The ids are
  joined with ", " and stored in the session key `billing_cost_hide`.
- When the order is created, the session value is copied onto the order's
  meta under the same key, and the order is saved.
- The admin order screen prints that value under the label
  "Billing Cost Hide", but only when the value is truthy.

Modules, one per part of the plugin:

- `php.dfy` (`Php`): the PHP built-ins the plugin relies on. These are
  string truthiness, `implode`/`explode` with ", ", `array_unique`,
  `str_replace` and `ucwords`.
- `stores.dfy` (`Stores`): the host's stores as classes whose fields hold
  maps. These are the `_centro_costos` post meta, the session, and an
  order's meta (in memory and persisted).
- `siigo.dfy` (`Siigo`): the token exchange and the cost-centre fetch.
  HTTP outcomes are inputs. Each operation also returns the list of requests
  it issued.
- `product_admin.dfy` (`ProductAdmin`): the metabox select and the save hook.
- `checkout.dfy` (`Checkout`): aggregation, order annotation and admin
  display.
- `scenario.dfy` (`Scenario`): a worked cart example, plus a client method
  `AssignCheckoutAndShow`. That method drives save, checkout, order creation
  and display, and checks that the admin view shows "Billing Cost Hide: CC-100".

Behaviour worth noting:

- The aggregate keeps ids in first-occurrence order. `array_unique` keeps
  the first element of each group, so the order is deterministic, not "set
  order".
- Elements of an array-valued assignment are added without a truthiness
  test. Only scalar values are filtered.
- The fetch rejects a token that is present but falsy (`""` or `"0"`).
  The check is `!$access_token`, not just "no token field".
- All fetch failures collapse to `false`. There are no distinct error kinds.

## Model

| member | source | states |
|---|---|---|
| `Php.Unique` | centro-costos-automatico.php:190 | `array_unique` returns exactly the elements of its input, each once (no duplicates) |
| `Php.UniqueKeepsFirstOccurrenceOrder` | centro-costos-automatico.php:190 | the kept ids appear in the order of their first occurrence in the input |
| `Php.UniqueCharacterized` | centro-costos-automatico.php:190 | any list with no duplicates, the same elements and first-occurrence order equals `array_unique`'s result, so the three properties determine it |
| `Php.UniqueIdempotent` | centro-costos-automatico.php:190 | deduplicating an already deduplicated list changes nothing |
| `Php.ExplodeImplode` | centro-costos-automatico.php:192 | joining comma-free ids with ", " loses nothing: splitting at ", " gives back the ids in order |
| `Php.ImplodeEmpty` | centro-costos-automatico.php:192 | the joined string is empty exactly when there are no ids or one empty id |
| `Php.ImplodeTruthy` | centro-costos-automatico.php:192 | the joined string is truthy exactly when there are two or more ids, or one truthy id |
| `Php.MetaKeyLabel` | centro-costos-automatico.php:229 | the label keeps the key's length and contains no underscore |
| `Siigo.GetSiigoAccessToken` | centro-costos-automatico.php:16-53 | exactly one JSON POST with the configured credentials is issued; the token is returned exactly when the response carries `access_token`, and it is that value |
| `Siigo.FetchCostCentersFromSiigo` | centro-costos-automatico.php:67-105 | without a truthy token only the login request is issued and the result is failure; with one, exactly one GET follows, carrying `Bearer <token>` and Partner-Id `tallerproduction`; the list is returned exactly when it decoded and is non-empty |
| `ProductAdmin.CustomMetaboxCallback` | centro-costos-automatico.php:123-144 | a failed fetch or an empty list (both falsy for `!$centros_costos`) shows the error notice; otherwise the placeholder comes first, then one option per cost centre in API order, selected exactly when the stored value is that id |
| `ProductAdmin.MetaboxOfFetch` | centro-costos-automatico.php:125-144 | fed the fetch's result, the box shows the select exactly when the fetch returned a list, with one option per centre after the placeholder |
| `ProductAdmin.AtMostOneSelected` | centro-costos-automatico.php:139-142 | when the API's ids are distinct, no two options are selected |
| `ProductAdmin.SavedStore` | centro-costos-automatico.php:147-168 | on autosave, a missing or bad nonce, or a non-product post, the store is unchanged; otherwise the product's entry becomes the sanitized posted value, or is deleted (reads back as "") when nothing was posted; every other product's entry is unchanged |
| `ProductAdmin.SaveCustomMetaboxData` | centro-costos-automatico.php:147-168 | the hook's new store is `SavedStore` of the old one (frame: only the product meta object changes) |
| `ProductAdmin.SavedChoiceIsSelected` | centro-costos-automatico.php:133-165 | after an accepted save of an id, the re-rendered select marks exactly the options carrying that id |
| `Checkout.GatherCostCentres` | centro-costos-automatico.php:175-187 | the `foreach` loop accumulates exactly `Gathered(cart, store)` |
| `Checkout.PopulateBillingCostField` | centro-costos-automatico.php:172-195 | the session gains `billing_cost_hide` = the deduplicated ids joined with ", "; every other session key is unchanged |
| `Checkout.GatheredAppend` | centro-costos-automatico.php:177-187 | gathering over two carts in sequence equals gathering over their concatenation |
| `Checkout.SkipsLineWithoutAssignment` | centro-costos-automatico.php:179-186 | a cart line whose stored value is a falsy string ("" or "0", including a missing entry) can be removed without changing the gathered ids |
| `Checkout.GatheredMembers` | centro-costos-automatico.php:177-187 | an id is gathered exactly when some cart line contributes it |
| `Checkout.AggregateIsDistinctAndOrdered` | centro-costos-automatico.php:177-192 | the session's ids have no duplicates, are exactly the ids contributed by some cart line, and keep first-occurrence order |
| `Checkout.ReorderingKeepsIds` | centro-costos-automatico.php:177-192 | permuting the cart does not change which ids are listed |
| `Checkout.NoAssignmentsYieldEmpty` | centro-costos-automatico.php:174-195 | an empty cart, or a cart whose lines contribute nothing, yields the empty string |
| `Checkout.AggregateTruthyIffAssigned` | centro-costos-automatico.php:184-192 | when only strings are stored, the session value is truthy exactly when some line's product has a truthy assignment |
| `Checkout.SessionValueReadsBack` | centro-costos-automatico.php:192 | for comma-free ids, splitting the session value at ", " gives back the deduplicated ids |
| `Checkout.SessionValue` | centro-costos-automatico.php:207 | a present session key reads as its value; a missing one reads as a falsy value |
| `Checkout.AddDataInOrden` | centro-costos-automatico.php:205-219 | the order's meta gains `billing_cost_hide` = the session value; every other key is unchanged, and the saved meta equals the in-memory meta |
| `Checkout.ShowDataInAdminOrder` | centro-costos-automatico.php:223-231 | a line is shown exactly when the stored value is truthy; it is labelled "Billing Cost Hide" and carries the stored value |
| `Checkout.BillingCostLabel` | centro-costos-automatico.php:225-229 | `ucwords(str_replace('_', ' ', 'billing_cost_hide'))` is "Billing Cost Hide" |
| `Checkout.AnnotatedOrderShowsSessionValue` | centro-costos-automatico.php:205-230 | after annotation the admin view shows the session value exactly when it is truthy, and nothing otherwise |
| `Scenario.SharedCostCentresCollapse` | centro-costos-automatico.php:177-192 | products {1: cc1, 2: cc1, 3: none, 4: cc2} in one cart aggregate to "cc1, cc2" |

## Left out

- HTTP transport (`wp_remote_post`, `wp_remote_get`), body retrieval and JSON decoding are network I/O and library calls. Their outcomes are inputs (`LoginOutcome`, `CostCentersOutcome`).
- A cost-centre response that decodes to a JSON object is not modelled. There, `count()` would be applied to an object. The decoded body is either a list or unusable.
- `error_log` diagnostics are not modelled. They are logging only.
- HTML output, `esc_attr`/`esc_html` escaping, `wp_nonce_field`, and hook and metabox registration (`add_action`, `add_meta_box`) are not modelled. The select is modelled as a list of options, and the admin paragraph as a label/value pair.
- `wp_verify_nonce` and `sanitize_text_field` are WordPress library functions. They are function parameters here, with no properties assumed.
- The wp-config constants (`SIIGO_USER`, `SIIGO_TOKEN`, the API URLs) are environment settings. They are the `Config` parameter.
- Concurrent requests and last-writer-wins behaviour of the stores belong to the host platform. They are not modelled.
- `ProductAdmin.IsSelected`: PHP's loose `==` is modelled as string equality. Numeric strings that PHP would compare numerically (for example "01" and "1") are therefore not treated as equal. The API ids are emitted as the option values, so stored values use the same spelling.
- An array stored under `_centro_costos` is modelled as a list of strings. String keys, under which `array_merge` would overwrite earlier entries, are not modelled. Non-string elements are not modelled either.
- A missing session key is `null` in PHP. `null` is stored on the order and persisted as the empty string, and the model records "" directly. Both are falsy, so the display does not differ.
- `wc_get_order` returning `false` for an unknown order id is not modelled. The hook is called with the order being created, which is passed in directly.
- `ucwords`'s upper-casing is modelled for ASCII letters only. Locale-dependent case mapping is not modelled.
