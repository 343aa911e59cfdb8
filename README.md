# In-memory inventory: a Dafny model

This project models the core of a small single-file inventory tracker (`app.py`). It covers three parts:

- **Product variants.** `Electronics` and `Clothing` share an id, a name, a price and a quantity. Electronics adds a brand and a warranty in months. Clothing adds a size and a material. Only the quantity ever changes, through `reduce_quantity` and `update_quantity`.
- **Tagged records.** `to_dict` turns a product into a flat string-keyed map with a `"type"` discriminator. `from_dict` turns such a map back into a product and raises `InvalidProductDataError` when a required key is missing.
- **The `Inventory` container.** It is a dictionary from id to product object. It supports `add_product` (which rejects a duplicate id), `sell_product`, `view_product` and `list_inventory`. It also builds the record list that `save_to_file` writes, and runs the record loop of `load_from_file`.

## Layout

- `outcomes.dfy`, module `Outcomes`: the error kinds plus the `Result`, `Status` and `Option` wrappers. The source's exceptions and its printed non-fatal reports become values here.
- `products.dfy`, module `Products` (app.py lines 14-119):
  - JSON scalars (`Value`) and records (`Record`).
  - `Kind`: the closed sum of the two variants.
  - `ProductData`: all fields of a product as a value.
  - `ToDict`, `ElectronicsFromDict`, `ClothingFromDict`, and `Reduce`, the pure effect of `reduce_quantity`.
  - The class `Product`, whose `quantity` field is updated in place.
- `catalog.dfy`, module `Catalog`: the inventory's contents as a value, called a *stock*. A stock holds the ids in the dictionary's insertion order and the product under each id. Every inventory operation is a function on stocks (`Add`, `Sell`, `Insert`, `Listing`, `Save`, `ProductFromRecord`, `Load`). The lemmas about these functions carry the properties.
- `store.dfy`, module `Store`: the class `Inventory`. Its fields are `products` (a map from id to `Product` objects) and `order` (the dictionary's key order). Each method that changes or returns the contents is proved against its `Catalog` function applied to `Contents()`: `AddProduct` against `Add`, `SellProduct` against `Sell`, `ListInventory` against `Listing`, `SaveToFile` against `Save`, and `LoadFromFile` against `Load`.

Python dictionaries keep insertion order, and assigning to an existing key keeps its position. The model keeps that order explicitly, so listing and saving visit entries in the same order as the source.

Two points where the code is more permissive than one might expect, and the model follows it:

- `reduce_quantity` accepts any integer, so a negative amount raises the stock, and the model does the same. The new quantity is never negative, since `amount <= quantity` implies `quantity - amount >= 0`.
- The price is never checked or computed with; the model carries it as an opaque value.

## Model

| member | source | states |
|---|---|---|
| `Products.Reduce` | app.py:37-40 | Succeeds exactly when `amount <= quantity`. On success the new quantity plus `amount` equals the old quantity, and the new quantity is non-negative. On failure the error is insufficient stock, naming the available quantity. |
| `Products.Product.ReduceQuantity` | app.py:37-40 | Succeeds exactly when `amount <= quantity` and then leaves `quantity - amount`. On failure it reports insufficient stock and leaves the quantity unchanged. It may modify only the quantity field. |
| `Products.Product.UpdateQuantity` | app.py:34-35 | Sets the quantity to the given value without validation, and touches nothing else. |
| `Products.Product.constructor` | app.py:16-20 | The new object holds exactly the given id, name, price, quantity and variant fields. |
| `Products.ToDict` | app.py:67-76 | The record's keys are exactly `"type"` plus the variant's six constructor keys (`"warranty"` for Electronics, `"material"` for Clothing, and so on). `"type"` is the exact variant name, and each other key holds its own field: `product_id` the id, `name` the name, `price` the price, `quantity` the quantity, and `brand`/`warranty` or `size`/`material` the variant's fields. The same holds for Clothing at lines 100-109. |
| `Products.ElectronicsFromDict` | app.py:78-86 | If any of the six required keys is absent, the result is invalid product data with missing fields. If all six are present and hold values of the fields' kinds, it succeeds. Every failure is invalid product data. A success is an Electronics product whose `to_dict` agrees with the input on all six required keys. |
| `Products.ClothingFromDict` | app.py:111-119 | The same as `ElectronicsFromDict`, for Clothing and its keys `size` and `material`. |
| `Products.ElectronicsRoundTrip` | app.py:67-86 | `from_dict(to_dict(p))` rebuilds an Electronics product `p` field for field. |
| `Products.ClothingRoundTrip` | app.py:100-119 | `from_dict(to_dict(p))` rebuilds a Clothing product `p` field for field. |
| `Products.CrossVariantRejected` | app.py:78-86 | A record of one variant given to the other variant's `from_dict` fails with missing fields. |
| `Products.ElectronicsIgnoresExtraKeys` | app.py:80-86 | Two records that agree on the six Electronics keys give the same result, so extra keys are ignored. |
| `Products.ClothingIgnoresExtraKeys` | app.py:113-119 | Two records that agree on the six Clothing keys give the same result, so extra keys are ignored. |
| `Catalog.Insert` | app.py:179 | Dictionary assignment under the product's id: the key now maps to the product and every other key is unchanged. A present key keeps its position and a new key is appended. Valid stocks stay valid (unique ids, keys equal ids). |
| `Catalog.Add` | app.py:126-129 | Fails with a duplicate-product error exactly when the id is present. Otherwise the new map is `old[id := p]` with the id appended to the order. Validity is preserved. |
| `Catalog.AddTwiceRejected` | app.py:126-129 | After a successful add, a second add with the same id fails with a duplicate-product error, and the first product stays under that id. |
| `Catalog.Sell` | app.py:132-141 | An unknown id gives not-found. Insufficient stock gives that error. Both leave the state as it was. On success, only the named product's quantity changes, dropping by exactly `amount`. All other entries, all other fields and the order are untouched, and validity is preserved. |
| `Catalog.Listing` | app.py:155-156 | One entry per id, in the dictionary's iteration order. |
| `Catalog.ListingComplete` | app.py:150-157 | The listing has one item per product, and every product appears in it. No id appears twice. The listing is empty exactly when the inventory is empty. |
| `Catalog.Save` | app.py:162 | The saved list has one `to_dict` record per entry, in iteration order. |
| `Catalog.ProductFromRecord` | app.py:172-178 | A missing or unrecognised `"type"` gives invalid product data (unknown type), and every failure is invalid product data. A success has the variant named by `"type"` and agrees with the record on that variant's required keys. |
| `Catalog.RecordRoundTrip` | app.py:172-178 | Dispatching `to_dict(p)` on its `"type"` gives back `p`, for both variants. |
| `Catalog.Load` | app.py:171-179 | The load loop as a function of the old stock and the records. It preserves validity, and its only failure is invalid product data. |
| `Catalog.LoadDoneIff` | app.py:171-180 | A load succeeds exactly when every record decodes. |
| `Catalog.LoadStep` | app.py:171-179 | Records are applied in order. A good record after a successful prefix is inserted at its id, with no duplicate check. |
| `Catalog.LoadOverwritesExisting` | app.py:179 | `add_product` would reject a product whose id is present. Loading its record instead overwrites that entry in place and keeps the order. |
| `Catalog.LoadAfterFailure` | app.py:171-184 | Once a record has failed, the records after it change nothing. |
| `Catalog.LoadFailsAt` | app.py:171-184 | A bad record after a successful prefix ends the load. The result keeps what the prefix inserted and reports that record's error. |
| `Catalog.LoadStopsAtFirstBad` | app.py:171-184 | When record `j` is the first bad one, the result is the stock built from records `0..j-1` with record `j`'s error. Records before it remain and records after it are not applied. |
| `Catalog.SaveLoadRoundTrip` | app.py:162-179 | Loading the saved record list into an empty inventory succeeds and yields the original, id by id, field for field and in the same order. |
| `Store.Inventory.constructor` | app.py:123-124 | A new inventory is valid and empty. |
| `Store.Inventory.Put` | app.py:129 | Stores the very object `p` at its id, and the contents become `Insert(old contents, p)`. |
| `Store.Inventory.AddProduct` | app.py:126-130 | On a duplicate id it reports the error and leaves the map and order unchanged. Otherwise it stores the object `p` under its id and the contents follow `Catalog.Add`. |
| `Store.Inventory.SellProduct` | app.py:132-141 | It may only modify product objects. The contents follow `Catalog.Sell`: not-found and insufficient stock leave them unchanged, and success lowers only the named product's quantity. |
| `Store.Inventory.ViewProduct` | app.py:143-148 | Returns the product under the id exactly when the id is present, and modifies nothing. |
| `Store.Inventory.ListInventory` | app.py:150-157 | Returns every entry in iteration order (`Catalog.Listing` of the contents), and modifies nothing. |
| `Store.Inventory.SaveToFile` | app.py:159-162 | Returns the record list `[p.to_dict() for p in products.values()]`, that is `Catalog.Save` of the contents, and modifies nothing. |
| `Store.Inventory.LoadFromFile` | app.py:167-184 | The new contents and the returned status are exactly `Catalog.Load(old contents, records)`. Records are inserted one at a time, and a bad record stops the loop with no rollback. |

## Left out

- `cli_menu` (app.py:189-256): an interactive console loop that parses input with `float` and `int`, and only calls the operations modelled here.
- File and JSON handling: `open`, `json.dump`, `json.load`, `FileNotFoundError` and `json.JSONDecodeError`. The file's contents are modelled as an already-parsed sequence of records. `SaveToFile` returns the list that would be written, and `LoadFromFile` takes the list that was read.
- Every `print` in `Inventory`. Outcomes are returned as `Status` or `Option` values instead.
- `display_info` (app.py:62-65, 95-98): it formats a float price as text. `ViewProduct` and `ListInventory` return the product's fields instead of the formatted line.
- `Value`: JSON booleans, null, arrays and nested objects are not modelled as record values. A top-level file that is not a list of objects is also left out: in the source it raises an exception that `load_from_file` does not catch (an `AttributeError` at `data.get` for a non-object element, a `TypeError` at `for data in data_list` for a top-level number, boolean or null), and records before a non-object element have already been inserted when it is raised.
- Float representation of the price: the price is an opaque `Value` (a `real` for JSON numbers) that is only carried through.
- `Products.ElectronicsFromDict`: it also fails, with `WrongFieldType`, when a required key holds the wrong kind of JSON value (an int `product_id`, a number as `name` or `brand`, a string `warranty`, a float quantity such as `7.0`, and so on). The source stores such a value unchecked. Some of these break a later operation (a string quantity makes `reduce_quantity` raise `TypeError`), while others keep working: `3 > 7.0` is a valid comparison and `to_dict` writes the value back. Product fields are typed in this model, so such a product cannot be built.
- `Products.ClothingFromDict`: the same extra `WrongFieldType` failure as in `ElectronicsFromDict`.
- `Catalog.ProductFromRecord`, `Catalog.Load` and `Store.Inventory.LoadFromFile`: because of that extra failure, a record whose required keys hold values of the wrong kind ends the model's load with invalid product data, and the records after it are not applied. The source stores such a record and goes on to load the records after it.
- The getters `get_id`, `get_name`, `get_price` and `get_quantity`: these are the `const` fields and the `quantity` field of `Product`.
