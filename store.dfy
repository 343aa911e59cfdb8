/**
 * The `Inventory` object: a dictionary from id to product objects, updated
 * in place. Each method is proved against the corresponding function of
 * `Catalog` on the inventory's contents.
 */
module Store {
  import opened Outcomes
  import opened Products
  import Catalog

  class Inventory {
    /** The dictionary's keys in insertion order. */
    var order: seq<string>
    var products: map<string, Product>

    /** The inventory's contents, read through the product objects. */
    function Contents(): Catalog.Stock
      reads this, products.Values
    {
      Catalog.Stock(order, map k | k in products :: products[k].Data())
    }

    ghost predicate Valid()
      reads this, products.Values
    {
      Catalog.Valid(Contents())
    }

    constructor ()
      ensures Valid() && Contents() == Catalog.Empty
    {
      order := [];
      products := map[];
    }

    /** `add_product`: the very object `p` is stored under its id, unless that id is taken. */
    method AddProduct(p: Product) returns (status: Status)
      requires Valid()
      modifies this
      ensures Valid()
      ensures status.Done? ==> products == old(products)[p.id := p] && order == old(order) + [p.id]
      ensures status.Failed? ==> products == old(products) && order == old(order)
      ensures match Catalog.Add(old(Contents()), p.Data())
              case Ok(s) => status == Done && Contents() == s
              case Err(e) => status == Failed(e)
    {
      if p.id in products {
        return Failed(DuplicateProduct(p.id));
      }
      Put(p);
      status := Done;
    }

    /** The dictionary assignment `products[p.id] = p`, shared by add and load. */
    method Put(p: Product)
      requires Valid()
      modifies this
      ensures Valid()
      ensures products == old(products)[p.id := p]
      ensures order == if p.id in old(products) then old(order) else old(order) + [p.id]
      ensures Contents() == Catalog.Insert(old(Contents()), p.Data())
    {
      if p.id !in products {
        order := order + [p.id];
      }
      products := products[p.id := p];
      assert Contents().items == old(Contents()).items[p.id := p.Data()];
      assert Contents() == Catalog.Insert(old(Contents()), p.Data());
    }

    /**
     * `sell_product`: delegates to the product's `reduce_quantity`; a missing
     * id or insufficient stock is reported and nothing changes.
     */
    method SellProduct(id: string, amount: int) returns (status: Status)
      requires Valid()
      modifies products.Values
      ensures Valid()
      ensures match Catalog.Sell(old(Contents()), id, amount)
              case Ok(s) => status == Done && Contents() == s
              case Err(e) => status == Failed(e) && Contents() == old(Contents())
    {
      if id !in products {
        return Failed(NotFound(id));
      }
      var p := products[id];
      ghost var before := Contents();
      assert forall k :: k in products && k != id ==> products[k] != p by {
        forall k | k in products && k != id ensures products[k] != p {
          assert before.items[k] == products[k].Data();
          assert products[k].id == k;
          assert before.items[id] == p.Data();
        }
      }
      status := p.ReduceQuantity(amount);
      assert forall k :: k in products && k != id ==> products[k].Data() == before.items[k];
      assert Contents().items == before.items[id := p.Data()];
    }

    /** `view_product`: looks the id up and changes nothing. */
    method ViewProduct(id: string) returns (r: Option<ProductData>)
      ensures r.Some? <==> id in Contents().items
      ensures r.Some? ==> r.value == Contents().items[id]
    {
      if id in products {
        r := Some(products[id].Data());
      } else {
        r := None;
      }
    }

    /** `list_inventory`: visits every entry in iteration order and changes nothing. */
    method ListInventory() returns (r: seq<ProductData>)
      requires Valid()
      ensures r == Catalog.Listing(Contents())
    {
      r := [];
      var i := 0;
      while i < |order|
        invariant 0 <= i <= |order|
        invariant r == Catalog.Listing(Contents())[..i]
      {
        r := r + [products[order[i]].Data()];
        i := i + 1;
      }
    }

    /** The record list `save_to_file` writes: one `to_dict` per entry, in iteration order. */
    method SaveToFile() returns (records: seq<Record>)
      requires Valid()
      ensures records == Catalog.Save(Contents())
    {
      var listing := ListInventory();
      records := seq(|listing|, i requires 0 <= i < |listing| => ToDict(listing[i]));
    }

    /**
     * The record loop of `load_from_file`: each record is decoded by its
     * "type" and stored at its id, overwriting any entry there; the first bad
     * record ends the loop, keeping what was stored before it.
     */
    method LoadFromFile(records: seq<Record>) returns (status: Status)
      requires Valid()
      modifies this
      ensures Valid()
      ensures Catalog.LoadResult(Contents(), status) == Catalog.Load(old(Contents()), records)
    {
      var i := 0;
      while i < |records|
        invariant 0 <= i <= |records|
        invariant Valid()
        invariant Catalog.Load(old(Contents()), records[..i]) == Catalog.LoadResult(Contents(), Done)
      {
        ghost var before := Contents();
        match Catalog.ProductFromRecord(records[i]) {
          case Err(e) =>
            Catalog.LoadFailsAt(old(Contents()), records, i);
            return Failed(e);
          case Ok(d) =>
            var p := new Product(d.id, d.name, d.price, d.quantity, d.kind);
            assert Contents() == before;
            Put(p);
            Catalog.LoadStep(old(Contents()), records, i, d);
        }
        i := i + 1;
      }
      assert records[..i] == records;
      status := Done;
    }
  }
}
