/**
 * The inventory's contents as a value, and its operations as functions:
 * the specification the `Inventory` class is proved against.
 *
 * A `Stock` is the id-keyed dictionary of the inventory: `items` maps each id
 * to its product and `order` lists the ids in the dictionary's insertion
 * order, which is the order in which listing and saving visit the entries.
 */
module Catalog {
  import opened Outcomes
  import opened Products

  datatype Stock = Stock(order: seq<string>, items: map<string, ProductData>)

  const Empty: Stock := Stock([], map[])

  ghost predicate Distinct(s: seq<string>)
  {
    forall i, j :: 0 <= i < j < |s| ==> s[i] != s[j]
  }

  /** Ids are unique, `order` lists exactly the keys, and every product sits under its own id. */
  ghost predicate Valid(s: Stock)
  {
    && Distinct(s.order)
    && (forall k :: k in s.items <==> k in s.order)
    && (forall k :: k in s.items ==> s.items[k].id == k)
  }

  /**
   * Dictionary assignment `products[p.id] = p`: the entry is replaced if the id
   * is present (keeping its position), appended otherwise.
   */
  function Insert(s: Stock, p: ProductData): (r: Stock)
    ensures Valid(s) ==> Valid(r)
    ensures r.items.Keys == s.items.Keys + {p.id} && r.items[p.id] == p
    ensures forall k :: k in s.items && k != p.id ==> r.items[k] == s.items[k]
    ensures p.id in s.items ==> r.order == s.order
    ensures p.id !in s.items ==> r.order == s.order + [p.id]
  {
    Stock(if p.id in s.items then s.order else s.order + [p.id], s.items[p.id := p])
  }

  /** `add_product`: rejects an id already present, otherwise inserts. */
  function Add(s: Stock, p: ProductData): (r: Result<Stock>)
    ensures r.Err? <==> p.id in s.items
    ensures r.Err? ==> r.error == DuplicateProduct(p.id)
    ensures r.Ok? ==> r.value.items == s.items[p.id := p] && r.value.order == s.order + [p.id]
    ensures r.Ok? && Valid(s) ==> Valid(r.value)
  {
    if p.id in s.items then Err(DuplicateProduct(p.id)) else Ok(Insert(s, p))
  }

  /**
   * `sell_product`: an unknown id or insufficient stock is reported and
   * changes nothing; otherwise only the named product's quantity drops.
   */
  function Sell(s: Stock, id: string, amount: int): (r: Result<Stock>)
    ensures r.Ok? <==> id in s.items && amount <= s.items[id].quantity
    ensures id !in s.items ==> r == Err(NotFound(id))
    ensures id in s.items && r.Err? ==> r.error == InsufficientStock(s.items[id].quantity)
    ensures r.Ok? ==> r.value.order == s.order && r.value.items.Keys == s.items.Keys
    ensures r.Ok? ==> r.value.items[id] == s.items[id].(quantity := s.items[id].quantity - amount)
    ensures r.Ok? ==> r.value.items[id].quantity >= 0
    ensures r.Ok? ==> forall k :: k in s.items && k != id ==> r.value.items[k] == s.items[k]
    ensures r.Ok? && Valid(s) ==> Valid(r.value)
  {
    if id !in s.items then Err(NotFound(id))
    else
      match Reduce(s.items[id].quantity, amount)
      case Err(e) => Err(e)
      case Ok(q) => Ok(Stock(s.order, s.items[id := s.items[id].(quantity := q)]))
  }

  /** The entries in iteration order, as `list_inventory` visits them. */
  function Listing(s: Stock): (r: seq<ProductData>)
    requires Valid(s)
    ensures |r| == |s.order|
    ensures forall i :: 0 <= i < |r| ==> r[i] == s.items[s.order[i]]
  {
    seq(|s.order|, i requires 0 <= i < |s.order| => s.items[s.order[i]])
  }

  /** The record list `save_to_file` hands to the JSON writer. */
  function Save(s: Stock): (r: seq<Record>)
    requires Valid(s)
    ensures |r| == |s.order|
    ensures forall i :: 0 <= i < |r| ==> r[i] == ToDict(s.items[s.order[i]])
  {
    var listing := Listing(s);
    seq(|listing|, i requires 0 <= i < |listing| => ToDict(listing[i]))
  }

  /** The dispatch of `load_from_file` on the "type" discriminator. */
  function ProductFromRecord(data: Record): (r: Result<ProductData>)
    ensures ("type" !in data || data["type"] !in {Str("Electronics"), Str("Clothing")}) ==>
              r == Err(InvalidProductData(UnknownType))
    ensures r.Err? ==> r.error.InvalidProductData?
    ensures r.Ok? ==> "type" in data && data["type"] == Str(TypeName(r.value.kind))
    ensures r.Ok? ==> forall k :: k in KeysOf(r.value.kind) ==> k in data && ToDict(r.value)[k] == data[k]
  {
    if "type" in data && data["type"] == Str("Electronics") then ElectronicsFromDict(data)
    else if "type" in data && data["type"] == Str("Clothing") then ClothingFromDict(data)
    else Err(InvalidProductData(UnknownType))
  }

  datatype LoadResult = LoadResult(stock: Stock, status: Status)

  /**
   * The record loop of `load_from_file`: records are applied one at a time,
   * each overwriting the entry at its id; the first bad record stops the
   * loop and what was inserted before it stays.
   */
  function Load(s: Stock, rs: seq<Record>): (r: LoadResult)
    ensures Valid(s) ==> Valid(r.stock)
    ensures r.status.Failed? ==> r.status.error.InvalidProductData?
    decreases |rs|
  {
    if rs == [] then LoadResult(s, Done)
    else
      var prev := Load(s, rs[..|rs| - 1]);
      if prev.status.Failed? then prev
      else
        match ProductFromRecord(rs[|rs| - 1])
        case Err(e) => LoadResult(prev.stock, Failed(e))
        case Ok(p) => LoadResult(Insert(prev.stock, p), Done)
  }

  /** A load succeeds exactly when every record decodes. */
  lemma {:induction false} LoadDoneIff(s: Stock, rs: seq<Record>)
    ensures Load(s, rs).status.Done? <==> forall i :: 0 <= i < |rs| ==> ProductFromRecord(rs[i]).Ok?
    decreases |rs|
  {
    if rs != [] {
      var n := |rs| - 1;
      var init := rs[..n];
      LoadDoneIff(s, init);
      var prev := Load(s, init);
      var last := ProductFromRecord(rs[n]);
      assert Load(s, rs).status.Done? <==> prev.status.Done? && last.Ok?;
      if Load(s, rs).status.Done? {
        forall i | 0 <= i < |rs| ensures ProductFromRecord(rs[i]).Ok? {
          if i < n {
            assert init[i] == rs[i];
            assert ProductFromRecord(init[i]).Ok?;
          } else {
            assert i == n;
          }
        }
      }
    }
  }

  lemma RecordRoundTrip(p: ProductData)
    ensures ProductFromRecord(ToDict(p)) == Ok(p)
  {
    if p.kind.Electronics? {
      ElectronicsRoundTrip(p);
    } else {
      ClothingRoundTrip(p);
    }
  }

  /** A second `add_product` with the same id fails and keeps the first product. */
  lemma AddTwiceRejected(s: Stock, p: ProductData, q: ProductData)
    requires Add(s, p).Ok? && q.id == p.id
    ensures Add(Add(s, p).value, q) == Err(DuplicateProduct(p.id))
    ensures Add(s, p).value.items[p.id] == p
  {
  }

  /** One more good record after a successful prefix is inserted at its id. */
  lemma {:induction false} LoadStep(s: Stock, rs: seq<Record>, i: nat, p: ProductData)
    requires i < |rs|
    requires Load(s, rs[..i]).status.Done?
    requires ProductFromRecord(rs[i]) == Ok(p)
    ensures Load(s, rs[..i + 1]) == LoadResult(Insert(Load(s, rs[..i]).stock, p), Done)
  {
    assert rs[..i + 1][..i] == rs[..i];
  }

  /** Unlike `add_product`, loading a record whose id is present overwrites it in place. */
  lemma LoadOverwritesExisting(s: Stock, p: ProductData)
    requires p.id in s.items
    ensures Add(s, p) == Err(DuplicateProduct(p.id))
    ensures Load(s, [ToDict(p)]) == LoadResult(Stock(s.order, s.items[p.id := p]), Done)
  {
    RecordRoundTrip(p);
    assert [ToDict(p)][..0] == [];
  }

  /** Records after a failure are never applied. */
  lemma {:induction false} LoadAfterFailure(s: Stock, a: seq<Record>, b: seq<Record>)
    requires Load(s, a).status.Failed?
    ensures Load(s, a + b) == Load(s, a)
    decreases |b|
  {
    if b == [] {
      assert a + b == a;
    } else {
      var b' := b[..|b| - 1];
      assert (a + b)[..|a + b| - 1] == a + b';
      LoadAfterFailure(s, a, b');
    }
  }

  /** A bad record after a successful prefix ends the load with the prefix's stock. */
  lemma {:induction false} LoadFailsAt(s: Stock, rs: seq<Record>, j: nat)
    requires j < |rs|
    requires Load(s, rs[..j]).status.Done?
    requires ProductFromRecord(rs[j]).Err?
    ensures Load(s, rs) == LoadResult(Load(s, rs[..j]).stock, Failed(ProductFromRecord(rs[j]).error))
  {
    assert rs[..j + 1][..j] == rs[..j];
    assert rs[..j + 1] + rs[j + 1..] == rs;
    LoadAfterFailure(s, rs[..j + 1], rs[j + 1..]);
  }

  /**
   * Partial application: when record `j` is the first bad one, the result is
   * the stock built from the records before it, with that record's error.
   */
  lemma {:induction false} LoadStopsAtFirstBad(s: Stock, rs: seq<Record>, j: nat)
    requires j < |rs|
    requires forall i :: 0 <= i < j ==> ProductFromRecord(rs[i]).Ok?
    requires ProductFromRecord(rs[j]).Err?
    ensures Load(s, rs) == LoadResult(Load(s, rs[..j]).stock, Failed(ProductFromRecord(rs[j]).error))
  {
    var prefix := rs[..j];
    forall i | 0 <= i < |prefix| ensures ProductFromRecord(prefix[i]).Ok? {
      assert prefix[i] == rs[i];
    }
    LoadDoneIff(s, prefix);
    LoadFailsAt(s, rs, j);
  }

  /** The first `n` saved entries, as a stock of their own. */
  ghost function Prefix(s: Stock, n: nat): Stock
    requires Valid(s) && n <= |s.order|
  {
    Stock(s.order[..n], map k | k in s.items && k in s.order[..n] :: s.items[k])
  }

  /** Growing a prefix by one saved entry is the insertion of that entry. */
  lemma PrefixGrows(s: Stock, n: nat)
    requires Valid(s) && n < |s.order|
    ensures Insert(Prefix(s, n), s.items[s.order[n]]) == Prefix(s, n + 1)
  {
    var id := s.order[n];
    assert id !in s.order[..n];
    assert s.order[..n] + [id] == s.order[..n + 1];
    var lhs := Insert(Prefix(s, n), s.items[id]).items;
    var rhs := Prefix(s, n + 1).items;
    assert forall k :: k in s.order[..n + 1] <==> k in s.order[..n] || k == id;
    assert lhs.Keys == rhs.Keys;
  }

  lemma {:induction false} LoadSavedPrefix(s: Stock, n: nat)
    requires Valid(s) && n <= |s.order|
    ensures Load(Empty, Save(s)[..n]) == LoadResult(Prefix(s, n), Done)
  {
    if n == 0 {
      assert Save(s)[..0] == [];
      assert Prefix(s, 0).items == map[];
    } else {
      LoadSavedPrefix(s, n - 1);
      var p := s.items[s.order[n - 1]];
      RecordRoundTrip(p);
      LoadStep(Empty, Save(s), n - 1, p);
      PrefixGrows(s, n - 1);
    }
  }

  /** Loading the saved records into an empty inventory rebuilds it exactly, in order. */
  lemma {:induction false} SaveLoadRoundTrip(s: Stock)
    requires Valid(s)
    ensures Load(Empty, Save(s)) == LoadResult(s, Done)
  {
    var n := |s.order|;
    LoadSavedPrefix(s, n);
    assert Save(s)[..n] == Save(s);
    assert s.order[..n] == s.order;
    assert Prefix(s, n).items == s.items;
  }

  lemma {:induction false} DistinctCard(o: seq<string>)
    requires Distinct(o)
    ensures |(set k | k in o)| == |o|
  {
    if o != [] {
      var init := o[..|o| - 1];
      var last := o[|o| - 1];
      assert Distinct(init);
      DistinctCard(init);
      assert (set k | k in o) == (set k | k in init) + {last};
      assert last !in (set k | k in init);
    }
  }

  /** `list_inventory` shows every entry once, and shows nothing exactly when the inventory is empty. */
  lemma {:induction false} ListingComplete(s: Stock)
    requires Valid(s)
    ensures |Listing(s)| == |s.items|
    ensures Listing(s) == [] <==> s.items == map[]
    ensures forall k :: k in s.items ==> exists i :: 0 <= i < |Listing(s)| && Listing(s)[i] == s.items[k]
    ensures forall i, j :: 0 <= i < j < |Listing(s)| ==> Listing(s)[i].id != Listing(s)[j].id
  {
    DistinctCard(s.order);
    assert s.items.Keys == set k | k in s.order;
    forall k | k in s.items
      ensures exists i :: 0 <= i < |Listing(s)| && Listing(s)[i] == s.items[k]
    {
      var i :| 0 <= i < |s.order| && s.order[i] == k;
      assert Listing(s)[i] == s.items[k];
    }
  }
}
