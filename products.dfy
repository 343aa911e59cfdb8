/**
 * The product variants: a closed sum of Electronics and Clothing over the
 * common fields id, name, price and quantity, their tagged-record form,
 * and the one mutable part of a product, its quantity.
 */
module Products {
  import opened Outcomes

  /** A scalar of a decoded JSON object. */
  datatype Value = Str(s: string) | Int(i: int) | Num(r: real)

  /** A flat, string-keyed tagged record, as `to_dict` builds it. */
  type Record = map<string, Value>

  /** The fields a variant adds to the common ones. */
  datatype Kind =
    | Electronics(brand: string, warranty: int)
    | Clothing(size: string, material: string)

  /** All fields of one product at one moment. The price is carried, never inspected. */
  datatype ProductData = ProductData(id: string, name: string, price: Value, quantity: int, kind: Kind)

  /** The discriminator written under "type". */
  function TypeName(k: Kind): string
  {
    match k
    case Electronics(_, _) => "Electronics"
    case Clothing(_, _) => "Clothing"
  }

  const ElectronicsKeys: set<string> := {"product_id", "name", "price", "quantity", "brand", "warranty"}
  const ClothingKeys: set<string> := {"product_id", "name", "price", "quantity", "size", "material"}

  /** The keys `from_dict` of a variant reads. */
  function KeysOf(k: Kind): set<string>
  {
    if k.Electronics? then ElectronicsKeys else ClothingKeys
  }

  /** `to_dict`: the discriminator plus exactly the constructor's fields. */
  function ToDict(p: ProductData): (r: Record)
    ensures r.Keys == KeysOf(p.kind) + {"type"}
    ensures r["type"] == Str(TypeName(p.kind))
    ensures r["product_id"] == Str(p.id) && r["name"] == Str(p.name)
    ensures r["price"] == p.price && r["quantity"] == Int(p.quantity)
    ensures p.kind.Electronics? ==> r["brand"] == Str(p.kind.brand) && r["warranty"] == Int(p.kind.warranty)
    ensures p.kind.Clothing? ==> r["size"] == Str(p.kind.size) && r["material"] == Str(p.kind.material)
  {
    match p.kind
    case Electronics(brand, warranty) =>
      map["type" := Str("Electronics"), "product_id" := Str(p.id), "name" := Str(p.name),
          "price" := p.price, "quantity" := Int(p.quantity),
          "brand" := Str(brand), "warranty" := Int(warranty)]
    case Clothing(size, material) =>
      map["type" := Str("Clothing"), "product_id" := Str(p.id), "name" := Str(p.name),
          "price" := p.price, "quantity" := Int(p.quantity),
          "size" := Str(size), "material" := Str(material)]
  }

  /** The common keys hold values of the kinds the product fields have (the price may be any value). */
  predicate CommonTyped(data: Record)
    requires {"product_id", "name", "quantity"} <= data.Keys
  {
    data["product_id"].Str? && data["name"].Str? && data["quantity"].Int?
  }

  /** `Electronics.from_dict`: a missing key fails; keys beyond the six are not read. */
  function ElectronicsFromDict(data: Record): (r: Result<ProductData>)
    ensures !(ElectronicsKeys <= data.Keys) ==> r == Err(InvalidProductData(MissingFields("Electronics")))
    ensures ElectronicsKeys <= data.Keys && CommonTyped(data) && data["brand"].Str? && data["warranty"].Int? ==> r.Ok?
    ensures r.Err? ==> r.error.InvalidProductData?
    ensures r.Ok? ==> r.value.kind.Electronics?
    ensures r.Ok? ==> forall k :: k in ElectronicsKeys ==> k in data && ToDict(r.value)[k] == data[k]
  {
    if !(ElectronicsKeys <= data.Keys) then
      Err(InvalidProductData(MissingFields("Electronics")))
    else if CommonTyped(data) && data["brand"].Str? && data["warranty"].Int? then
      Ok(ProductData(data["product_id"].s, data["name"].s, data["price"], data["quantity"].i,
                     Electronics(data["brand"].s, data["warranty"].i)))
    else
      Err(InvalidProductData(WrongFieldType("Electronics")))
  }

  /** `Clothing.from_dict`: a missing key fails; keys beyond the six are not read. */
  function ClothingFromDict(data: Record): (r: Result<ProductData>)
    ensures !(ClothingKeys <= data.Keys) ==> r == Err(InvalidProductData(MissingFields("Clothing")))
    ensures ClothingKeys <= data.Keys && CommonTyped(data) && data["size"].Str? && data["material"].Str? ==> r.Ok?
    ensures r.Err? ==> r.error.InvalidProductData?
    ensures r.Ok? ==> r.value.kind.Clothing?
    ensures r.Ok? ==> forall k :: k in ClothingKeys ==> k in data && ToDict(r.value)[k] == data[k]
  {
    if !(ClothingKeys <= data.Keys) then
      Err(InvalidProductData(MissingFields("Clothing")))
    else if CommonTyped(data) && data["size"].Str? && data["material"].Str? then
      Ok(ProductData(data["product_id"].s, data["name"].s, data["price"], data["quantity"].i,
                     Clothing(data["size"].s, data["material"].s)))
    else
      Err(InvalidProductData(WrongFieldType("Clothing")))
  }

  /** The effect of `reduce_quantity(amount)` on a stored quantity. */
  function Reduce(quantity: int, amount: int): (r: Result<int>)
    ensures r.Ok? <==> amount <= quantity
    ensures r.Ok? ==> r.value >= 0 && r.value + amount == quantity
    ensures r.Err? ==> r.error == InsufficientStock(quantity)
  {
    if amount > quantity then Err(InsufficientStock(quantity)) else Ok(quantity - amount)
  }

  lemma ElectronicsRoundTrip(p: ProductData)
    requires p.kind.Electronics?
    ensures ElectronicsFromDict(ToDict(p)) == Ok(p)
  {
    assert ElectronicsKeys <= ToDict(p).Keys;
  }

  lemma ClothingRoundTrip(p: ProductData)
    requires p.kind.Clothing?
    ensures ClothingFromDict(ToDict(p)) == Ok(p)
  {
    assert ClothingKeys <= ToDict(p).Keys;
  }

  /** A record of one variant is rejected by the other variant's `from_dict`. */
  lemma CrossVariantRejected(p: ProductData)
    ensures p.kind.Clothing? ==> ElectronicsFromDict(ToDict(p)) == Err(InvalidProductData(MissingFields("Electronics")))
    ensures p.kind.Electronics? ==> ClothingFromDict(ToDict(p)) == Err(InvalidProductData(MissingFields("Clothing")))
  {
    assert "brand" !in ClothingKeys + {"type"};
    assert "size" !in ElectronicsKeys + {"type"};
  }

  /** Only the six required keys decide the outcome of `Electronics.from_dict`. */
  lemma ElectronicsIgnoresExtraKeys(d1: Record, d2: Record)
    requires forall k :: k in ElectronicsKeys ==> (k in d1 <==> k in d2)
    requires forall k :: k in ElectronicsKeys && k in d1 ==> d1[k] == d2[k]
    ensures ElectronicsFromDict(d1) == ElectronicsFromDict(d2)
  {
    assert ElectronicsKeys <= d1.Keys <==> ElectronicsKeys <= d2.Keys;
  }

  /** Only the six required keys decide the outcome of `Clothing.from_dict`. */
  lemma ClothingIgnoresExtraKeys(d1: Record, d2: Record)
    requires forall k :: k in ClothingKeys ==> (k in d1 <==> k in d2)
    requires forall k :: k in ClothingKeys && k in d1 ==> d1[k] == d2[k]
    ensures ClothingFromDict(d1) == ClothingFromDict(d2)
  {
    assert ClothingKeys <= d1.Keys <==> ClothingKeys <= d2.Keys;
  }

  /**
   * A product object. Id, name, price and the variant fields are fixed at
   * construction; the quantity is updated in place.
   */
  class Product {
    const id: string
    const name: string
    const price: Value
    var quantity: int
    const kind: Kind

    constructor (id: string, name: string, price: Value, quantity: int, kind: Kind)
      ensures Data() == ProductData(id, name, price, quantity, kind)
    {
      this.id := id;
      this.name := name;
      this.price := price;
      this.quantity := quantity;
      this.kind := kind;
    }

    /** The product's current fields as a value. */
    function Data(): ProductData
      reads this
    {
      ProductData(id, name, price, quantity, kind)
    }

    /** `update_quantity`: sets the quantity without validation. */
    method UpdateQuantity(q: int)
      modifies this`quantity
      ensures quantity == q
    {
      quantity := q;
    }

    /** `reduce_quantity`: decrements by exactly `amount`, or fails and changes nothing. */
    method ReduceQuantity(amount: int) returns (status: Status)
      modifies this`quantity
      ensures status.Done? <==> amount <= old(quantity)
      ensures status.Done? ==> Reduce(old(quantity), amount) == Ok(quantity)
      ensures status.Failed? ==> Reduce(old(quantity), amount) == Err(status.error) && quantity == old(quantity)
    {
      if amount > quantity {
        return Failed(InsufficientStock(quantity));
      }
      quantity := quantity - amount;
      status := Done;
    }
  }
}
