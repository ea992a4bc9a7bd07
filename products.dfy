/** The product catalog (products.service.ts): owner-scoped lookup, the three
    record updates (stock decrement, soft delete, partial update) on a store
    that maps product ids to records, and the filter queries over it. */
module Products {
  import opened Common
  import opened Text
  import opened Sorting
  import opened Schemas

  const ProductNotFound: string := "Product not found"
  const NotInInventory: string := "Product not found. Please add it to inventory first."
  const Deleted: string := "Product deleted successfully"

  /** findOne: the record stored under `id` when it belongs to the caller,
      active or not; NotFound otherwise. */
  function FindOne(products: map<string, Product>, userId: string, id: string): (r: Result<Product>)
    ensures r.Ok? <==> id in products && products[id].userId == userId
    ensures r.Ok? ==> r.value == products[id]
    ensures r.Err? ==> r.error == NotFound(ProductNotFound)
  {
    if id in products && products[id].userId == userId then Ok(products[id])
    else Err(NotFound(ProductNotFound))
  }

  /** The owner and activity conditions every listing query starts with. */
  predicate ActiveOf(p: Product, userId: string)
  {
    p.userId == userId && p.isActive
  }

  /** `category && category !== 'all'`: an absent, empty or 'all' category
      does not filter. */
  predicate InCategory(p: Product, category: Option<string>)
  {
    category.None? || category.value == "" || category.value == "all" || p.category == category.value
  }

  /** An absent or empty search does not filter; otherwise name, sku or a
      present barcode must contain it, ignoring case. */
  predicate MatchesSearch(p: Product, search: Option<string>)
  {
    search.None? || search.value == ""
    || ContainsIgnoreCase(p.name, search.value)
    || ContainsIgnoreCase(p.sku, search.value)
    || (p.barcode.Some? && ContainsIgnoreCase(p.barcode.value, search.value))
  }

  predicate Listed(p: Product, userId: string, category: Option<string>, search: Option<string>)
  {
    ActiveOf(p, userId) && InCategory(p, category) && MatchesSearch(p, search)
  }

  /** findByBarcode's condition: equal barcode, equal sku, or the name
      containing the code ignoring case. */
  predicate MatchesCode(p: Product, code: string)
  {
    p.barcode == Some(code) || p.sku == code || ContainsIgnoreCase(p.name, code)
  }

  /** getLowStock's strict comparison. */
  predicate IsLowStock(p: Product)
  {
    p.stock < p.minStock
  }

  function CreatedKey(p: Product): real
  {
    p.createdAt as real
  }

  /** One field of the update DTO: left out of the body, given a value, or
      given an explicit `null` (which `@IsOptional` lets through and
      `Object.assign` copies onto the record). */
  datatype Patch<T> = Absent | Given(value: T) | Null

  /** The optional fields of the update DTO (the validation whitelist admits no
      others). */
  datatype ProductChanges = ProductChanges(
    name: Patch<string>,
    sku: Patch<string>,
    category: Patch<string>,
    stock: Patch<real>,
    cost: Patch<real>,
    price: Patch<real>,
    minStock: Patch<real>,
    barcode: Patch<string>)

  const NoChanges: ProductChanges :=
    ProductChanges(Absent, Absent, Absent, Absent, Absent, Absent, Absent, Absent)

  /** The update DTO's bounds: every amount that is given is at least 0. */
  predicate ChangesNonNegative(c: ProductChanges)
  {
    && (c.stock.Given? ==> c.stock.value >= 0.0)
    && (c.cost.Given? ==> c.cost.value >= 0.0)
    && (c.price.Given? ==> c.price.value >= 0.0)
    && (c.minStock.Given? ==> c.minStock.value >= 0.0)
  }

  /** Only `barcode` is a nullable column: a null in any other field makes the
      save violate a NOT NULL constraint. */
  predicate NullOnlyInBarcode(c: ProductChanges)
  {
    !c.name.Null? && !c.sku.Null? && !c.category.Null?
    && !c.stock.Null? && !c.cost.Null? && !c.price.Null? && !c.minStock.Null?
  }

  /** The sku column is unique across the whole table: a given sku clashes
      when a product other than `id` already has it. */
  predicate SkuTaken(products: map<string, Product>, id: string, c: ProductChanges)
  {
    c.sku.Given? && exists other | other in products :: other != id && products[other].sku == c.sku.value
  }

  function Pick<T>(supplied: Patch<T>, current: T): T
    requires !supplied.Null?
  {
    if supplied.Given? then supplied.value else current
  }

  /** Object.assign(product, dto) as the save stores it: each given field
      overwrites, a null barcode clears it, and the rest of the record, its
      identity and owner included, stays. */
  function ApplyChanges(p: Product, c: ProductChanges): (r: Product)
    requires NullOnlyInBarcode(c)
    ensures r.id == p.id && r.userId == p.userId
    ensures r.isActive == p.isActive && r.createdAt == p.createdAt
  {
    p.(name := Pick(c.name, p.name), sku := Pick(c.sku, p.sku),
       category := Pick(c.category, p.category), stock := Pick(c.stock, p.stock),
       cost := Pick(c.cost, p.cost), price := Pick(c.price, p.price),
       minStock := Pick(c.minStock, p.minStock),
       barcode := match c.barcode
         case Absent => p.barcode
         case Given(b) => Some(b)
         case Null => None)
  }

  /** An empty update leaves the record as it is. */
  lemma ApplyNoChanges(p: Product)
    ensures ApplyChanges(p, NoChanges) == p
  {
  }

  /** Applying the same update twice is applying it once. */
  lemma ApplyIdempotent(p: Product, c: ProductChanges)
    requires NullOnlyInBarcode(c)
    ensures ApplyChanges(ApplyChanges(p, c), c) == ApplyChanges(p, c)
  {
  }

  /** A given field takes the given value, an absent one keeps the old, and a
      null barcode becomes no barcode. */
  lemma ApplyOverwritesSupplied(p: Product, c: ProductChanges)
    requires NullOnlyInBarcode(c)
    ensures c.stock.Given? ==> ApplyChanges(p, c).stock == c.stock.value
    ensures c.stock.Absent? ==> ApplyChanges(p, c).stock == p.stock
    ensures c.name.Given? ==> ApplyChanges(p, c).name == c.name.value
    ensures c.name.Absent? ==> ApplyChanges(p, c).name == p.name
    ensures c.sku.Given? ==> ApplyChanges(p, c).sku == c.sku.value
    ensures c.sku.Absent? ==> ApplyChanges(p, c).sku == p.sku
    ensures c.barcode.Given? ==> ApplyChanges(p, c).barcode == Some(c.barcode.value)
    ensures c.barcode.Absent? ==> ApplyChanges(p, c).barcode == p.barcode
    ensures c.barcode.Null? ==> ApplyChanges(p, c).barcode.None?
  {
  }

  /** Updating a record that meets the DTO bounds with DTO-valid changes keeps
      the bounds. */
  lemma ApplyKeepsBounds(p: Product, c: ProductChanges)
    requires NullOnlyInBarcode(c)
    requires AmountsNonNegative(p) && ChangesNonNegative(c)
    ensures AmountsNonNegative(ApplyChanges(p, c))
  {
  }

  /** No two records share a sku. */
  ghost predicate SkusUnique(products: map<string, Product>)
  {
    forall a, b | a in products && b in products && a != b :: products[a].sku != products[b].sku
  }

  /** A record that keeps its sku keeps the store's skus unique. */
  lemma SameSkuKeepsUnique(products: map<string, Product>, id: string, p: Product)
    requires SkusUnique(products) && id in products && p.sku == products[id].sku
    ensures SkusUnique(products[id := p])
  {
  }

  /** An update that the unique index lets through keeps the skus unique. */
  lemma UpdateKeepsSkusUnique(products: map<string, Product>, id: string, c: ProductChanges)
    requires SkusUnique(products) && id in products
    requires NullOnlyInBarcode(c) && !SkuTaken(products, id, c)
    ensures SkusUnique(products[id := ApplyChanges(products[id], c)])
  {
    var q := products[id := ApplyChanges(products[id], c)];
    forall a, b | a in q && b in q && a != b
      ensures q[a].sku != q[b].sku
    {
      if a == id && c.sku.Given? {
        assert !(b in products && b != id && products[b].sku == c.sku.value);
      } else if b == id && c.sku.Given? {
        assert !(a in products && a != id && products[a].sku == c.sku.value);
      }
    }
  }

  /** The catalog store: product records keyed by their id. */
  class ProductsService {
    var products: map<string, Product>

    ghost predicate Valid()
      reads this
    {
      && (forall id | id in products :: products[id].id == id)
      && SkusUnique(products)
    }

    constructor (initial: map<string, Product>)
      requires forall id | id in initial :: initial[id].id == id
      requires SkusUnique(initial)
      ensures Valid() && products == initial
    {
      products := initial;
    }

    /** updateStock: stock becomes old stock minus quantity, whatever the sign
        of the result; no other field and no other product changes. */
    method UpdateStock(userId: string, productId: string, quantity: real) returns (r: Result<Product>)
      requires Valid()
      modifies this
      ensures Valid()
      ensures old(FindOne(products, userId, productId)).Err? ==>
        r == old(FindOne(products, userId, productId)) && products == old(products)
      ensures old(FindOne(products, userId, productId)).Ok? ==>
        && r.Ok?
        && r.value == old(products)[productId].(stock := old(products)[productId].stock - quantity)
        && products == old(products)[productId := r.value]
    {
      var found := FindOne(products, userId, productId);
      if found.Err? {
        return found;
      }
      var product := found.value.(stock := found.value.stock - quantity);
      SameSkuKeepsUnique(products, productId, product);
      products := products[productId := product];
      r := Ok(product);
    }

    /** remove: a soft delete. The record stays, with isActive false and every
        other field as it was. */
    method Remove(userId: string, id: string) returns (r: Result<string>)
      requires Valid()
      modifies this
      ensures Valid()
      ensures old(FindOne(products, userId, id)).Err? ==>
        r == Err(NotFound(ProductNotFound)) && products == old(products)
      ensures old(FindOne(products, userId, id)).Ok? ==>
        && r == Ok(Deleted)
        && products == old(products)[id := old(products)[id].(isActive := false)]
    {
      var found := FindOne(products, userId, id);
      if found.Err? {
        return Err(found.error);
      }
      SameSkuKeepsUnique(products, id, found.value.(isActive := false));
      products := products[id := found.value.(isActive := false)];
      r := Ok(Deleted);
    }

    /** update: overwrite the supplied fields of the caller's record and save
        it. The save fails, and the store keeps its old rows, when a null
        reaches a NOT NULL column or the new sku is another product's. */
    method Update(userId: string, id: string, changes: ProductChanges) returns (r: Result<Product>)
      requires Valid()
      requires ChangesNonNegative(changes)
      modifies this
      ensures Valid()
      ensures r.Ok? ==> id in old(products) && (AmountsNonNegative(old(products)[id]) ==> AmountsNonNegative(r.value))
      ensures old(FindOne(products, userId, id)).Err? ==>
        r == old(FindOne(products, userId, id)) && products == old(products)
      ensures old(FindOne(products, userId, id)).Ok? && (!NullOnlyInBarcode(changes) || old(SkuTaken(products, id, changes))) ==>
        r == Err(QueryFailed(InternalServerError)) && products == old(products)
      ensures old(FindOne(products, userId, id)).Ok? && NullOnlyInBarcode(changes) && !old(SkuTaken(products, id, changes)) ==>
        && r == Ok(ApplyChanges(old(products)[id], changes))
        && products == old(products)[id := r.value]
    {
      var found := FindOne(products, userId, id);
      if found.Err? {
        return found;
      }
      if !NullOnlyInBarcode(changes) || SkuTaken(products, id, changes) {
        return Err(QueryFailed(InternalServerError));
      }
      var product := ApplyChanges(found.value, changes);
      if AmountsNonNegative(found.value) {
        ApplyKeepsBounds(found.value, changes);
      }
      UpdateKeepsSkusUnique(products, id, changes);
      products := products[id := product];
      r := Ok(product);
    }

    /** findAll: exactly the caller's active products that pass the category
        and search filters, each once, newest first. */
    method FindAll(userId: string, category: Option<string>, search: Option<string>)
      returns (r: seq<Product>)
      requires Valid()
      ensures forall p :: p in r <==> p in products.Values && Listed(p, userId, category, search)
      ensures Distinct(r)
      ensures SortedDesc(r, CreatedKey)
    {
      r := [];
      var remaining := products.Keys;
      while remaining != {}
        invariant remaining <= products.Keys
        invariant SortedDesc(r, CreatedKey)
        invariant Distinct(r)
        invariant forall p | p in r :: p in products.Values && Listed(p, userId, category, search) && p.id !in remaining
        invariant forall id | id in products && id !in remaining ::
          Listed(products[id], userId, category, search) ==> products[id] in r
        decreases remaining
      {
        var id :| id in remaining;
        remaining := remaining - {id};
        var p := products[id];
        if Listed(p, userId, category, search) {
          assert p !in r;
          var r' := InsertDesc(r, p, CreatedKey);
          assert forall q :: q in r' <==> q in multiset(r) + multiset{p};
          assert forall q :: q in r' <==> q in r || q == p;
          r := r';
        }
      }
    }

    /** getLowStock: exactly the caller's active products whose stock is
        strictly below their minimum, each once. */
    method GetLowStock(userId: string) returns (r: seq<Product>)
      requires Valid()
      ensures forall p :: p in r <==> p in products.Values && ActiveOf(p, userId) && IsLowStock(p)
      ensures Distinct(r)
    {
      r := [];
      var remaining := products.Keys;
      while remaining != {}
        invariant remaining <= products.Keys
        invariant Distinct(r)
        invariant forall p | p in r :: p in products.Values && ActiveOf(p, userId) && IsLowStock(p) && p.id !in remaining
        invariant forall id | id in products && id !in remaining ::
          ActiveOf(products[id], userId) && IsLowStock(products[id]) ==> products[id] in r
        decreases remaining
      {
        var id :| id in remaining;
        remaining := remaining - {id};
        var p := products[id];
        if ActiveOf(p, userId) && IsLowStock(p) {
          assert p !in r;
          r := r + [p];
        }
      }
    }

    /** getCategories: each category of the caller's active products, once. */
    method GetCategories(userId: string) returns (r: seq<string>)
      requires Valid()
      ensures forall c :: c in r <==> exists p :: p in products.Values && ActiveOf(p, userId) && p.category == c
      ensures Distinct(r)
    {
      r := [];
      var remaining := products.Keys;
      while remaining != {}
        invariant remaining <= products.Keys
        invariant Distinct(r)
        invariant forall c | c in r :: exists p :: p in products.Values && ActiveOf(p, userId) && p.category == c
        invariant forall id | id in products && id !in remaining ::
          ActiveOf(products[id], userId) ==> products[id].category in r
        decreases remaining
      {
        var id :| id in remaining;
        remaining := remaining - {id};
        var p := products[id];
        if ActiveOf(p, userId) && p.category !in r {
          r := r + [p.category];
        }
      }
      forall c | exists p :: p in products.Values && ActiveOf(p, userId) && p.category == c
        ensures c in r
      {
        var p :| p in products.Values && ActiveOf(p, userId) && p.category == c;
        var id :| id in products && products[id] == p;
      }
    }

    /** findByBarcode: one of the caller's active products whose barcode or sku
        equals the code or whose name contains it; NotFound when none does. */
    method FindByBarcode(userId: string, code: string) returns (r: Result<Product>)
      requires Valid()
      ensures r.Ok? ==> r.value in products.Values && ActiveOf(r.value, userId) && MatchesCode(r.value, code)
      ensures r.Err? <==> forall p | p in products.Values :: !(ActiveOf(p, userId) && MatchesCode(p, code))
      ensures r.Err? ==> r.error == NotFound(NotInInventory)
    {
      var remaining := products.Keys;
      while remaining != {}
        invariant remaining <= products.Keys
        invariant forall id | id in products && id !in remaining ::
          !(ActiveOf(products[id], userId) && MatchesCode(products[id], code))
        decreases remaining
      {
        var id :| id in remaining;
        remaining := remaining - {id};
        var p := products[id];
        if ActiveOf(p, userId) && MatchesCode(p, code) {
          return Ok(p);
        }
      }
      r := Err(NotFound(NotInInventory));
    }
  }
}
