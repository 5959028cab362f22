/** The demo record store: arrays of users, products and orders held in
    memory, with find, filter, append, merge-update, delete and status-update
    operations. Each mutating operation takes the store and returns the new
    store together with what the source returns (or throws). */
module Database {
  import opened Wrappers
  import opened Seqs

  datatype UserType = Vendor | Supplier

  datatype User = User(
    id: string,
    username: string,
    email: string,
    phone: string,
    userType: UserType,
    businessName: Option<string>,
    address: Option<string>)

  datatype Product = Product(
    id: string,
    name: string,
    price: int,
    unit: string,
    category: string,
    description: string,
    minOrderQuantity: int,
    availability: bool,
    stockQuantity: int,
    supplierId: string,
    supplierName: string)

  datatype OrderItem = OrderItem(productId: string, productName: string, quantity: int, price: int)

  /** `status` is typed as a fixed union in the source, but `updateOrderStatus`
      stores whatever string it is given, so the model keeps a string. */
  datatype Order = Order(
    id: string,
    vendorId: string,
    vendorName: string,
    vendorPhone: string,
    supplierId: string,
    supplierName: string,
    totalAmount: int,
    status: string,
    createdAt: string,
    items: seq<OrderItem>,
    deliveryAddress: string)

  /** The three mutable arrays of the demo store. */
  datatype Db = Db(users: seq<User>, products: seq<Product>, orders: seq<Order>)

  /** The fields `createOrder` reads from its argument. */
  datatype ItemRequest = ItemRequest(productId: string, quantity: int, price: int)
  datatype OrderRequest = OrderRequest(
    vendorId: string,
    totalAmount: int,
    items: seq<ItemRequest>,
    deliveryAddress: string)

  /** The fields `addProduct` reads from its argument. */
  datatype ProductData = ProductData(
    name: string,
    price: int,
    unit: string,
    category: string,
    description: string,
    minOrderQuantity: int,
    availability: bool,
    stockQuantity: int,
    supplierId: string)

  /** A `Partial<Product>`: `None` is a key that is absent from the object. */
  datatype ProductPatch = ProductPatch(
    id: Option<string>,
    name: Option<string>,
    price: Option<int>,
    unit: Option<string>,
    category: Option<string>,
    description: Option<string>,
    minOrderQuantity: Option<int>,
    availability: Option<bool>,
    stockQuantity: Option<int>,
    supplierId: Option<string>,
    supplierName: Option<string>)

  const NoChange: ProductPatch :=
    ProductPatch(None, None, None, None, None, None, None, None, None, None, None)

  const UnknownProduct: string := "Unknown Product"
  const ProductNotFound: string := "Product not found"
  const OrderNotFound: string := "Order not found"

  // ---------------------------------------------------------------------
  // Queries
  // ---------------------------------------------------------------------

  /** `getVendorData`: the first user with this id whose type is vendor. */
  function GetVendorData(db: Db, vendorId: string): (r: Option<User>)
    ensures r.Some? ==> r.value.id == vendorId && r.value.userType == Vendor
    ensures r.Some? ==> exists i :: 0 <= i < |db.users| && db.users[i] == r.value &&
                                    forall j :: 0 <= j < i ==> !(db.users[j].id == vendorId && db.users[j].userType == Vendor)
    ensures r.None? <==> forall i :: 0 <= i < |db.users| ==>
      !(db.users[i].id == vendorId && db.users[i].userType == Vendor)
  {
    Find(db.users, (u: User) => u.id == vendorId && u.userType == Vendor)
  }

  /** `getSupplierData`: the first user with this id whose type is supplier. */
  function GetSupplierData(db: Db, supplierId: string): (r: Option<User>)
    ensures r.Some? ==> r.value.id == supplierId && r.value.userType == Supplier
    ensures r.Some? ==> exists i :: 0 <= i < |db.users| && db.users[i] == r.value &&
                                    forall j :: 0 <= j < i ==> !(db.users[j].id == supplierId && db.users[j].userType == Supplier)
    ensures r.None? <==> forall i :: 0 <= i < |db.users| ==>
      !(db.users[i].id == supplierId && db.users[i].userType == Supplier)
  {
    Find(db.users, (u: User) => u.id == supplierId && u.userType == Supplier)
  }

  /** The same id can never be found both as a vendor and as a supplier by
      the two lookups at once unless two users share that id. */
  lemma VendorSupplierDisjoint(db: Db, id: string)
    requires GetVendorData(db, id).Some? && GetSupplierData(db, id).Some?
    ensures exists i, j :: 0 <= i < j < |db.users| && db.users[i].id == id && db.users[j].id == id
  {
    var v := GetVendorData(db, id).value;
    var s := GetSupplierData(db, id).value;
    var i :| 0 <= i < |db.users| && db.users[i] == v;
    var j :| 0 <= j < |db.users| && db.users[j] == s;
    assert i != j;
    if i < j {
      assert db.users[i].id == id && db.users[j].id == id;
    } else {
      assert db.users[j].id == id && db.users[i].id == id;
    }
  }

  function BySupplier(sid: string): Product -> bool {
    (p: Product) => p.supplierId == sid
  }

  /** `getSupplierProducts`: exactly the products of this supplier, in store order. */
  function GetSupplierProducts(db: Db, supplierId: string): (r: seq<Product>)
    ensures forall i :: 0 <= i < |r| ==> r[i] in db.products && r[i].supplierId == supplierId
    ensures forall i :: 0 <= i < |db.products| && db.products[i].supplierId == supplierId ==>
                          db.products[i] in r
  {
    Filter(db.products, BySupplier(supplierId))
  }

  /** `getVendorOrders`: exactly the orders placed by this vendor, in store order. */
  function GetVendorOrders(db: Db, vendorId: string): (r: seq<Order>)
    ensures forall i :: 0 <= i < |r| ==> r[i] in db.orders && r[i].vendorId == vendorId
    ensures forall i :: 0 <= i < |db.orders| && db.orders[i].vendorId == vendorId ==>
                          db.orders[i] in r
  {
    Filter(db.orders, (o: Order) => o.vendorId == vendorId)
  }

  /** `getSupplierOrders`: exactly the orders addressed to this supplier, in store order. */
  function GetSupplierOrders(db: Db, supplierId: string): (r: seq<Order>)
    ensures forall i :: 0 <= i < |r| ==> r[i] in db.orders && r[i].supplierId == supplierId
    ensures forall i :: 0 <= i < |db.orders| && db.orders[i].supplierId == supplierId ==>
                          db.orders[i] in r
  {
    Filter(db.orders, (o: Order) => o.supplierId == supplierId)
  }

  // ---------------------------------------------------------------------
  // Appends
  // ---------------------------------------------------------------------

  /** The name recorded for an ordered product id: the name of the first
      product with that id, or "Unknown Product" when there is none (or when
      its name is the empty string, which `||` treats as missing). */
  function ItemName(products: seq<Product>, productId: string): (r: string)
    ensures r != []
    ensures (forall i :: 0 <= i < |products| ==> products[i].id != productId) ==> r == UnknownProduct
    ensures forall i :: 0 <= i < |products| && products[i].id == productId && products[i].name != [] &&
                          (forall j :: 0 <= j < i ==> products[j].id != productId) ==>
                          r == products[i].name
    ensures forall i :: 0 <= i < |products| && products[i].id == productId && products[i].name == [] &&
                          (forall j :: 0 <= j < i ==> products[j].id != productId) ==>
                          r == UnknownProduct
  {
    match FindIndex(products, (p: Product) => p.id == productId)
    case Some(i) => if products[i].name != [] then products[i].name else UnknownProduct
    case None => UnknownProduct
  }

  function OrderItems(products: seq<Product>, items: seq<ItemRequest>): (r: seq<OrderItem>)
    ensures |r| == |items|
    ensures forall k :: 0 <= k < |items| ==>
      r[k] == OrderItem(items[k].productId, ItemName(products, items[k].productId),
                        items[k].quantity, items[k].price)
  {
    seq(|items|, k requires 0 <= k < |items| =>
      OrderItem(items[k].productId, ItemName(products, items[k].productId),
                items[k].quantity, items[k].price))
  }

  /** `createOrder`: appends one "pending" order built from the request.
      `stamp` is the `Date.now()` value in the id and `now` the creation
      time; vendor and supplier details are the fixed demo values. */
  function CreateOrder(db: Db, req: OrderRequest, stamp: string, now: string): (r: (Db, Order))
    ensures r.0.orders == db.orders + [r.1]
    ensures r.0.users == db.users && r.0.products == db.products
    ensures r.1.id == "order-" + stamp && r.1.status == "pending" && r.1.createdAt == now
    ensures r.1.vendorId == req.vendorId && r.1.supplierId == "supplier-1"
    ensures r.1.vendorName == "Rajesh Street Food" && r.1.vendorPhone == "+91 9876543210"
    ensures r.1.supplierName == "Kumar Wholesale"
    ensures r.1.totalAmount == req.totalAmount && r.1.deliveryAddress == req.deliveryAddress
    ensures |r.1.items| == |req.items|
    ensures forall k :: 0 <= k < |req.items| ==>
      r.1.items[k].productId == req.items[k].productId
      && r.1.items[k].quantity == req.items[k].quantity
      && r.1.items[k].price == req.items[k].price
      && r.1.items[k].productName == ItemName(db.products, req.items[k].productId)
    ensures forall k :: 0 <= k < |req.items| &&
                          (forall i :: 0 <= i < |db.products| ==> db.products[i].id != req.items[k].productId) ==>
                          r.1.items[k].productName == UnknownProduct
  {
    var order := Order(
      "order-" + stamp, req.vendorId, "Rajesh Street Food", "+91 9876543210",
      "supplier-1", "Kumar Wholesale", req.totalAmount, "pending", now,
      OrderItems(db.products, req.items), req.deliveryAddress);
    (db.(orders := db.orders + [order]), order)
  }

  /** `addProduct`: appends one product built from the data, with id
      `prod-<stamp>` and the fixed demo supplier name. */
  function AddProduct(db: Db, data: ProductData, stamp: string): (r: (Db, Product))
    ensures r.0.products == db.products + [r.1]
    ensures |r.0.products| == |db.products| + 1
    ensures forall i :: 0 <= i < |db.products| ==> r.0.products[i] == db.products[i]
    ensures r.0.users == db.users && r.0.orders == db.orders
    ensures r.1.id == "prod-" + stamp && r.1.supplierName == "Kumar Wholesale"
    ensures r.1.name == data.name && r.1.price == data.price && r.1.supplierId == data.supplierId
    ensures r.1.stockQuantity == data.stockQuantity && r.1.availability == data.availability
    ensures r.1.unit == data.unit && r.1.category == data.category && r.1.description == data.description
    ensures r.1.minOrderQuantity == data.minOrderQuantity
  {
    var p := Product(
      "prod-" + stamp, data.name, data.price, data.unit, data.category, data.description,
      data.minOrderQuantity, data.availability, data.stockQuantity, data.supplierId,
      "Kumar Wholesale");
    (db.(products := db.products + [p]), p)
  }

  /** A vendor's order list after `createOrder` is the old list with the new
      order at its end. */
  lemma CreateOrderListedForVendor(db: Db, req: OrderRequest, stamp: string, now: string)
    ensures GetVendorOrders(CreateOrder(db, req, stamp, now).0, req.vendorId)
         == GetVendorOrders(db, req.vendorId) + [CreateOrder(db, req, stamp, now).1]
  {
    var (db', o) := CreateOrder(db, req, stamp, now);
    var p := (o: Order) => o.vendorId == req.vendorId;
    FilterConcat(db.orders, [o], p);
  }

  /** A supplier's product list after `addProduct` gains the new product at
      its end when it belongs to that supplier, and is unchanged otherwise. */
  lemma AddProductListedForSupplier(db: Db, data: ProductData, stamp: string, sid: string)
    ensures GetSupplierProducts(AddProduct(db, data, stamp).0, sid)
         == GetSupplierProducts(db, sid)
            + (if data.supplierId == sid then [AddProduct(db, data, stamp).1] else [])
  {
    var (db', p) := AddProduct(db, data, stamp);
    FilterConcat(db.products, [p], BySupplier(sid));
  }

  // ---------------------------------------------------------------------
  // Updates and deletion
  // ---------------------------------------------------------------------

  function Pick<T>(o: Option<T>, old_: T): T {
    if o.Some? then o.value else old_
  }

  /** `{ ...p, ...patch }`: every field present in the patch replaces the
      product's field; absent fields keep their value. */
  function Merge(p: Product, patch: ProductPatch): Product {
    Product(
      Pick(patch.id, p.id), Pick(patch.name, p.name), Pick(patch.price, p.price),
      Pick(patch.unit, p.unit), Pick(patch.category, p.category),
      Pick(patch.description, p.description), Pick(patch.minOrderQuantity, p.minOrderQuantity),
      Pick(patch.availability, p.availability), Pick(patch.stockQuantity, p.stockQuantity),
      Pick(patch.supplierId, p.supplierId), Pick(patch.supplierName, p.supplierName))
  }

  /** Two patches applied in turn: the later one wins field by field. */
  function Then(a: ProductPatch, b: ProductPatch): ProductPatch {
    ProductPatch(
      if b.id.Some? then b.id else a.id,
      if b.name.Some? then b.name else a.name,
      if b.price.Some? then b.price else a.price,
      if b.unit.Some? then b.unit else a.unit,
      if b.category.Some? then b.category else a.category,
      if b.description.Some? then b.description else a.description,
      if b.minOrderQuantity.Some? then b.minOrderQuantity else a.minOrderQuantity,
      if b.availability.Some? then b.availability else a.availability,
      if b.stockQuantity.Some? then b.stockQuantity else a.stockQuantity,
      if b.supplierId.Some? then b.supplierId else a.supplierId,
      if b.supplierName.Some? then b.supplierName else a.supplierName)
  }

  /** The empty patch changes nothing; applying the same patch twice is
      applying it once; successive patches compose. */
  lemma MergeLaws(p: Product, a: ProductPatch, b: ProductPatch)
    ensures Merge(p, NoChange) == p
    ensures Merge(Merge(p, a), a) == Merge(p, a)
    ensures Merge(Merge(p, a), b) == Merge(p, Then(a, b))
  {
  }

  function HasId(id: string): Product -> bool {
    (p: Product) => p.id == id
  }

  /** `updateProduct`: merges the patch into the first product with this id
      and returns it; with no such product the store is left as it was and
      "Product not found" is thrown. */
  function UpdateProduct(db: Db, productId: string, patch: ProductPatch): (r: (Db, Result<Product, string>))
    ensures r.1.Failure? <==> forall i :: 0 <= i < |db.products| ==> db.products[i].id != productId
    ensures r.1.Failure? ==> r.0 == db && r.1.error == ProductNotFound
    ensures r.1.Success? ==> exists i :: 0 <= i < |db.products| && db.products[i].id == productId &&
                                         (forall j :: 0 <= j < i ==> db.products[j].id != productId) &&
                                         r.1.value == Merge(db.products[i], patch) &&
                                         r.0.products == db.products[i := r.1.value]
    ensures |r.0.products| == |db.products|
    ensures r.0.users == db.users && r.0.orders == db.orders
  {
    match FindIndex(db.products, HasId(productId))
    case None => (db, Failure(ProductNotFound))
    case Some(i) =>
      var p := Merge(db.products[i], patch);
      (db.(products := db.products[i := p]), Success(p))
  }

  /** `deleteProduct`: removes the first product with this id, keeping the
      others in order, and returns true; with no such product the store is
      left as it was and "Product not found" is thrown. */
  function DeleteProduct(db: Db, productId: string): (r: (Db, Result<bool, string>))
    ensures r.1.Failure? <==> forall i :: 0 <= i < |db.products| ==> db.products[i].id != productId
    ensures r.1.Failure? ==> r.0 == db && r.1.error == ProductNotFound
    ensures r.1.Success? ==> r.1.value && |r.0.products| == |db.products| - 1
    ensures r.1.Success? ==> exists i :: 0 <= i < |db.products| && db.products[i].id == productId &&
                                         (forall j :: 0 <= j < i ==> db.products[j].id != productId) &&
                                         r.0.products == db.products[..i] + db.products[i + 1..]
    ensures r.0.users == db.users && r.0.orders == db.orders
  {
    match FindIndex(db.products, HasId(productId))
    case None => (db, Failure(ProductNotFound))
    case Some(i) => (db.(products := RemoveAt(db.products, i)), Success(true))
  }

  /** Deleting removes exactly one product with that id: every other
      product keeps its multiplicity. */
  lemma DeleteProductRemovesOne(db: Db, productId: string)
    requires exists i :: 0 <= i < |db.products| && db.products[i].id == productId
    ensures exists p: Product :: p.id == productId &&
                                 multiset(DeleteProduct(db, productId).0.products) + multiset{p} == multiset(db.products)
  {
    var i := FindIndex(db.products, HasId(productId)).value;
    var p := db.products[i];
    assert multiset(RemoveAt(db.products, i)) + multiset{p} == multiset(db.products);
  }

  /** `updateOrderStatus`: sets the status of the first order with this id
      and returns it; with no such order the store is left as it was and
      "Order not found" is thrown. */
  function UpdateOrderStatus(db: Db, orderId: string, status: string): (r: (Db, Result<Order, string>))
    ensures r.1.Failure? <==> forall i :: 0 <= i < |db.orders| ==> db.orders[i].id != orderId
    ensures r.1.Failure? ==> r.0 == db && r.1.error == OrderNotFound
    ensures r.1.Success? ==> exists i :: 0 <= i < |db.orders| && db.orders[i].id == orderId &&
                                         (forall j :: 0 <= j < i ==> db.orders[j].id != orderId) &&
                                         r.1.value == db.orders[i].(status := status) &&
                                         r.0.orders == db.orders[i := r.1.value]
    ensures |r.0.orders| == |db.orders|
    ensures r.0.users == db.users && r.0.products == db.products
  {
    match FindIndex(db.orders, (o: Order) => o.id == orderId)
    case None => (db, Failure(OrderNotFound))
    case Some(i) =>
      var o := db.orders[i].(status := status);
      (db.(orders := db.orders[i := o]), Success(o))
  }

  /** Setting the same status twice leaves the store as setting it once. */
  lemma {:induction false} UpdateOrderStatusIdempotent(db: Db, orderId: string, status: string)
    ensures UpdateOrderStatus(UpdateOrderStatus(db, orderId, status).0, orderId, status).0
         == UpdateOrderStatus(db, orderId, status).0
  {
    var db1 := UpdateOrderStatus(db, orderId, status).0;
    var f := (o: Order) => o.id == orderId;
    match FindIndex(db.orders, f)
    case None =>
    case Some(i) =>
      assert db1.orders == db.orders[i := db.orders[i].(status := status)];
      assert FindIndex(db1.orders, f) == Some(i) by {
        assert f(db1.orders[i]);
        assert forall j :: 0 <= j < i ==> db1.orders[j] == db.orders[j];
      }
  }
}
