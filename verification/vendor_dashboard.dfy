/** The vendor dashboard's local logic: the shopping cart (add-or-increment,
    clamped quantity change with removal at zero, total), the price-string
    parse, the supplier filter and the place-order guard. */
module VendorDashboard {
  import opened Wrappers
  import opened Seqs
  import opened Text
  import opened JsNumber

  /** A product as listed on a supplier card; its price is display text such as "₹1,250". */
  datatype CatalogProduct = CatalogProduct(id: string, name: string, price: string, unit: string)

  datatype CartItem = CartItem(
    productId: string,
    name: string,
    price: Num,
    quantity: int,
    unit: string,
    supplierId: string)

  type Cart = seq<CartItem>

  /** No product appears twice and every quantity is at least one. */
  predicate WellFormed(c: Cart) {
    && (forall i, j :: 0 <= i < j < |c| ==> c[i].productId != c[j].productId)
    && (forall i :: 0 <= i < |c| ==> c[i].quantity >= 1)
  }

  predicate InCart(c: Cart, productId: string) {
    exists i :: 0 <= i < |c| && c[i].productId == productId
  }

  // ---------------------------------------------------------------------
  // Price parsing
  // ---------------------------------------------------------------------

  predicate IsPriceMark(ch: char) {
    ch == '₹' || ch == ','
  }

  /** `price.replace(/[₹,]/g, "")`. */
  function StripPriceMarks(s: string): (r: string)
    ensures forall i :: 0 <= i < |r| ==> !IsPriceMark(r[i])
    ensures |r| <= |s|
    ensures |s| == 1 ==> r == if IsPriceMark(s[0]) then [] else s
  {
    if s == [] then []
    else if IsPriceMark(s[0]) then StripPriceMarks(s[1..])
    else [s[0]] + StripPriceMarks(s[1..])
  }

  /** `Number.parseInt(price.replace(/[₹,]/g, ""))`. */
  function ParsePrice(s: string): Num {
    ParseInt(StripPriceMarks(s))
  }

  /** Stripping the marks keeps every other character in order. */
  lemma {:induction false} StripPriceMarksConcat(a: string, b: string)
    ensures StripPriceMarks(a + b) == StripPriceMarks(a) + StripPriceMarks(b)
  {
    if a == [] {
      assert a + b == b;
    } else {
      assert (a + b)[1..] == a[1..] + b;
      StripPriceMarksConcat(a[1..], b);
    }
  }

  /** A rupee sign and thousands separators are ignored: "₹1,250" is 1250. */
  lemma ParsePriceExample()
    ensures ParsePrice("₹1,250") == Int(1250)
  {
    StripPriceExample();
    ParseIntDigits("1250");
    DigitsValueExample();
  }

  lemma StripPriceExample()
    ensures StripPriceMarks("₹1,250") == "1250"
  {
    var digits := "250";
    StripNoMarks(digits);
    assert "₹1,250" == ['₹', '1', ','] + digits;
    StripPriceMarksConcat(['₹', '1', ','], digits);
    assert StripPriceMarks(['₹', '1', ',']) == ['1'];
  }

  lemma DigitsValueExample()
    ensures AllDigits("1250") && DigitsValue("1250") == 1250
  {
    assert "1250"[..3] == "125";
    assert "125"[..2] == "12";
    assert "12"[..1] == "1";
    assert "1"[..0] == "";
    assert DigitsValue("1") == 1;
    assert DigitsValue("12") == 12;
    assert DigitsValue("125") == 125;
  }

  /** Any digit string decorated with a leading rupee sign parses to its value. */
  lemma ParsePriceOfRendered(n: nat)
    ensures ParsePrice("₹" + NatToString(n)) == Int(n)
  {
    var s := NatToString(n);
    StripPriceMarksConcat("₹", s);
    assert StripPriceMarks("₹") == [];
    StripNoMarks(s);
    assert "₹" + s == ['₹'] + s;
    ParseIntOfString(n);
  }

  lemma {:induction false} StripNoMarks(s: string)
    requires AllDigits(s)
    ensures StripPriceMarks(s) == s
  {
    if s != [] {
      StripNoMarks(s[1..]);
    }
  }

  // ---------------------------------------------------------------------
  // Cart operations
  // ---------------------------------------------------------------------

  /** Every item carrying this product id gets one more unit. */
  function IncrementAll(c: Cart, productId: string): (r: Cart)
    ensures |r| == |c|
    ensures forall i :: 0 <= i < |c| ==> r[i].productId == c[i].productId
    ensures forall i :: 0 <= i < |c| && c[i].productId == productId ==>
                          r[i] == c[i].(quantity := c[i].quantity + 1)
    ensures forall i :: 0 <= i < |c| && c[i].productId != productId ==> r[i] == c[i]
  {
    seq(|c|, i requires 0 <= i < |c| =>
      if c[i].productId == productId then c[i].(quantity := c[i].quantity + 1) else c[i])
  }

  function NewItem(product: CatalogProduct, supplierId: string): CartItem {
    CartItem(product.id, product.name, ParsePrice(product.price), 1, product.unit, supplierId)
  }

  /** `addToCart`: a product already in the cart gets one more unit; a new
      product is appended with quantity one. */
  function AddToCart(c: Cart, product: CatalogProduct, supplierId: string): (r: Cart)
    ensures InCart(c, product.id) ==> |r| == |c|
    ensures !InCart(c, product.id) ==> r == c + [NewItem(product, supplierId)]
  {
    if InCart(c, product.id) then IncrementAll(c, product.id)
    else c + [NewItem(product, supplierId)]
  }

  /** Adding keeps product ids unique and quantities positive. */
  lemma AddToCartWellFormed(c: Cart, product: CatalogProduct, supplierId: string)
    requires WellFormed(c)
    ensures WellFormed(AddToCart(c, product, supplierId))
  {
    if InCart(c, product.id) {
      IncrementWellFormed(c, product.id);
    } else {
      AppendWellFormed(c, NewItem(product, supplierId));
    }
  }

  lemma IncrementWellFormed(c: Cart, productId: string)
    requires WellFormed(c)
    ensures WellFormed(IncrementAll(c, productId))
  {
    var r := IncrementAll(c, productId);
    forall i | 0 <= i < |r|
      ensures r[i].productId == c[i].productId && r[i].quantity >= c[i].quantity
    {
    }
  }

  lemma AppendWellFormed(c: Cart, x: CartItem)
    requires WellFormed(c) && !InCart(c, x.productId) && x.quantity >= 1
    ensures WellFormed(c + [x])
  {
    var r := c + [x];
    forall i, j | 0 <= i < j < |r|
      ensures r[i].productId != r[j].productId
    {
      if j == |c| {
        assert r[i] == c[i];
      }
    }
  }

  /** In a well-formed cart, adding a product already present raises that
      one item's quantity by one and leaves every other item as it was. */
  lemma AddExisting(c: Cart, i: nat, product: CatalogProduct, supplierId: string)
    requires WellFormed(c)
    requires i < |c| && c[i].productId == product.id
    ensures AddToCart(c, product, supplierId) == c[i := c[i].(quantity := c[i].quantity + 1)]
  {
    var r := AddToCart(c, product, supplierId);
    var e := c[i := c[i].(quantity := c[i].quantity + 1)];
    assert InCart(c, product.id);
    assert r == IncrementAll(c, product.id);
    assert |r| == |e|;
    forall j | 0 <= j < |r|
      ensures r[j] == e[j]
    {
      if j != i {
        assert c[j].productId != product.id;
      }
    }
  }

  /** Clamped quantity change: `max(0, q + change)`, dropping the item at zero. */
  function UpdateCartQuantity(c: Cart, productId: string, change: int): (r: Cart)
    ensures |r| <= |c|
    ensures forall i :: 0 <= i < |r| ==> InCart(c, r[i].productId)
    ensures WellFormed(c) ==> WellFormed(r)
    ensures !InCart(c, productId) ==> r == c
  {
    if c == [] then []
    else
      var rest := UpdateCartQuantity(c[1..], productId, change);
      var q := if c[0].quantity + change > 0 then c[0].quantity + change else 0;
      var r :=
        if c[0].productId != productId then [c[0]] + rest
        else if q == 0 then rest
        else [c[0].(quantity := q)] + rest;
      UpdateStep(c, productId, rest, r);
      r
  }

  /** One step of `UpdateCartQuantity`: the head is kept, dropped or given a
      new positive quantity in front of the updated tail `rest`. */
  lemma UpdateStep(c: Cart, productId: string, rest: Cart, r: Cart)
    requires c != []
    requires |rest| <= |c| - 1
    requires forall i :: 0 <= i < |rest| ==> InCart(c[1..], rest[i].productId)
    requires WellFormed(c[1..]) ==> WellFormed(rest)
    requires !InCart(c[1..], productId) ==> rest == c[1..]
    requires c[0].productId != productId ==> r == [c[0]] + rest
    requires c[0].productId == productId ==>
      r == rest || (r != [] && r == [r[0]] + rest && r[0].productId == productId && r[0].quantity >= 1)
    ensures |r| <= |c|
    ensures forall i :: 0 <= i < |r| ==> InCart(c, r[i].productId)
    ensures WellFormed(c) ==> WellFormed(r)
    ensures !InCart(c, productId) ==> r == c
  {
    assert forall i :: 0 <= i < |rest| ==> InCart(c, rest[i].productId) by {
      forall i | 0 <= i < |rest|
        ensures InCart(c, rest[i].productId)
      {
        var k :| 0 <= k < |c[1..]| && c[1..][k].productId == rest[i].productId;
        assert c[k + 1].productId == rest[i].productId;
      }
    }
    assert forall i :: 0 <= i < |r| ==> InCart(c, r[i].productId) by {
      forall i | 0 <= i < |r|
        ensures InCart(c, r[i].productId)
      {
        if r != rest {
          if i == 0 {
            assert r[0].productId == c[0].productId;
          } else {
            assert r[i] == rest[i - 1];
          }
        }
      }
    }
    assert !InCart(c, productId) ==> r == c by {
      if !InCart(c, productId) {
        assert c[0].productId != productId;
        assert !InCart(c[1..], productId) by {
          forall k | 0 <= k < |c[1..]|
            ensures c[1..][k].productId != productId
          {
            assert c[1..][k] == c[k + 1];
          }
        }
        assert [c[0]] + c[1..] == c;
      }
    }
    assert WellFormed(c) ==> WellFormed(r) by {
      if WellFormed(c) {
        TailWellFormed(c);
        if r != rest {
          ConsWellFormed(c[1..], rest, r[0]);
        }
      }
    }
  }

  /** The tail of a well-formed cart is well formed and lacks the head's id. */
  lemma TailWellFormed(c: Cart)
    requires WellFormed(c) && c != []
    ensures WellFormed(c[1..]) && !InCart(c[1..], c[0].productId)
  {
    forall k | 0 <= k < |c[1..]|
      ensures c[1..][k].productId != c[0].productId
    {
      assert c[1..][k] == c[k + 1];
    }
  }

  /** Putting an item in front of a well-formed cart drawn from `t` keeps it
      well formed when `t` lacks the item's id. */
  lemma ConsWellFormed(t: Cart, rest: Cart, x: CartItem)
    requires WellFormed(rest) && x.quantity >= 1 && !InCart(t, x.productId)
    requires forall i :: 0 <= i < |rest| ==> InCart(t, rest[i].productId)
    ensures WellFormed([x] + rest)
  {
    var r := [x] + rest;
    forall i, j | 0 <= i < j < |r|
      ensures r[i].productId != r[j].productId
    {
      if i == 0 {
        assert r[j] == rest[j - 1];
      } else {
        assert r[i] == rest[i - 1] && r[j] == rest[j - 1];
      }
    }
  }

  /** The item at the front is the only one carrying its id. */
  lemma UpdateAtHead(c: Cart, change: int)
    requires WellFormed(c) && c != []
    ensures c[0].quantity + change > 0 ==>
      UpdateCartQuantity(c, c[0].productId, change) == [c[0].(quantity := c[0].quantity + change)] + c[1..]
    ensures c[0].quantity + change <= 0 ==>
      UpdateCartQuantity(c, c[0].productId, change) == c[1..]
  {
    var pid := c[0].productId;
    assert !InCart(c[1..], pid) by {
      forall k | 0 <= k < |c[1..]|
        ensures c[1..][k].productId != pid
      {
        assert c[k + 1].productId != c[0].productId;
      }
    }
    assert UpdateCartQuantity(c[1..], pid, change) == c[1..];
  }

  /** An item with another id at the front is kept as it is. */
  lemma UpdatePastHead(c: Cart, productId: string, change: int)
    requires c != [] && c[0].productId != productId
    ensures UpdateCartQuantity(c, productId, change) == [c[0]] + UpdateCartQuantity(c[1..], productId, change)
  {
  }

  /** In a well-formed cart, a change that leaves the item at `i` positive
      rewrites that item alone. */
  lemma {:induction false} UpdateCartQuantityKeeps(c: Cart, i: nat, change: int)
    requires WellFormed(c)
    requires i < |c| && c[i].quantity + change > 0
    ensures UpdateCartQuantity(c, c[i].productId, change) == c[i := c[i].(quantity := c[i].quantity + change)]
  {
    var x := c[i].(quantity := c[i].quantity + change);
    if i == 0 {
      assert UpdateCartQuantity(c, c[0].productId, change) == [x] + c[1..] by {
        UpdateAtHead(c, change);
      }
      assert c[0 := x] == [x] + c[1..];
    } else {
      var t, pid := c[1..], c[i].productId;
      assert t[i - 1] == c[i];
      assert UpdateCartQuantity(c, pid, change) == [c[0]] + UpdateCartQuantity(t, pid, change) by {
        UpdatePastHead(c, pid, change);
      }
      assert UpdateCartQuantity(t, pid, change) == t[i - 1 := x] by {
        TailWellFormed(c);
        UpdateCartQuantityKeeps(t, i - 1, change);
      }
      UpdateShift(c, i, x);
    }
  }

  /** Replacing an element past the head is replacing it in the tail. */
  lemma UpdateShift<T>(s: seq<T>, i: nat, x: T)
    requires 0 < i < |s|
    ensures s[i := x] == [s[0]] + s[1..][i - 1 := x]
  {
    var lhs, rhs := s[i := x], [s[0]] + s[1..][i - 1 := x];
    forall k | 0 <= k < |lhs|
      ensures lhs[k] == rhs[k]
    {
      if k > 0 {
        assert rhs[k] == s[1..][i - 1 := x][k - 1];
      }
    }
  }

  /** In a well-formed cart, a change that brings the item at `i` to zero
      or below removes it, keeping the other items in order. */
  lemma {:induction false} UpdateCartQuantityRemoves(c: Cart, i: nat, change: int)
    requires WellFormed(c)
    requires i < |c| && c[i].quantity + change <= 0
    ensures UpdateCartQuantity(c, c[i].productId, change) == c[..i] + c[i + 1..]
  {
    if i == 0 {
      UpdateAtHead(c, change);
      assert c[..0] + c[1..] == c[1..];
    } else {
      var t, pid := c[1..], c[i].productId;
      assert t[i - 1] == c[i];
      assert UpdateCartQuantity(c, pid, change) == [c[0]] + UpdateCartQuantity(t, pid, change) by {
        UpdatePastHead(c, pid, change);
      }
      assert UpdateCartQuantity(t, pid, change) == t[..i - 1] + t[i..] by {
        TailWellFormed(c);
        UpdateCartQuantityRemoves(t, i - 1, change);
      }
      DropShift(c, i);
    }
  }

  /** Dropping an element past the head is dropping it from the tail. */
  lemma DropShift<T>(s: seq<T>, i: nat)
    requires 0 < i < |s|
    ensures s[..i] + s[i + 1..] == [s[0]] + (s[1..][..i - 1] + s[1..][i..])
  {
    assert s[..i] == [s[0]] + s[1..][..i - 1];
    assert s[i + 1..] == s[1..][i..];
  }

  // ---------------------------------------------------------------------
  // Reachable carts
  // ---------------------------------------------------------------------

  /** What the cart buttons do: "Add to Cart" on a supplier's product, and
      the minus/plus buttons on a cart line. */
  datatype CartAction =
    | Add(product: CatalogProduct, supplierId: string)
    | Change(productId: string, delta: int)

  function Apply(c: Cart, a: CartAction): Cart {
    match a
    case Add(p, s) => AddToCart(c, p, s)
    case Change(pid, d) => UpdateCartQuantity(c, pid, d)
  }

  function ApplyAll(c: Cart, actions: seq<CartAction>): Cart
    decreases |actions|
  {
    if actions == [] then c else ApplyAll(Apply(c, actions[0]), actions[1..])
  }

  /** Every cart the dashboard can reach from the empty cart has unique
      product ids and positive quantities. */
  lemma {:induction false} ReachableCartsWellFormed(c: Cart, actions: seq<CartAction>)
    requires WellFormed(c)
    ensures WellFormed(ApplyAll(c, actions))
    decreases |actions|
  {
    if actions != [] {
      var next := Apply(c, actions[0]);
      assert WellFormed(next) by {
        if actions[0].Add? {
          AddToCartWellFormed(c, actions[0].product, actions[0].supplierId);
        }
      }
      ReachableCartsWellFormed(next, actions[1..]);
    }
  }

  // ---------------------------------------------------------------------
  // Total
  // ---------------------------------------------------------------------

  function LineTotal(item: CartItem): Num {
    item.price.Times(Int(item.quantity))
  }

  /** `cart.reduce((sum, item) => sum + item.price * item.quantity, 0)`. */
  function CartTotal(c: Cart): Num {
    if c == [] then Int(0) else CartTotal(c[..|c| - 1]).Plus(LineTotal(c[|c| - 1]))
  }

  /** The total is a number exactly when every line's parsed price is one
      (a single `NaN` price makes the whole total `NaN`). */
  lemma {:induction false} CartTotalDefined(c: Cart)
    ensures CartTotal(c).Int? <==> forall i :: 0 <= i < |c| ==> c[i].price.Int?
  {
    if c != [] {
      var init := c[..|c| - 1];
      CartTotalDefined(init);
      assert forall i :: 0 <= i < |init| ==> init[i] == c[i];
    }
  }

  /** Replacing one line changes the total by the difference of the two lines. */
  lemma {:induction false} CartTotalUpdate(c: Cart, i: nat, x: CartItem, t: int)
    requires i < |c|
    requires CartTotal(c) == Int(t) && c[i].price.Int? && x.price.Int?
    ensures CartTotal(c[i := x]) == Int(t - LineTotal(c[i]).value + LineTotal(x).value)
  {
    var c' := c[i := x];
    var init := c[..|c| - 1];
    if i == |c| - 1 {
      assert c'[..|c'| - 1] == init;
    } else {
      assert c'[..|c'| - 1] == init[i := x];
      assert CartTotal(init).Int?;
      CartTotalUpdate(init, i, x, CartTotal(init).value);
    }
  }

  /** Adding a product already in the cart raises the total by that item's price. */
  lemma AddExistingRaisesTotal(c: Cart, i: nat, product: CatalogProduct, supplierId: string, t: int)
    requires WellFormed(c)
    requires i < |c| && c[i].productId == product.id
    requires CartTotal(c) == Int(t) && c[i].price.Int?
    ensures CartTotal(AddToCart(c, product, supplierId)) == Int(t + c[i].price.value)
  {
    AddExisting(c, i, product, supplierId);
    OneMoreRaisesTotal(c, i, t);
  }

  /** One more unit of line `i` raises the total by that line's price. */
  lemma OneMoreRaisesTotal(c: Cart, i: nat, t: int)
    requires i < |c| && CartTotal(c) == Int(t) && c[i].price.Int?
    ensures CartTotal(c[i := c[i].(quantity := c[i].quantity + 1)]) == Int(t + c[i].price.value)
  {
    CartTotalUpdate(c, i, c[i].(quantity := c[i].quantity + 1), t);
    LineTotalSucc(c[i]);
  }

  lemma LineTotalSucc(item: CartItem)
    requires item.price.Int?
    ensures LineTotal(item.(quantity := item.quantity + 1)).value == LineTotal(item).value + item.price.value
  {
    var p, q := item.price.value, item.quantity;
    assert p * (q + 1) == p * q + p;
  }

  /** Adding a new product raises the total by its parsed price (one unit). */
  lemma AddNewRaisesTotal(c: Cart, product: CatalogProduct, supplierId: string)
    requires !InCart(c, product.id)
    ensures CartTotal(AddToCart(c, product, supplierId))
         == CartTotal(c).Plus(ParsePrice(product.price).Times(Int(1)))
  {
    var r := c + [NewItem(product, supplierId)];
    assert r[..|r| - 1] == c;
  }

  // ---------------------------------------------------------------------
  // Supplier filter
  // ---------------------------------------------------------------------

  /** A supplier card as the dashboard lists it. */
  datatype SupplierCard = SupplierCard(id: string, name: string, category: string, products: seq<CatalogProduct>)

  predicate MatchesQuery(s: SupplierCard, query: string) {
    || query == ""
    || Includes(Lower(s.name), Lower(query))
    || exists k :: 0 <= k < |s.products| && Includes(Lower(s.products[k].name), Lower(query))
  }

  /** The category test compares the lower-cased supplier category with the
      selected category id as it stands (ids are lower-case in the source). */
  predicate Passes(s: SupplierCard, selectedCategory: string, query: string) {
    (selectedCategory == "all" || Lower(s.category) == selectedCategory) && MatchesQuery(s, query)
  }

  /** `filteredSuppliers`: exactly the passing suppliers, in their original order. */
  function FilterSuppliers(suppliers: seq<SupplierCard>, selectedCategory: string, query: string): (r: seq<SupplierCard>)
    ensures forall i :: 0 <= i < |r| ==> r[i] in suppliers && Passes(r[i], selectedCategory, query)
    ensures forall i :: 0 <= i < |suppliers| && Passes(suppliers[i], selectedCategory, query) ==>
                          suppliers[i] in r
  {
    Filter(suppliers, (s: SupplierCard) => Passes(s, selectedCategory, query))
  }

  /** The filter read as occurrences: a supplier passes iff its category
      matches (or "all" is selected) and the lower-cased query occurs in its
      lower-cased name or in some lower-cased product name (or is empty). */
  lemma PassesIff(s: SupplierCard, selectedCategory: string, query: string)
    ensures Passes(s, selectedCategory, query) <==>
      (selectedCategory == "all" || Lower(s.category) == selectedCategory) &&
      (|| query == []
       || (exists i :: OccursAt(Lower(s.name), Lower(query), i))
       || (exists k, i :: 0 <= k < |s.products| && OccursAt(Lower(s.products[k].name), Lower(query), i)))
  {
    IncludesIff(Lower(s.name), Lower(query));
    forall k | 0 <= k < |s.products|
      ensures Includes(Lower(s.products[k].name), Lower(query)) <==>
              exists i :: OccursAt(Lower(s.products[k].name), Lower(query), i)
    {
      IncludesIff(Lower(s.products[k].name), Lower(query));
    }
  }

  /** With "all" selected and an empty query every supplier is shown. */
  lemma NoFilterShowsAll(suppliers: seq<SupplierCard>)
    ensures FilterSuppliers(suppliers, "all", "") == suppliers
  {
    FilterAll(suppliers, (s: SupplierCard) => Passes(s, "all", ""));
  }

  // ---------------------------------------------------------------------
  // Placing an order
  // ---------------------------------------------------------------------

  datatype DraftItem = DraftItem(productId: string, quantity: int, price: Num)

  /** The request `handlePlaceOrder` builds from the cart. */
  datatype OrderDraft = OrderDraft(
    vendorId: string,
    supplierId: string,
    items: seq<DraftItem>,
    deliveryAddress: string,
    notes: string)

  /** `handlePlaceOrder`: an empty cart is refused with no request made; any
      other cart becomes one request addressed to the first item's supplier.
      `placed` is the remote outcome; only a success empties the cart. */
  function HandlePlaceOrder(c: Cart, vendorId: string, deliveryAddress: string, placed: bool): (r: (Cart, Option<OrderDraft>))
    ensures c == [] ==> r.1.None? && r.0 == c
    ensures c != [] ==> r.1.Some?
    ensures r.1.Some? ==> r.1.value.supplierId == c[0].supplierId && r.1.value.vendorId == vendorId
    ensures r.1.Some? ==> r.1.value.deliveryAddress == deliveryAddress && r.1.value.notes == ""
    ensures r.1.Some? ==> |r.1.value.items| == |c| &&
                          forall k :: 0 <= k < |c| ==>
                            r.1.value.items[k] == DraftItem(c[k].productId, c[k].quantity, c[k].price)
    ensures r.0 == (if c != [] && placed then [] else c)
  {
    if c == [] then (c, None)
    else
      var items := seq(|c|, k requires 0 <= k < |c| => DraftItem(c[k].productId, c[k].quantity, c[k].price));
      var draft := OrderDraft(vendorId, c[0].supplierId, items, deliveryAddress, "");
      (if placed then [] else c, Some(draft))
  }

  /** The amount an order request is worth, summed over its items in the same
      order and with the same arithmetic as `CartTotal`. */
  function DraftTotal(items: seq<DraftItem>): Num {
    if items == [] then Int(0)
    else DraftTotal(items[..|items| - 1]).Plus(items[|items| - 1].price.Times(Int(items[|items| - 1].quantity)))
  }

  /** Items copied line by line from a cart are worth the cart's total. */
  lemma {:induction false} DraftTotalOfCopy(c: Cart, items: seq<DraftItem>)
    requires |items| == |c|
    requires forall k :: 0 <= k < |c| ==> items[k] == DraftItem(c[k].productId, c[k].quantity, c[k].price)
    ensures DraftTotal(items) == CartTotal(c)
    decreases |c|
  {
    if c != [] {
      var n := |c| - 1;
      DraftTotalOfCopy(c[..n], items[..n]);
    }
  }

  /** What is ordered is what the cart showed: the request's items add up to
      the cart total displayed next to the button. */
  lemma OrderedIsTotalShown(c: Cart, vendorId: string, deliveryAddress: string, placed: bool)
    requires c != []
    ensures var r := HandlePlaceOrder(c, vendorId, deliveryAddress, placed);
            r.1.Some? && DraftTotal(r.1.value.items) == CartTotal(c)
  {
    var r := HandlePlaceOrder(c, vendorId, deliveryAddress, placed);
    DraftTotalOfCopy(c, r.1.value.items);
  }

  /** A placed order empties the cart, so pressing the button again sends no
      second request and leaves the cart empty. */
  lemma PlaceOrderOnce(c: Cart, vendorId: string, deliveryAddress: string, placedAgain: bool)
    requires c != []
    ensures var first := HandlePlaceOrder(c, vendorId, deliveryAddress, true);
            first.1.Some? && HandlePlaceOrder(first.0, vendorId, deliveryAddress, placedAgain) == ([], None)
  {
  }
}
