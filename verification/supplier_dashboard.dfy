/** The supplier dashboard's local logic: validating and submitting the
    add-product form, the order-status buttons, and the status badge colour
    and icon. */
module SupplierDashboard {
  import opened Wrappers
  import opened JsNumber
  import Toast

  /** The add-product form; every field holds the text typed into it. */
  datatype ProductForm = ProductForm(
    name: string,
    category: string,
    price: string,
    stock: string,
    unit: string,
    description: string,
    minOrderQuantity: string)

  /** The form as first shown and as reset after a successful add. */
  const EmptyForm: ProductForm := ProductForm("", "", "", "", "kg", "", "1")

  /** The record sent to the store. The price stays the typed text, since
      its floating-point parse is not modelled. */
  datatype ProductRecord = ProductRecord(
    supplierId: string,
    name: string,
    category: string,
    priceText: string,
    unit: string,
    stockQuantity: Num,
    minOrderQuantity: Num,
    description: string,
    isActive: bool)

  /** The form passes the required-fields check: name, price and stock are
      all non-empty. */
  predicate Complete(form: ProductForm) {
    form.name != "" && form.price != "" && form.stock != ""
  }

  function BuildRecord(form: ProductForm, profileId: string): (r: ProductRecord)
    ensures r.isActive && r.supplierId == profileId
    ensures r.name == form.name && r.category == form.category && r.unit == form.unit
    ensures r.stockQuantity == ParseInt(form.stock) && r.minOrderQuantity == ParseInt(form.minOrderQuantity)
    ensures r.description == form.description && r.priceText == form.price
  {
    ProductRecord(profileId, form.name, form.category, form.price, form.unit,
                  ParseInt(form.stock), ParseInt(form.minOrderQuantity), form.description, true)
  }

  /** What `handleAddProduct` did: the form afterwards, the record it sent
      (if it sent one) and the toast it showed (if any). */
  datatype AddOutcome = AddOutcome(form: ProductForm, sent: Option<ProductRecord>, toast: Option<Toast.ToastProps>)

  const MissingInfoToast: Toast.ToastProps :=
    Toast.ToastProps(Some("Missing information"), Some("Please fill in all required fields"), Some(Toast.Destructive))

  const AddedToast: Toast.ToastProps :=
    Toast.ToastProps(Some("Product added"), Some("New product has been added successfully"), Some(Toast.SuccessVariant))

  /** `handleAddProduct`; `added` is whether the store reported success. */
  function HandleAddProduct(form: ProductForm, profileId: string, added: bool): (r: AddOutcome)
    ensures !Complete(form) ==> r == AddOutcome(form, None, Some(MissingInfoToast))
    ensures Complete(form) ==> r.sent == Some(BuildRecord(form, profileId))
    ensures Complete(form) && added ==> r.form == EmptyForm && r.toast == Some(AddedToast)
    ensures Complete(form) && !added ==> r.form == form && r.toast.None?
  {
    if !Complete(form) then AddOutcome(form, None, Some(MissingInfoToast))
    else
      var record := BuildRecord(form, profileId);
      if added then AddOutcome(EmptyForm, Some(record), Some(AddedToast))
      else AddOutcome(form, Some(record), None)
  }

  /** Every record the form sends is active and belongs to the signed-in
      supplier, with name, price and stock filled in. */
  lemma SentRecordsAreActive(form: ProductForm, profileId: string, added: bool)
    requires HandleAddProduct(form, profileId, added).sent.Some?
    ensures var rec := HandleAddProduct(form, profileId, added).sent.value;
            rec.isActive && rec.supplierId == profileId && rec.name != "" && rec.priceText != ""
  {
  }

  /** After a reset the form fails the check again until it is refilled, and
      its minimum order quantity parses to 1. */
  lemma ResetFormNeedsRefill()
    ensures !Complete(EmptyForm)
    ensures ParseInt(EmptyForm.minOrderQuantity) == Int(1)
  {
    Text.NatToStringValue(1);
    assert Text.NatToString(1) == "1";
    ParseIntOfString(1);
  }

  // ---------------------------------------------------------------------
  // Order status
  // ---------------------------------------------------------------------

  /** Where an order row is shown: the overview lists only "Process", the
      orders tab lists "Process Order" and "Mark Delivered". */
  datatype View = Overview | OrdersTab

  /** The status the row's button moves an order to, if it shows one. */
  function NextStatus(status: string, view: View): (r: Option<string>)
    ensures status == "confirmed" ==> r == Some("processing")
    ensures status == "processing" && view == OrdersTab ==> r == Some("delivered")
    ensures status != "confirmed" && (status != "processing" || view == Overview) ==> r.None?
  {
    if status == "confirmed" then Some("processing")
    else if status == "processing" && view == OrdersTab then Some("delivered")
    else None
  }

  /** Following the orders tab's buttons from a status `n` times. */
  function Advance(status: string, n: nat): string
    decreases n
  {
    if n == 0 then status
    else match NextStatus(status, OrdersTab)
      case None => status
      case Some(next) => Advance(next, n - 1)
  }

  /** The buttons lead confirmed → processing → delivered and stop there;
      every status reaches a status with no button in at most two clicks. */
  lemma ProgressionEnds(status: string, n: nat)
    requires n >= 2
    ensures NextStatus(Advance(status, n), OrdersTab).None?
    ensures status == "confirmed" ==> Advance(status, n) == "delivered"
  {
    var p: string := "processing";
    var d: string := "delivered";
    var c: string := "confirmed";
    assert d != c && d != p && p != c by {
      assert d[0] != c[0] && d[0] != p[0] && p[0] != c[0];
    }
    assert NextStatus(d, OrdersTab).None?;
    if status == c {
      assert Advance(c, n) == Advance(p, n - 1);
      assert Advance(p, n - 1) == Advance(d, n - 2);
    } else if status == p {
      assert Advance(p, n) == Advance(d, n - 1);
    }
  }

  /** A status never offers a move to itself. */
  lemma NoSelfTransition(status: string, view: View)
    ensures NextStatus(status, view) != Some(status)
  {
    assert "processing"[0] != "confirmed"[0] && "delivered"[0] != "processing"[0];
  }

  /** The overview offers a subset of what the orders tab offers. */
  lemma OverviewOffersLess(status: string)
    ensures NextStatus(status, Overview).Some? ==> NextStatus(status, Overview) == NextStatus(status, OrdersTab)
  {
  }

  /** The icons of the status badge. */
  datatype StatusIcon = CheckCircle | Clock | Truck | AlertCircle

  /** `getStatusColor`. */
  function StatusColor(status: string): string {
    if status == "confirmed" then "bg-blue-100 text-blue-700"
    else if status == "processing" then "bg-yellow-100 text-yellow-700"
    else if status == "delivered" then "bg-green-100 text-green-700"
    else "bg-gray-100 text-gray-700"
  }

  /** `getStatusIcon`. */
  function IconFor(status: string): StatusIcon {
    if status == "confirmed" then CheckCircle
    else if status == "processing" then Clock
    else if status == "delivered" then Truck
    else AlertCircle
  }

  predicate KnownStatus(status: string) {
    status == "confirmed" || status == "processing" || status == "delivered"
  }

  /** Colour and icon tell the same story: two statuses get the same colour
      exactly when they get the same icon, every unknown status gets the
      grey default and the alert icon, and the three known statuses get
      three different badges. */
  lemma BadgeAgrees(a: string, b: string)
    ensures StatusColor(a) == StatusColor(b) <==> IconFor(a) == IconFor(b)
    ensures !KnownStatus(a) <==> StatusColor(a) == "bg-gray-100 text-gray-700"
    ensures !KnownStatus(a) <==> IconFor(a) == AlertCircle
    ensures KnownStatus(a) && KnownStatus(b) ==> (StatusColor(a) == StatusColor(b) <==> a == b)
  {
    var blue: string, yellow: string, green: string, grey: string :=
      "bg-blue-100 text-blue-700", "bg-yellow-100 text-yellow-700", "bg-green-100 text-green-700", "bg-gray-100 text-gray-700";
    assert blue[3] != yellow[3] && blue[3] != green[3] && blue[3] != grey[3];
    assert yellow[3] != green[3] && yellow[3] != grey[3] && green[5] != grey[5];
  }
}
