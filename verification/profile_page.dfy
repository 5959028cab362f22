/** The profile page's edit cycle: loading picks the sub-profile matching the
    user type into an edit buffer, edits change one buffer field at a time,
    cancel restores the buffer, save replaces the matching sub-profile; and
    the categories field shown joined by ", " and read back split on ", ". */
module ProfilePage {
  import opened Wrappers
  import opened Text

  /** A value of the edit buffer: text from an input, or a list of strings. */
  datatype Field = TextValue(text: string) | ListValue(items: seq<string>)

  type Record = map<string, Field>

  /** The profile as loaded, with its two optional sub-profiles. */
  datatype Profile = Profile(
    id: string,
    userType: string,
    vendorProfiles: Option<Record>,
    supplierProfiles: Option<Record>)

  datatype PageState = PageState(
    profile: Option<Profile>,
    isEditing: bool,
    isLoading: bool,
    isSaving: bool,
    editData: Option<Record>)

  /** Before loading: no profile, loading, and an empty buffer. */
  const Initial: PageState := PageState(None, false, true, false, Some(map[]))

  /** The sub-profile the page edits: the vendor one for vendors, the
      supplier one for every other user type. */
  function SelectSub(p: Profile): (r: Option<Record>)
    ensures p.userType == "vendor" ==> r == p.vendorProfiles
    ensures p.userType != "vendor" ==> r == p.supplierProfiles
  {
    if p.userType == "vendor" then p.vendorProfiles else p.supplierProfiles
  }

  /** `loadProfile`, given what `getCurrentUserProfile` returned. */
  function LoadProfile(s: PageState, fetched: Option<Profile>): (r: PageState)
    ensures !r.isLoading
    ensures fetched.Some? ==> r.profile == fetched && r.editData == SelectSub(fetched.value)
    ensures r.isEditing == s.isEditing && r.isSaving == s.isSaving
    ensures fetched.None? ==> r == s.(isLoading := false)
  {
    var loading := s.(isLoading := true);
    var loaded :=
      match fetched
      case Some(p) => loading.(profile := Some(p), editData := SelectSub(p))
      case None => loading;
    loaded.(isLoading := false)
  }

  function HandleEdit(s: PageState): PageState {
    s.(isEditing := true)
  }

  /** `handleCancel`: leave edit mode and put the stored sub-profile back in
      the buffer. The button exists only once a profile is shown. */
  function HandleCancel(s: PageState): (r: PageState)
    requires s.profile.Some?
    ensures !r.isEditing && r.editData == SelectSub(s.profile.value)
    ensures r.profile == s.profile && r.isSaving == s.isSaving && r.isLoading == s.isLoading
  {
    s.(isEditing := false, editData := SelectSub(s.profile.value))
  }

  /** `handleInputChange(field, value)`: spreading an absent buffer gives an
      empty one, so the result always holds the field. */
  function SetField(buffer: Option<Record>, field: string, value: Field): (r: Record)
    ensures field in r && r[field] == value
    ensures buffer.Some? ==> forall k :: k in buffer.value && k != field ==> k in r && r[k] == buffer.value[k]
    ensures forall k :: k in r && k != field ==> buffer.Some? && k in buffer.value
  {
    var prev := match buffer case Some(b) => b case None => map[];
    prev[field := value]
  }

  function HandleInputChange(s: PageState, field: string, value: Field): PageState {
    s.(editData := Some(SetField(s.editData, field, value)))
  }

  /** Any run of field edits followed by cancel leaves the buffer exactly as
      loading made it. */
  lemma {:induction false} CancelDiscardsEdits(s: PageState, edits: seq<(string, Field)>)
    requires s.profile.Some?
    ensures HandleCancel(ApplyEdits(s, edits)).editData == SelectSub(s.profile.value)
    decreases |edits|
  {
    if edits != [] {
      CancelDiscardsEdits(HandleInputChange(s, edits[0].0, edits[0].1), edits[1..]);
    }
  }

  function ApplyEdits(s: PageState, edits: seq<(string, Field)>): (r: PageState)
    ensures r.profile == s.profile
    decreases |edits|
  {
    if edits == [] then s
    else ApplyEdits(HandleInputChange(s, edits[0].0, edits[0].1), edits[1..])
  }

  /** The key of the sub-profile a save writes: `vendor_profiles` for
      vendors, `supplier_profiles` otherwise. */
  datatype SubKey = VendorProfiles | SupplierProfiles

  function SubKeyOf(userType: string): (k: SubKey)
    ensures k == VendorProfiles <==> userType == "vendor"
  {
    if userType == "vendor" then VendorProfiles else SupplierProfiles
  }

  /** How the profile update ended: it answered with success and the stored
      sub-profile, it answered with a failure, or it threw. */
  datatype SaveAnswer = Saved(data: Option<Record>) | NotSaved | SaveThrew

  /** `handleSave`, given the update's answer. The handler has no
      `try`/`finally`, so a throw leaves the page in its saving state. The
      button exists only once a profile is shown. */
  function HandleSave(s: PageState, saved: SaveAnswer): (r: PageState)
    requires s.profile.Some?
    ensures saved.SaveThrew? <==> r.isSaving
    ensures saved.SaveThrew? ==> r == s.(isSaving := true)
    ensures saved.NotSaved? ==> r == s.(isSaving := false)
    ensures saved.Saved? ==>
      && r.profile.Some?
      && r == s.(profile := r.profile, isEditing := false, isSaving := false)
    ensures saved.Saved? ==>
      var p, p' := s.profile.value, r.profile.value;
      && p'.id == p.id && p'.userType == p.userType
      && (SubKeyOf(p.userType) == VendorProfiles ==>
            p'.vendorProfiles == saved.data && p'.supplierProfiles == p.supplierProfiles)
      && (SubKeyOf(p.userType) == SupplierProfiles ==>
            p'.supplierProfiles == saved.data && p'.vendorProfiles == p.vendorProfiles)
  {
    var p := s.profile.value;
    var saving := s.(isSaving := true);
    match saved
    case SaveThrew => saving
    case NotSaved => saving.(isSaving := false)
    case Saved(data) =>
      var p' := match SubKeyOf(p.userType)
                case VendorProfiles => p.(vendorProfiles := data)
                case SupplierProfiles => p.(supplierProfiles := data);
      saving.(profile := Some(p'), isEditing := false, isSaving := false)
  }

  /** After a successful save the stored sub-profile is what the page edits:
      cancelling right away puts the saved data in the buffer. */
  lemma SaveThenCancel(s: PageState, data: Option<Record>)
    requires s.profile.Some?
    ensures HandleCancel(HandleSave(s, Saved(data))).editData == data
  {
  }

  // ---------------------------------------------------------------------
  // The categories field
  // ---------------------------------------------------------------------

  const CategoriesField: string := "product_categories"

  /** The list in the buffer's categories field, if it holds one. */
  function Categories(buffer: Option<Record>): Option<seq<string>> {
    if buffer.Some? && CategoriesField in buffer.value && buffer.value[CategoriesField].ListValue?
    then Some(buffer.value[CategoriesField].items)
    else None
  }

  /** `product_categories?.join(", ") || ""`. */
  function ShowCategories(items: Option<seq<string>>): string {
    match items
    case None => ""
    case Some(xs) => Join(xs, CommaSpace)
  }

  /** `e.target.value.split(", ")`. */
  function ReadCategories(text: string): seq<string> {
    Split(text, CommaSpace)
  }

  /** Whatever is typed into the categories field is shown back unchanged. */
  lemma TypedCategoriesShowBack(s: PageState, text: string)
    ensures ShowCategories(Categories(HandleInputChange(s, CategoriesField, ListValue(ReadCategories(text))).editData))
         == text
  {
    JoinSplit(text, CommaSpace);
  }

  /** A non-empty list whose entries contain no ", " survives being shown
      and read back. */
  lemma CategoriesRoundTrip(items: seq<string>)
    requires |items| >= 1
    requires forall k :: 0 <= k < |items| ==> !Includes(items[k], CommaSpace)
    ensures ReadCategories(ShowCategories(Some(items))) == items
  {
    SplitJoinCommaSpace(items);
  }

  /** The empty list does not survive: it shows as "" and reads back as one
      empty category. */
  lemma EmptyCategoriesReadBackAsOneEmpty()
    ensures ReadCategories(ShowCategories(Some([]))) == [""]
  {
  }
}
