/**
 * The admin product forms: the edit page (`products/edit`) with its dynamic
 * category list, status switch and three image slots, and the add page
 * (`products/add`) with its fixed category options. Text fields hold what
 * the user typed; numbers are parsed only when validating and submitting.
 */
module ProductForm {
  import opened Wrappers
  import opened JsText
  import opened JsNumber
  import opened ImageStorage
  import opened ImageUploader

  const CategoryPlaceholder: string := "请选择分类"

  // ---------------------------------------------------------------------------
  // Shared field rules
  // ---------------------------------------------------------------------------

  /** `!name || name.trim() === ''`. */
  predicate NameMissing(name: string) {
    Blank(name)
  }

  /** `!price || isNaN(parseFloat(price)) || parseFloat(price) <= 0`. */
  predicate PriceInvalid(price: string) {
    price == "" || ParseFloat(price).NaN? || ParseFloat(price).AtMostZero()
  }

  /** `parseInt(stock, 10) || 0`: the leading integer, or 0 when there is none. */
  function StockValue(stock: string): (r: Num)
    ensures r.Finite? && r.v == r.v.Floor as real
    ensures ParseInt(stock).Truthy() ==> r == ParseInt(stock)
    ensures !ParseInt(stock).Truthy() ==> r == Finite(0.0)
  {
    var n := ParseInt(stock);
    if n.Truthy() then
      assert n.Finite?;
      ParseIntWhole(stock);
      n
    else Finite(0.0)
  }

  /** `parseInt` only ever yields whole numbers (or NaN). */
  lemma ParseIntWhole(s: string)
    ensures ParseInt(s).Finite? ==> ParseInt(s).v == ParseInt(s).v.Floor as real
  {
    var t := TrimStart(s);
    var (neg, off) := SignPrefix(t);
    var n := LeadingDigits(t[off..]);
    if n != 0 {
      var d: int := DigitsValue(t[off..][..n]);
      assert (d as real).Floor == d;
      assert ((-d) as real).Floor == -d;
      assert -(d as real) == (-d) as real;
    }
  }

  /** A price typed as a positive whole number of yuan passes the price check and is submitted as that number. */
  lemma PriceOfDecimal(n: int)
    requires n > 0
    ensures !PriceInvalid(IntToDecimal(n))
    ensures ParseFloat(IntToDecimal(n)) == Finite(n as real)
  {
    ParseFloatOfDecimal(n);
    PriceTextValid(IntToDecimal(n), n as real);
  }

  /** Any text that reads back as a positive number passes the price check. */
  lemma PriceTextValid(t: string, v: real)
    requires v > 0.0 && ParseFloat(t) == Finite(v)
    ensures !PriceInvalid(t)
  {
    EmptyIsNaN();
  }

  /** `parseFloat('')` is NaN, so a text that reads back as a number is not empty. */
  lemma EmptyIsNaN()
    ensures ParseFloat("") == NaN
  {
    assert TrimStart("") == "";
    assert !StartsWith("", "Infinity");
    assert LeadingDigits("") == 0;
    assert ScanMantissa("") == None;
  }

  /** A price of zero or below is rejected. */
  lemma NonPositivePriceRejected(n: int)
    requires n <= 0
    ensures PriceInvalid(IntToDecimal(n))
  {
    ParseFloatOfDecimal(n);
  }

  /** A stock count typed as a whole number is submitted as that number. */
  lemma StockOfDecimal(n: int)
    ensures StockValue(IntToDecimal(n)) == Finite(n as real)
  {
    ParseIntOfDecimal(n);
  }

  // ---------------------------------------------------------------------------
  // Images as stored on the product (an array) and as edited (three slots)
  // ---------------------------------------------------------------------------

  /** `arrayToImages(arr)`: slot k holds `arr[k] || ''`. */
  function ArrayToImages(arr: seq<string>): (r: Images)
    ensures forall s: Slot :: r.Get(s) == (if s.Index() < |arr| then arr[s.Index()] else "")
  {
    PerSlot(
      if 0 < |arr| then arr[0] else "",
      if 1 < |arr| then arr[1] else "",
      if 2 < |arr| then arr[2] else "")
  }

  /** `imagesToArray(img)`: always three entries, empty slots included. */
  function ImagesToArray(img: Images): (r: seq<string>)
    ensures |r| == 3
    ensures forall s: Slot :: r[s.Index()] == img.Get(s)
  {
    [img.main, img.detail, img.qrcode]
  }

  /** Slots survive the trip through the stored array unchanged. */
  lemma ImagesRoundTrip(img: Images)
    ensures ArrayToImages(ImagesToArray(img)) == img
  {
  }

  /** A stored array comes back padded or cut to exactly three entries. */
  lemma ArrayRoundTrip(arr: seq<string>)
    ensures ImagesToArray(ArrayToImages(arr)) == (arr + ["", "", ""])[..3]
    ensures |arr| == 3 ==> ImagesToArray(ArrayToImages(arr)) == arr
  {
  }

  // ---------------------------------------------------------------------------
  // Edit page
  // ---------------------------------------------------------------------------

  /** An active category offered by the picker. */
  datatype Category = Category(id: Num, name: string)

  /** The index of the first category whose id is `=== id`, or `|cats|` when there is none (`Array.prototype.find`). */
  function FindCategory(cats: seq<Category>, id: Num): (i: nat)
    ensures i <= |cats|
    ensures i < |cats| ==> StrictEq(cats[i].id, id)
    ensures forall j :: 0 <= j < i ==> !StrictEq(cats[j].id, id)
  {
    if cats == [] then 0
    else if StrictEq(cats[0].id, id) then 0
    else 1 + FindCategory(cats[1..], id)
  }

  /**
   * `getCategoryText(categoryId)`: the name of the first listed category with
   * that id; the placeholder when no (truthy) id is chosen, none matches, or
   * the match has an empty name.
   */
  function CategoryText(cats: seq<Category>, id: Option<Num>): (r: string)
    ensures r != ""
    ensures id.None? || !id.value.Truthy() ==> r == CategoryPlaceholder
    ensures r != CategoryPlaceholder ==>
      exists i :: 0 <= i < |cats| && StrictEq(cats[i].id, id.value) && cats[i].name == r
  {
    if id.None? || !id.value.Truthy() then CategoryPlaceholder
    else
      var i := FindCategory(cats, id.value);
      if i < |cats| && cats[i].name != "" then cats[i].name else CategoryPlaceholder
  }

  /** Ids in the list are pairwise different. */
  predicate DistinctIds(cats: seq<Category>) {
    forall i, j :: 0 <= i < j < |cats| ==> cats[i].id != cats[j].id
  }

  /** With distinct ids, choosing a listed category with a truthy id and a name shows exactly that name. */
  lemma CategoryTextOfListed(cats: seq<Category>, k: nat)
    requires DistinctIds(cats) && k < |cats|
    requires cats[k].id.Truthy() && cats[k].name != ""
    ensures CategoryText(cats, Some(cats[k].id)) == cats[k].name
  {
    var i := FindCategory(cats, cats[k].id);
    assert StrictEq(cats[k].id, cats[k].id);
    assert i == k;
  }

  /** An id no listed category has shows the placeholder. */
  lemma CategoryTextOfUnlisted(cats: seq<Category>, id: Num)
    requires forall i :: 0 <= i < |cats| ==> cats[i].id != id
    ensures CategoryText(cats, Some(id)) == CategoryPlaceholder
  {
  }

  /** A picker column value: strings and numbers both reach the handler. */
  datatype PickerValue = PStr(s: string) | PNum(n: Num)

  /**
   * `handleCategoryConfirm(_, values)`: the first value, converted with
   * `Number()` when it is a string, becomes the category id when it is a
   * finite number; otherwise the choice is left as it was.
   */
  function ConfirmCategory(current: Option<Num>, values: seq<PickerValue>): (r: Option<Num>)
    ensures r == current || (r.Some? && r.value.Finite?)
    ensures values == [] ==> r == current
    ensures values != [] && values[0].PNum? ==>
      r == (if values[0].n.Finite? then Some(values[0].n) else current)
    ensures values != [] && values[0].PStr? ==>
      r == (if ToNumber(values[0].s).Finite? then Some(ToNumber(values[0].s)) else current)
  {
    if values == [] then current
    else
      var n := match values[0] case PStr(s) => ToNumber(s) case PNum(x) => x;
      if n.Finite? then Some(n) else current
  }

  /** A category id delivered as its decimal text selects that id. */
  lemma ConfirmDecimalText(current: Option<Num>, id: int, rest: seq<PickerValue>)
    ensures ConfirmCategory(current, [PStr(IntToDecimal(id))] + rest) == Some(Finite(id as real))
  {
    ToNumberOfDecimal(id);
  }

  /** An empty or blank picker string converts to 0, which is then chosen and fails the category check. */
  lemma ConfirmBlankText(current: Option<Num>, s: string)
    requires Blank(s)
    ensures ConfirmCategory(current, [PStr(s)]) == Some(Finite(0.0))
    ensures !ConfirmCategory(current, [PStr(s)]).value.Truthy()
  {
  }

  datatype Status = OnShelf | OffShelf

  /** `handleStatusChange(checked)`. */
  function StatusOf(checked: bool): (r: Status)
    ensures r.OnShelf? <==> checked
  {
    if checked then OnShelf else OffShelf
  }

  /** The switch shows `status === 'ON_SHELF'`; toggling it back yields the same status. */
  lemma StatusSwitchRoundTrip(s: Status)
    ensures StatusOf(s == OnShelf) == s
  {
  }

  /** The edit form's state. */
  datatype EditForm = EditForm(
    name: string, price: string, categoryId: Option<Num>, stock: string, description: string, status: Status)

  /** The messages `validateForm` sets, one flag per field, plus the image messages. */
  datatype EditErrors = EditErrors(name: bool, price: bool, category: bool, images: ImageErrors)

  /** Every flag is clear and both required images are present. */
  predicate EditValid(e: EditErrors) {
    !e.name && !e.price && !e.category && e.images == ImageErrors(None, None)
  }

  /**
   * `validateForm()` on the edit page: name, price and category are checked
   * independently of each other and of the images; the form is valid exactly
   * when none of the four checks fails.
   */
  function ValidateEdit(f: EditForm, img: Images): (r: EditErrors)
    ensures r.name <==> Blank(f.name)
    ensures r.price <==> PriceInvalid(f.price)
    ensures r.category <==> (f.categoryId.None? || !f.categoryId.value.Truthy())
    ensures r.images == ValidateProductImages(img).errors
    ensures EditValid(r) <==>
      !Blank(f.name) && !PriceInvalid(f.price) && f.categoryId.Some? && f.categoryId.value.Truthy()
      && img.main != "" && img.qrcode != ""
  {
    EditErrors(
      NameMissing(f.name),
      PriceInvalid(f.price),
      f.categoryId.None? || !f.categoryId.value.Truthy(),
      ValidateProductImages(img).errors)
  }

  /** The update request body. */
  datatype UpdateRequest = UpdateRequest(
    productId: Num, name: string, price: Num, categoryId: Num, stock: Num,
    description: string, status: Status, images: seq<string>)

  /**
   * `handleSubmit()` on the edit page: nothing is sent unless the form
   * validates and the route carries a non-empty product id; the body holds
   * the trimmed texts, the parsed numbers and all three image slots.
   */
  function SubmitEdit(f: EditForm, img: Images, routeId: Option<string>): (r: Option<UpdateRequest>)
    ensures r.Some? <==> EditValid(ValidateEdit(f, img)) && routeId.Some? && routeId.value != ""
    ensures r.Some? ==>
      && r.value.productId == ParseInt(routeId.value)
      && r.value.name == Trim(f.name) && r.value.name != ""
      && r.value.price == ParseFloat(f.price) && !r.value.price.NaN? && !r.value.price.AtMostZero()
      && Some(r.value.categoryId) == f.categoryId && r.value.categoryId.Truthy()
      && r.value.stock == StockValue(f.stock)
      && r.value.description == Trim(f.description)
      && r.value.status == f.status
      && ArrayToImages(r.value.images) == img && |r.value.images| == 3
      && r.value.images[0] != "" && r.value.images[2] != ""
  {
    if !EditValid(ValidateEdit(f, img)) || routeId.None? || routeId.value == "" then None
    else
      ImagesRoundTrip(img);
      Some(UpdateRequest(
        ParseInt(routeId.value), Trim(f.name), ParseFloat(f.price), f.categoryId.value,
        StockValue(f.stock), Trim(f.description), f.status, ImagesToArray(img)))
  }

  /**
   * A product as the detail API returns it. The price is any finite number
   * (both pages submit `parseFloat` of the price text); the stock is whole,
   * since both pages submit `parseInt(stock, 10) || 0`.
   */
  datatype ProductRecord = ProductRecord(
    name: string, price: real, categoryId: Num, stock: int,
    description: Option<string>, status: Status, images: Option<seq<string>>)

  /**
   * `loadProduct()`: the form and slots filled from a product record.
   * `numText` stands for the host's `Number.prototype.toString` on the price;
   * a whole stock renders as its decimal digits, which read back as the stock.
   */
  function LoadForm(p: ProductRecord, numText: real -> string): (r: (EditForm, Images))
    ensures r.0.name == p.name && r.0.status == p.status
    ensures r.0.price == numText(p.price)
    ensures r.0.stock == IntToDecimal(p.stock) && StockValue(r.0.stock) == Finite(p.stock as real)
    ensures r.0.categoryId.Some? <==> p.categoryId.Truthy()
    ensures r.0.categoryId.Some? ==> r.0.categoryId.value == p.categoryId
    ensures p.description.Some? ==> r.0.description == p.description.value
    ensures p.description.None? ==> r.0.description == ""
    ensures ImagesToArray(r.1) == (p.images.GetOr([]) + ["", "", ""])[..3]
  {
    ArrayRoundTrip(p.images.GetOr([]));
    StockOfDecimal(p.stock);
    (EditForm(
       p.name, numText(p.price), if p.categoryId.Truthy() then Some(p.categoryId) else None,
       IntToDecimal(p.stock), p.description.GetOr(""), p.status),
     ArrayToImages(p.images.GetOr([])))
  }

  /**
   * Saving a loaded product without touching the form sends back what was
   * loaded, provided the record already satisfies the form's rules and the
   * price text reads back as the price (as `toString` then `parseFloat` does
   * for every finite number); the image array is normalised to three slots.
   */
  lemma SaveUnchanged(p: ProductRecord, routeId: string, numText: real -> string)
    requires routeId != ""
    requires p.name != "" && Trim(p.name) == p.name && p.price > 0.0 && p.categoryId.Truthy()
    requires ParseFloat(numText(p.price)) == Finite(p.price)
    requires p.description.None? || Trim(p.description.value) == p.description.value
    requires p.images.Some? && |p.images.value| == 3 && p.images.value[0] != "" && p.images.value[2] != ""
    ensures var (f, img) := LoadForm(p, numText);
      var r := SubmitEdit(f, img, Some(routeId));
      && r.Some?
      && r.value.name == p.name && r.value.price == Finite(p.price)
      && r.value.categoryId == p.categoryId && r.value.stock == Finite(p.stock as real)
      && r.value.description == p.description.GetOr("") && r.value.status == p.status
      && r.value.images == p.images.value
  {
    var (f, img) := LoadForm(p, numText);
    assert !Blank(f.name) by {
      assert f.name == p.name && Trim(p.name) != [];
    }
    assert !PriceInvalid(f.price) by {
      assert f.price == numText(p.price);
      PriceTextValid(numText(p.price), p.price);
    }
    assert ImagesToArray(img) == p.images.value by {
      ArrayRoundTrip(p.images.value);
    }
    assert img.main != "" && img.qrcode != "";
    assert EditValid(ValidateEdit(f, img));
  }

  /** A whole price rendered as its decimal digits meets the read-back condition of `SaveUnchanged`. */
  lemma WholePriceReadsBack(n: int)
    ensures ParseFloat(IntToDecimal(n)) == Finite(n as real)
  {
    ParseFloatOfDecimal(n);
  }

  /** A fractional price: the text `19.9` that `toString` gives for 19.9 reads back as 19.9. */
  lemma FractionalPriceReadsBack()
    ensures ParseFloat("19.9") == Finite(19.9)
  {
    assert TrimStart("19.9") == "19.9";
    ScanOfPrice();
  }

  lemma ScanOfPrice()
    ensures ScanDecimal("19.9") == Some(Scan(Finite(19.9), 4))
  {
    var u := "19.9";
    assert SignPrefix(u) == (false, 0);
    assert u[0..] == u;
    assert !StartsWith(u, "Infinity");
    MantissaOfPrice();
    assert ScanExponent(u[4..]) == (1.0, 0) by {
      assert |u[4..]| == 0;
    }
  }

  lemma MantissaOfPrice()
    ensures ScanMantissa("19.9") == Some((19.9, 4))
  {
    var u := "19.9";
    assert LeadingDigits(u[3..]) == 1 by {
      assert u[3..][1..] == [];
    }
    assert LeadingDigits(u) == 2 by {
      assert u[1..][1..] == u[2..];
      assert LeadingDigits(u[2..]) == 0;
    }
    assert DigitsValue(u[..2]) == 19 by {
      var d := u[..2];
      assert d[..1] == "1" && d[1] == '9';
      assert d[..1][..0] == [];
      assert DigitsValue(d[..1]) == 1;
    }
    assert DigitsValue(u[3..][..1]) == 9;
    assert Pow10(1) == 10.0;
  }

  /**
   * The product id handed to the image uploader: `Number(id)` when the route
   * carries a non-empty id, else none (uploads then go to the shared
   * temporary folder).
   */
  function UploaderProductId(routeId: Option<string>): (r: Option<Num>)
    ensures r.None? <==> routeId.None? || routeId.value == ""
    ensures r.Some? ==> r.value == ToNumber(routeId.value)
  {
    if routeId.None? || routeId.value == "" then None else Some(ToNumber(routeId.value))
  }

  /** A route id written in decimal reaches the uploader as that number. */
  lemma UploaderProductIdOfDecimal(n: int)
    ensures UploaderProductId(Some(IntToDecimal(n))) == Some(Finite(n as real))
  {
    ToNumberOfDecimal(n);
  }

  // ---------------------------------------------------------------------------
  // Add page
  // ---------------------------------------------------------------------------

  /** An entry of `CATEGORY_OPTIONS`. */
  datatype CategoryOption = CategoryOption(value: string, text: string)

  const CategoryOptions: seq<CategoryOption> := [
    CategoryOption("GIFT", "礼花类"),
    CategoryOption("FIREWORK", "烟花类"),
    CategoryOption("FIRECRACKER", "鞭炮类"),
    CategoryOption("COMBO", "组合类"),
    CategoryOption("OTHER", "其他")
  ]

  /** The category a new product starts with. */
  const InitialCategory: PickerValue := PStr("GIFT")

  /** The label of the first option whose value is `=== v`; a number never equals a string value. */
  function OptionText(v: PickerValue): (r: string)
    ensures r != ""
    ensures r != CategoryPlaceholder <==>
      v.PStr? && exists i :: 0 <= i < |CategoryOptions| && CategoryOptions[i].value == v.s
    ensures forall i :: 0 <= i < |CategoryOptions| && v == PStr(CategoryOptions[i].value) ==>
      r == CategoryOptions[i].text
  {
    match v
    case PNum(_) => CategoryPlaceholder
    case PStr(s) =>
      if s == "GIFT" then assert CategoryOptions[0].value == s; "礼花类"
      else if s == "FIREWORK" then assert CategoryOptions[1].value == s; "烟花类"
      else if s == "FIRECRACKER" then assert CategoryOptions[2].value == s; "鞭炮类"
      else if s == "COMBO" then assert CategoryOptions[3].value == s; "组合类"
      else if s == "OTHER" then assert CategoryOptions[4].value == s; "其他"
      else CategoryPlaceholder
  }

  /** The add form's state. */
  datatype AddForm = AddForm(name: string, price: string, category: PickerValue, stock: string, description: string)

  const InitialAddForm: AddForm := AddForm("", "", InitialCategory, "0", "")

  /** `handleCategoryConfirm(_, values)` on the add page: any first value is taken as is, unchecked. */
  function ConfirmAddCategory(f: AddForm, values: seq<PickerValue>): (r: AddForm)
    ensures values == [] ==> r == f
    ensures values != [] ==> r == f.(category := values[0])
    ensures r.name == f.name && r.price == f.price && r.stock == f.stock && r.description == f.description
  {
    if values == [] then f else f.(category := values[0])
  }

  /** The add page's messages: only name and price are checked. */
  datatype AddErrors = AddErrors(name: bool, price: bool)

  /** `validateForm()` on the add page: valid exactly when neither field check fails. */
  function ValidateAdd(f: AddForm): (r: AddErrors)
    ensures r.name <==> Blank(f.name)
    ensures r.price <==> PriceInvalid(f.price)
  {
    AddErrors(NameMissing(f.name), PriceInvalid(f.price))
  }

  /** The create request body; it has no images field. */
  datatype CreateRequest = CreateRequest(name: string, price: Num, category: PickerValue, stock: Num, description: string)

  /** `handleSubmit()` on the add page. */
  function SubmitAdd(f: AddForm): (r: Option<CreateRequest>)
    ensures r.Some? <==> !Blank(f.name) && !PriceInvalid(f.price)
    ensures r.Some? ==>
      && r.value.name == Trim(f.name) && r.value.name != ""
      && r.value.price == ParseFloat(f.price) && !r.value.price.NaN? && !r.value.price.AtMostZero()
      && r.value.category == f.category
      && r.value.stock == StockValue(f.stock)
      && r.value.description == Trim(f.description)
  {
    var e := ValidateAdd(f);
    if e.name || e.price then None
    else Some(CreateRequest(Trim(f.name), ParseFloat(f.price), f.category, StockValue(f.stock), Trim(f.description)))
  }

  /** The untouched add form is rejected for its empty name and price. */
  lemma InitialAddFormRejected()
    ensures ValidateAdd(InitialAddForm) == AddErrors(true, true)
    ensures SubmitAdd(InitialAddForm).None?
  {
  }

  /** Name and price follow the same rules on both pages: an edit form that validates would also pass the add page's checks. */
  lemma EditRulesIncludeAddRules(f: EditForm, img: Images, category: PickerValue)
    requires EditValid(ValidateEdit(f, img))
    ensures SubmitAdd(AddForm(f.name, f.price, category, f.stock, f.description)).Some?
  {
  }
}
