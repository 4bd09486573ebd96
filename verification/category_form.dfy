/**
 * The admin category pages: the add page (a name only) and the edit page
 * (name and status of the category whose id the route carries). Both apply
 * the same name rule; the edit page first checks the route id.
 */
module CategoryForm {
  import opened Wrappers
  import opened JsText
  import opened JsNumber

  /** The longest category name accepted, in UTF-16 code units. */
  const MaxCategoryName: nat := 50

  datatype NameIssue = NameEmpty | NameTooLong {
    /** The toast shown for the issue. */
    function Message(): string {
      match this
      case NameEmpty => "请输入分类名称"
      case NameTooLong => "分类名称不能超过50个字符"
    }
  }

  /**
   * The name checks of `handleSubmit` on both pages: a name that trims to
   * nothing is missing, one whose trimmed length exceeds 50 is too long, and
   * otherwise the trimmed name is what gets sent.
   */
  function CheckCategoryName(name: string): (r: Result<string, NameIssue>)
    ensures r.Err? && r.error == NameEmpty <==> Blank(name)
    ensures r.Err? && r.error == NameTooLong <==> !Blank(name) && Utf16Length(Trim(name)) > MaxCategoryName
    ensures r.Ok? ==> r.value == Trim(name) && r.value != [] && Utf16Length(r.value) <= MaxCategoryName
  {
    var t := Trim(name);
    if t == [] then Err(NameEmpty)
    else if Utf16Length(t) > MaxCategoryName then Err(NameTooLong)
    else Ok(t)
  }

  /** An accepted name is accepted again unchanged: submitting the sent name once more sends the same name. */
  lemma CheckCategoryNameIdempotent(name: string)
    requires CheckCategoryName(name).Ok?
    ensures CheckCategoryName(CheckCategoryName(name).value) == CheckCategoryName(name)
  {
    TrimIdempotent(Trim(name));
  }

  /**
   * The name input is capped at 50 characters, so a name typed into it is
   * never rejected as too long.
   */
  lemma InputCapNeverTooLong(name: string)
    requires Utf16Length(name) <= MaxCategoryName
    ensures CheckCategoryName(name) != Err(NameTooLong)
  {
    TrimUtf16Length(name);
  }

  /** Surrounding white space never changes the verdict. */
  lemma CheckIgnoresSurroundingSpace(name: string)
    ensures CheckCategoryName(Trim(name)) == CheckCategoryName(name)
  {
    if Trim(name) != [] {
      TrimIdempotent(Trim(name));
    }
  }

  /** The add page's request body. */
  datatype CreateCategory = CreateCategory(name: string)

  /** `handleSubmit()` on the add page: the trimmed name, or the toast for the failed check. */
  function SubmitAddCategory(name: string): (r: Result<CreateCategory, string>)
    ensures r.Ok? <==> CheckCategoryName(name).Ok?
    ensures r.Ok? ==> r.value.name == Trim(name)
    ensures r.Err? ==> r.error == CheckCategoryName(name).error.Message()
  {
    match CheckCategoryName(name)
    case Ok(t) => Ok(CreateCategory(t))
    case Err(e) => Err(e.Message())
  }

  datatype CategoryStatus = Active | Disabled

  /** `Number(router.params.id)`: an absent parameter is `Number(undefined)`, NaN. */
  function RouteCategoryId(param: Option<string>): (r: Num)
    ensures param.None? ==> r.NaN?
    ensures param.Some? ==> r == ToNumber(param.value)
  {
    match param
    case None => NaN
    case Some(s) => ToNumber(s)
  }

  /** The guard of `loadCategory`: the id must be a finite number above 0. */
  predicate AcceptedId(id: Num) {
    id.Finite? && id.v > 0.0
  }

  /**
   * `loadCategory()` up to the detail request: an unusable route id is
   * rejected with "参数错误" (and the page goes back), otherwise the id is
   * requested. The edit form is only shown once a category was loaded.
   */
  function LoadCategory(param: Option<string>): (r: Result<real, string>)
    ensures r.Ok? <==> AcceptedId(RouteCategoryId(param))
    ensures r.Ok? ==> r.value > 0.0 && RouteCategoryId(param) == Finite(r.value)
    ensures r.Err? ==> r.error == "参数错误"
  {
    var id := RouteCategoryId(param);
    if !id.Finite? || id.v <= 0.0 then Err("参数错误") else Ok(id.v)
  }

  /** A route id written as a positive decimal integer is accepted as that number. */
  lemma DecimalRouteIdAccepted(n: int)
    requires n > 0
    ensures LoadCategory(Some(IntToDecimal(n))) == Ok(n as real)
  {
    ToNumberOfDecimal(n);
  }

  /** Missing, empty, zero and negative ids are all refused. */
  lemma BadRouteIdsRefused(n: int)
    requires n <= 0
    ensures LoadCategory(None).Err?
    ensures LoadCategory(Some("")).Err?
    ensures LoadCategory(Some(IntToDecimal(n))).Err?
  {
    ToNumberOfDecimal(n);
  }

  /** The edit page's update request: the category id and its new name and status. */
  datatype UpdateCategory = UpdateCategory(id: real, name: string, status: CategoryStatus)

  /** `handleSubmit()` on the edit page for the loaded category `id`. */
  function SubmitEditCategory(id: real, name: string, status: CategoryStatus): (r: Result<UpdateCategory, string>)
    ensures r.Ok? <==> CheckCategoryName(name).Ok?
    ensures r.Ok? ==> r.value == UpdateCategory(id, Trim(name), status)
    ensures r.Err? ==> r.error == CheckCategoryName(name).error.Message()
  {
    match CheckCategoryName(name)
    case Ok(t) => Ok(UpdateCategory(id, t, status))
    case Err(e) => Err(e.Message())
  }

  /** The two pages accept and send exactly the same names. */
  lemma SameNameRuleOnBothPages(id: real, name: string, status: CategoryStatus)
    ensures SubmitAddCategory(name).Ok? <==> SubmitEditCategory(id, name, status).Ok?
    ensures SubmitAddCategory(name).Ok? ==> SubmitAddCategory(name).value.name == SubmitEditCategory(id, name, status).value.name
  {
  }
}
