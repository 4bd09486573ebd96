/**
 * The inquiry flow: the create page checks the wishlist and the phone
 * number, sends the inquiry and keeps a snapshot of it; the share page finds
 * that snapshot again by its share code and renders the copyable summary.
 */
module Inquiry {
  import opened Wrappers
  import opened JsText
  import opened JsNumber
  import opened Wishlist

  // ---------------------------------------------------------------------------
  // Create page
  // ---------------------------------------------------------------------------

  /** `/^1\d{10}$/`: eleven ASCII digits, the first of them 1. */
  predicate PhoneOk(p: string) {
    |p| == 11 && p[0] == '1' && AllDigits(p)
  }

  datatype InquiryIssue = NoItems | PhoneMissing | PhoneInvalid {
    /** The toast shown for the issue. */
    function Message(): string {
      match this
      case NoItems => "请先选择商品"
      case PhoneMissing => "请输入手机号"
      case PhoneInvalid => "请输入正确的手机号"
    }
  }

  /** One line of the request: which product and how many. */
  datatype LineItem = LineItem(productId: Num, quantity: Num)

  /** The request body of `api.inquiries.create`. */
  datatype CreateInquiry = CreateInquiry(agentCode: Option<string>, phone: string, wechat: Option<string>, items: seq<LineItem>)

  /**
   * `handleSubmit()` up to the request: an empty wishlist, then a blank phone,
   * then a malformed phone are refused in that order; otherwise the trimmed
   * phone, the trimmed WeChat id (omitted when blank) and every wishlist line
   * are sent. The agent code is read from storage by the caller.
   */
  function SubmitInquiry(items: seq<Item>, phone: string, wechat: string, agentCode: Option<string>): (r: Result<CreateInquiry, InquiryIssue>)
    ensures r == Err(NoItems) <==> items == []
    ensures r == Err(PhoneMissing) <==> items != [] && Blank(phone)
    ensures r == Err(PhoneInvalid) <==> items != [] && !Blank(phone) && !PhoneOk(Trim(phone))
    ensures r.Ok? ==> r.value.phone == Trim(phone) && PhoneOk(r.value.phone)
    ensures r.Ok? ==> (r.value.wechat.None? <==> Blank(wechat))
    ensures r.Ok? && r.value.wechat.Some? ==> r.value.wechat.value == Trim(wechat)
    ensures r.Ok? ==> r.value.agentCode == agentCode && |r.value.items| == |items|
    ensures r.Ok? ==> forall i :: 0 <= i < |items| ==>
      r.value.items[i].productId == items[i].productId && r.value.items[i].quantity == items[i].quantity
  {
    var p := Trim(phone);
    if items == [] then Err(NoItems)
    else if p == [] then Err(PhoneMissing)
    else if !PhoneOk(p) then Err(PhoneInvalid)
    else
      var w := Trim(wechat);
      Ok(CreateInquiry(agentCode, p, if w == [] then None else Some(w), Lines(items)))
  }

  /** `items.map(i => ({ productId: i.productId, quantity: i.quantity }))`. */
  function Lines(items: seq<Item>): (r: seq<LineItem>)
    ensures |r| == |items|
    ensures forall i :: 0 <= i < |items| ==> r[i] == LineItem(items[i].productId, items[i].quantity)
  {
    if items == [] then [] else [LineItem(items[0].productId, items[0].quantity)] + Lines(items[1..])
  }

  /** White space typed around a valid phone number is not held against it. */
  lemma PhoneSpacesIgnored(items: seq<Item>, pre: string, phone: string, post: string, wechat: string)
    requires items != [] && PhoneOk(phone) && Blank(pre) && Blank(post)
    ensures SubmitInquiry(items, pre + phone + post, wechat, None).Ok?
    ensures SubmitInquiry(items, pre + phone + post, wechat, None).value.phone == phone
  {
    TrimAround(pre, phone, post);
  }

  /** Trimming removes blank padding from a string with non-space ends. */
  lemma TrimAround(pre: string, s: string, post: string)
    requires Blank(pre) && Blank(post) && |s| > 0
    requires !IsWhiteSpace(s[0]) && !IsWhiteSpace(s[|s| - 1])
    ensures Trim(pre + s + post) == s
  {
    var x := pre + s + post;
    var t := TrimStart(x);
    TrimStartPast(pre, s + post);
    assert x == pre + (s + post);
    assert t == s + post;
    TrimEndPast(s, post);
    assert Trim(x) == TrimEnd(t);
  }

  lemma {:induction false} TrimStartPast(pre: string, rest: string)
    requires Blank(pre) && |rest| > 0 && !IsWhiteSpace(rest[0])
    ensures TrimStart(pre + rest) == rest
  {
    if pre != [] {
      assert (pre + rest)[1..] == pre[1..] + rest;
      TrimStartPast(pre[1..], rest);
    } else {
      assert pre + rest == rest;
    }
  }

  lemma {:induction false} TrimEndPast(s: string, post: string)
    requires Blank(post) && |s| > 0 && !IsWhiteSpace(s[|s| - 1])
    ensures TrimEnd(s + post) == s
  {
    if post != [] {
      assert (s + post)[..|s + post| - 1] == s + post[..|post| - 1];
      TrimEndPast(s, post[..|post| - 1]);
    } else {
      assert s + post == s;
    }
  }

  /** The snapshot kept in storage after a successful request. */
  datatype Snapshot = Snapshot(shareCode: string, phone: string, wechat: string, items: seq<Item>, createdAt: real)

  /** The snapshot written once the server answered with `shareCode`: `wechat` is stored as text, empty when blank. */
  function SnapshotAfter(req: CreateInquiry, shareCode: string, items: seq<Item>, wechat: string, now: real): (r: Snapshot)
    ensures r.shareCode == shareCode && r.phone == req.phone && r.items == items
    ensures r.wechat == "" <==> Blank(wechat)
    ensures r.wechat != "" ==> r.wechat == Trim(wechat)
  {
    Snapshot(shareCode, req.phone, Trim(wechat), items, now)
  }

  // ---------------------------------------------------------------------------
  // Share page
  // ---------------------------------------------------------------------------

  /** `String(router.params?.shareCode || '')`. */
  function RouteShareCode(param: Option<string>): string {
    param.GetOr("")
  }

  /**
   * The `useMemo` lookup: the stored snapshot is used only when it has a
   * non-empty share code equal to the route's.
   */
  function FindSnapshot(stored: Option<Snapshot>, code: string): (r: Option<Snapshot>)
    ensures r.Some? <==> stored.Some? && stored.value.shareCode != "" && stored.value.shareCode == code
    ensures r.Some? ==> r == stored
  {
    if stored.Some? && stored.value.shareCode != "" && stored.value.shareCode == code then stored else None
  }

  /** The page the create page redirects to finds the snapshot it just stored. */
  lemma CreateThenShare(req: CreateInquiry, shareCode: string, items: seq<Item>, wechat: string, now: real)
    requires shareCode != ""
    ensures var snap := SnapshotAfter(req, shareCode, items, wechat, now);
      FindSnapshot(Some(snap), RouteShareCode(Some(shareCode))) == Some(snap)
  {
  }

  /** A share page opened without a code, or with another inquiry's code, shows no summary. */
  lemma OtherCodeFindsNothing(snap: Snapshot, param: Option<string>)
    requires RouteShareCode(param) != snap.shareCode || snap.shareCode == ""
    ensures FindSnapshot(Some(snap), RouteShareCode(param)).None?
  {
  }

  /** `${n}` for a number: whole numbers in plain decimal; `fraction` renders the others. */
  function NumberText(n: Num, fraction: real -> string): string {
    match n
    case Finite(v) => if v == v.Floor as real then IntToDecimal(v.Floor) else fraction(v)
    case NaN => "NaN"
    case PosInf => "Infinity"
    case NegInf => "-Infinity"
  }

  const SummaryTitle: string := "烟花询价单"
  const SummaryItemsHeading: string := "商品清单："

  /** `- ${name} x${quantity}`. */
  function ItemLine(i: Item, fraction: real -> string): string {
    "- " + i.name + " x" + NumberText(i.quantity, fraction)
  }

  function ItemLines(items: seq<Item>, fraction: real -> string): (r: seq<string>)
    ensures |r| == |items|
    ensures forall k :: 0 <= k < |items| ==> r[k] == ItemLine(items[k], fraction)
  {
    if items == [] then [] else [ItemLine(items[0], fraction)] + ItemLines(items[1..], fraction)
  }

  /** `联系方式：${phone}`, followed by `（微信：${wechat}）` when there is a WeChat id. */
  function ContactLine(phone: string, wechat: string): string {
    "联系方式：" + phone + (if wechat != "" then "（微信：" + wechat + "）" else "")
  }

  /** The lines `buildSummary` pushes, in order. */
  function SummaryLines(s: Snapshot, fraction: real -> string): (r: seq<string>)
    ensures |r| == |s.items| + 5
  {
    [SummaryTitle, "", SummaryItemsHeading] + ItemLines(s.items, fraction) + ["", ContactLine(s.phone, s.wechat)]
  }

  /** `buildSummary(snapshot)`: the lines joined with newlines. */
  function BuildSummary(s: Snapshot, fraction: real -> string): string {
    Join(SummaryLines(s, fraction), "\n")
  }

  /** Every quantity is a finite whole number, as the wishlist's own operations keep them. */
  predicate WholeQuantities(items: seq<Item>) {
    forall k :: 0 <= k < |items| ==> items[k].quantity.Finite? && items[k].quantity.v == items[k].quantity.v.Floor as real
  }

  /** Neither the phone, the WeChat id nor any product name contains a line break. */
  predicate SingleLineFields(s: Snapshot) {
    '\n' !in s.phone && '\n' !in s.wechat && forall k :: 0 <= k < |s.items| ==> '\n' !in s.items[k].name
  }

  lemma NoNewlineInDecimal(n: int)
    ensures '\n' !in IntToDecimal(n)
  {
    var d := NatToDecimal(if n < 0 then -n else n);
    assert forall k :: 0 <= k < |d| ==> d[k] != '\n';
  }

  /**
   * Splitting the copied summary at line breaks gives back the title, the
   * heading, one line per item in wishlist order, a blank line and the
   * contact line: `|items| + 5` lines in all.
   */
  lemma SummaryRoundTrip(s: Snapshot, fraction: real -> string)
    requires SingleLineFields(s) && WholeQuantities(s.items)
    ensures var lines := Split(BuildSummary(s, fraction), '\n');
      && |lines| == |s.items| + 5
      && lines[0] == SummaryTitle && lines[2] == SummaryItemsHeading
      && (forall k :: 0 <= k < |s.items| ==> lines[3 + k] == ItemLine(s.items[k], fraction))
      && lines[|lines| - 1] == ContactLine(s.phone, s.wechat)
  {
    var lines := SummaryLines(s, fraction);
    SummaryLinesSingle(s, fraction);
    SplitJoin(lines, '\n');
    assert forall k :: 0 <= k < |s.items| ==> lines[3 + k] == ItemLines(s.items, fraction)[k];
  }

  /** No line of the summary contains a line break. */
  lemma SummaryLinesSingle(s: Snapshot, fraction: real -> string)
    requires SingleLineFields(s) && WholeQuantities(s.items)
    ensures forall k :: 0 <= k < |SummaryLines(s, fraction)| ==> '\n' !in SummaryLines(s, fraction)[k]
  {
    var items := ItemLines(s.items, fraction);
    var lines := SummaryLines(s, fraction);
    forall k | 0 <= k < |items|
      ensures '\n' !in items[k]
    {
      ItemLineSingle(s.items[k], fraction);
    }
    assert '\n' !in ContactLine(s.phone, s.wechat);
    forall k | 0 <= k < |lines|
      ensures '\n' !in lines[k]
    {
      if 3 <= k < 3 + |items| {
        assert lines[k] == items[k - 3];
      }
    }
  }

  lemma ItemLineSingle(i: Item, fraction: real -> string)
    requires '\n' !in i.name && i.quantity.Finite? && i.quantity.v == i.quantity.v.Floor as real
    ensures '\n' !in ItemLine(i, fraction)
  {
    NoNewlineInDecimal(i.quantity.v.Floor);
    assert ItemLine(i, fraction) == "- " + i.name + " x" + IntToDecimal(i.quantity.v.Floor);
  }

  /** The WeChat suffix appears exactly when a WeChat id was given. */
  lemma ContactMentionsWechat(phone: string, wechat: string)
    ensures wechat == "" <==> ContactLine(phone, wechat) == "联系方式：" + phone
  {
    if wechat != "" {
      assert |ContactLine(phone, wechat)| > |"联系方式：" + phone|;
    }
  }
}
