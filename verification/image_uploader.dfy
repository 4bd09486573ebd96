/**
 * The slot-based product image uploader (`ProductImageUploader`): three image
 * slots with a per-slot busy flag, progress and error text, plus the image
 * validation the product pages use. The picker, compression and network
 * upload behind `chooseAndUploadImage` arrive as an `Outcome`.
 */
module ImageUploader {
  import opened Wrappers
  import opened JsText
  import opened JsNumber
  import opened ImageStorage

  /** One value per slot, as the component's `Record<ImageSlot, T>` state and `ProductImages`. */
  datatype PerSlot<T> = PerSlot(main: T, detail: T, qrcode: T) {
    function Get(s: Slot): T {
      match s
      case Main => main
      case Detail => detail
      case QrCode => qrcode
    }

    /** `{ ...prev, [s]: v }`. */
    function Set(s: Slot, v: T): (r: PerSlot<T>)
      ensures r.Get(s) == v
      ensures forall o :: o != s ==> r.Get(o) == Get(o)
    {
      match s
      case Main => this.(main := v)
      case Detail => this.(detail := v)
      case QrCode => this.(qrcode := v)
    }
  }

  /** Image URLs per slot; the empty string means no image. */
  type Images = PerSlot<string>

  /** `Math.max(0, Math.min(100, n))` on a whole number. */
  function Percent(n: int): (r: int)
    ensures 0 <= r <= 100
    ensures 0 <= n <= 100 ==> r == n
    ensures n < 0 ==> r == 0
    ensures n > 100 ==> r == 100
  {
    if n < 0 then 0 else if n > 100 then 100 else n
  }

  /** `Math.max(0, Math.min(100, Math.round(v)))` on a JavaScript number. */
  function SafeProgress(v: Num): (r: Num)
    ensures r.NaN? <==> v.NaN?
    ensures r.Finite? ==> 0.0 <= r.v <= 100.0 && r.v == r.v.Floor as real
    ensures v.Finite? ==> r == Finite(Percent(Round(v.v)) as real)
    ensures v.PosInf? ==> r == Finite(100.0)
    ensures v.NegInf? ==> r == Finite(0.0)
  {
    match v
    case NaN => NaN
    case PosInf => Finite(100 as real)
    case NegInf => Finite(0 as real)
    case Finite(x) => Finite(Percent(Round(x)) as real)
  }

  /** Progress already reported as a whole percentage passes through unchanged. */
  lemma SafeProgressWhole(k: int)
    requires 0 <= k <= 100
    ensures SafeProgress(Finite(k as real)) == Finite(k as real)
  {
    assert (k as real + 0.5).Floor == k;
  }

  /** The `message` property of a thrown object, when it has one. */
  datatype Message = MessageText(s: string) | MessageOther

  /** What a failed upload throws: a non-object (or null), an object without `message`, or one with. */
  datatype Thrown = NotObject | NoMessage | WithMessage(message: Message)

  const DefaultUploadError: string := "上传失败，请重试"

  /** `getUploadErrorMessage(error)`: the error's own message when it is non-blank text. */
  function UploadErrorMessage(e: Thrown): (r: string)
    ensures (e.WithMessage? && e.message.MessageText? && !Blank(e.message.s)) ==> r == e.message.s
    ensures !(e.WithMessage? && e.message.MessageText? && !Blank(e.message.s)) ==> r == DefaultUploadError
    ensures !Blank(r)
  {
    if e.WithMessage? && e.message.MessageText? && !Blank(e.message.s) then e.message.s
    else
      assert !IsWhiteSpace(DefaultUploadError[0]);
      DefaultUploadError
  }

  /**
   * The text shown under a slot: `uploadError || validateError`, so an upload
   * failure takes precedence over the form's validation message.
   */
  function SlotErrorText(uploadError: Option<string>, validateError: Option<string>): (r: Option<string>)
    ensures uploadError.Some? && uploadError.value != "" ==> r == uploadError
    ensures (uploadError.None? || uploadError.value == "") ==> r == (if validateError.Some? && validateError.value != "" then validateError else None)
    ensures r.Some? ==> r.value != "" && (r == uploadError || r == validateError)
  {
    if uploadError.Some? && uploadError.value != "" then uploadError
    else if validateError.Some? && validateError.value != "" then validateError
    else None
  }

  /** After a failed upload the slot shows the upload error, whatever the validation says. */
  lemma FailedUploadShown(u: Uploader, slot: Slot, reports: seq<Num>, t: Thrown, validateError: Option<string>)
    requires !u.uploading.Get(slot)
    ensures var r := HandleUpload(u, slot, false, reports, Failed(t));
      SlotErrorText(r.errors.Get(slot), validateError) == Some(UploadErrorMessage(t))
  {
  }

  /** The component's own state; `images` is the parent's value it was rendered with. */
  datatype Uploader = Uploader(
    images: Images, uploading: PerSlot<bool>, progress: PerSlot<Num>, errors: PerSlot<Option<string>>)

  /** How the picker and upload behind one `handleUpload` ended. */
  datatype Outcome = Uploaded(url: string) | Failed(thrown: Thrown)

  /** `onProgress` reports applied in order after the reset to 0. */
  function Report(progress: PerSlot<Num>, slot: Slot, reports: seq<Num>): (r: PerSlot<Num>)
    ensures forall o :: o != slot ==> r.Get(o) == progress.Get(o)
    ensures reports == [] ==> r == progress
    ensures reports != [] ==> r.Get(slot) == SafeProgress(reports[|reports| - 1])
  {
    if reports == [] then progress
    else Report(progress, slot, reports[..|reports| - 1]).Set(slot, SafeProgress(reports[|reports| - 1]))
  }

  /**
   * `handleUpload(slot)` run to completion: nothing happens while the
   * uploader is disabled or the slot is busy; otherwise the slot's error is
   * cleared and its progress restarts at 0, and in the end a successful
   * upload puts the new URL in that slot alone, a failed one records the
   * error text, and the slot is no longer busy.
   */
  function HandleUpload(u: Uploader, slot: Slot, disabled: bool, reports: seq<Num>, outcome: Outcome): (r: Uploader)
    ensures disabled || u.uploading.Get(slot) ==> r == u
    ensures !(disabled || u.uploading.Get(slot)) ==>
      && r.uploading == u.uploading
      && (forall o :: o != slot ==> r.progress.Get(o) == u.progress.Get(o) && r.errors.Get(o) == u.errors.Get(o))
      && (outcome.Uploaded? ==> r.images == u.images.Set(slot, outcome.url) && r.errors.Get(slot).None?)
      && (outcome.Failed? ==> r.images == u.images && r.errors.Get(slot) == Some(UploadErrorMessage(outcome.thrown)))
      && r.progress.Get(slot) == (if reports == [] then Finite(0.0) else SafeProgress(reports[|reports| - 1]))
  {
    if disabled || u.uploading.Get(slot) then u
    else
      var started := u.(errors := u.errors.Set(slot, None),
                        progress := u.progress.Set(slot, SafeProgress(Finite(0.0))),
                        uploading := u.uploading.Set(slot, true));
      var reported := started.(progress := Report(started.progress, slot, reports));
      var finished :=
        match outcome
        case Uploaded(url) => reported.(images := reported.images.Set(slot, url))
        case Failed(t) => reported.(errors := reported.errors.Set(slot, Some(UploadErrorMessage(t))));
      assert u.uploading.Set(slot, true).Set(slot, false) == u.uploading;
      finished.(uploading := finished.uploading.Set(slot, false))
  }

  /** `handleDelete(slot)`: when not blocked and confirmed, only that slot is emptied. */
  function HandleDelete(u: Uploader, slot: Slot, disabled: bool, confirmed: bool): (r: Uploader)
    ensures disabled || u.uploading.Get(slot) || !confirmed ==> r == u
    ensures !(disabled || u.uploading.Get(slot)) && confirmed ==>
      r == u.(images := u.images.Set(slot, "")) && r.images.Get(slot) == ""
  {
    if disabled || u.uploading.Get(slot) || !confirmed then u
    else u.(images := u.images.Set(slot, ""))
  }

  /** A delete that went through leaves every other slot's image in place. */
  lemma DeleteKeepsOtherSlots(u: Uploader, slot: Slot, disabled: bool, confirmed: bool, o: Slot)
    requires o != slot
    ensures HandleDelete(u, slot, disabled, confirmed).images.Get(o) == u.images.Get(o)
  {
  }

  /** `[main, detail, qrcode].filter(Boolean)`: the URLs handed to the image previewer. */
  function PreviewUrls(img: Images): (r: seq<string>)
    ensures |r| <= 3
    ensures forall i :: 0 <= i < |r| ==> r[i] != ""
    ensures forall x :: x in r <==> x != "" && (x == img.main || x == img.detail || x == img.qrcode)
    ensures |r| == (if img.main != "" then 1 else 0) + (if img.detail != "" then 1 else 0) + (if img.qrcode != "" then 1 else 0)
  {
    (if img.main != "" then [img.main] else [])
    + (if img.detail != "" then [img.detail] else [])
    + (if img.qrcode != "" then [img.qrcode] else [])
  }

  /** The previewer lists the slots in slot order: a filled main image always comes first. */
  lemma PreviewOrder(img: Images)
    ensures img.main != "" ==> PreviewUrls(img)[0] == img.main
    ensures img.qrcode != "" ==> PreviewUrls(img)[|PreviewUrls(img)| - 1] == img.qrcode
  {
  }

  /** The per-slot validation messages of `validateProductImages`. */
  datatype ImageErrors = ImageErrors(main: Option<string>, qrcode: Option<string>)

  datatype ImageCheck = ImageCheck(valid: bool, errors: ImageErrors)

  /**
   * `validateProductImages(images)`: the outward and QR-code images are
   * required, the detail image is optional; valid exactly when no message was
   * produced.
   */
  function ValidateProductImages(img: Images): (r: ImageCheck)
    ensures r.errors.main.Some? <==> img.main == ""
    ensures r.errors.qrcode.Some? <==> img.qrcode == ""
    ensures r.valid <==> img.main != "" && img.qrcode != ""
    ensures r.valid <==> r.errors == ImageErrors(None, None)
  {
    var errors := ImageErrors(
      if img.main == "" then Some("请上传商品外观图") else None,
      if img.qrcode == "" then Some("请上传燃放效果二维码图") else None);
    ImageCheck(errors.main.None? && errors.qrcode.None?, errors)
  }

  /** The detail image never affects validation. */
  lemma ValidateIgnoresDetail(img: Images, d: string)
    ensures ValidateProductImages(img.(detail := d)) == ValidateProductImages(img)
  {
  }

  /** A successful upload into each required slot makes any image set valid. */
  lemma UploadsMakeValid(u: Uploader, disabled: bool, m: string, q: string)
    requires !disabled && !u.uploading.main && !u.uploading.qrcode && m != "" && q != ""
    ensures var u1 := HandleUpload(u, Main, disabled, [], Uploaded(m));
      var u2 := HandleUpload(u1, QrCode, disabled, [], Uploaded(q));
      ValidateProductImages(u2.images).valid
  {
    var u1 := HandleUpload(u, Main, disabled, [], Uploaded(m));
    assert u1.uploading == u.uploading;
  }

  // ---------------------------------------------------------------------------
  // Overlapping uploads
  // ---------------------------------------------------------------------------

  /**
   * As written, an upload's completion reports `{ ...images, [slot]: url }`
   * built from the images the handler saw when the upload began, and the
   * parent stores that object as is.
   */
  function CompleteAsWritten(seenAtStart: Images, current: Images, slot: Slot, url: string): (r: Images)
    ensures r.Get(slot) == url
    ensures forall o :: o != slot ==> r.Get(o) == seenAtStart.Get(o)
  {
    seenAtStart.Set(slot, url)
  }

  /** As intended: the completion writes its slot into the images current at that moment. */
  function CompleteFixed(seenAtStart: Images, current: Images, slot: Slot, url: string): (r: Images)
    ensures r.Get(slot) == url
    ensures forall o :: o != slot ==> r.Get(o) == current.Get(o)
  {
    current.Set(slot, url)
  }

  /**
   * Two uploads to different slots that overlap (both start from `img`, A
   * finishes first, then B): as written, B's completion wipes out A's new
   * image whenever A's URL differs from what A's slot held before.
   */
  lemma OverlapLosesFirstUpload(img: Images, a: Slot, urlA: string, b: Slot, urlB: string)
    requires a != b && urlA != img.Get(a)
    ensures var afterA := CompleteAsWritten(img, img, a, urlA);
      var afterB := CompleteAsWritten(img, afterA, b, urlB);
      afterB.Get(a) != urlA
  {
  }

  /** With the intended completion, overlapping uploads to different slots both land. */
  lemma OverlapKeepsBothUploads(img: Images, a: Slot, urlA: string, b: Slot, urlB: string)
    requires a != b
    ensures var afterA := CompleteFixed(img, img, a, urlA);
      var afterB := CompleteFixed(img, afterA, b, urlB);
      afterB.Get(a) == urlA && afterB.Get(b) == urlB
      && forall o :: o != a && o != b ==> afterB.Get(o) == img.Get(o)
  {
  }

  /** Without overlap the two completions agree, so `HandleUpload` is the same under both. */
  lemma CompletionsAgreeWhenSequential(img: Images, slot: Slot, url: string)
    ensures CompleteAsWritten(img, img, slot, url) == CompleteFixed(img, img, slot, url)
    ensures CompleteFixed(img, img, slot, url) == img.Set(slot, url)
  {
  }
}
