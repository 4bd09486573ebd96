/**
 * The image pipeline of `services/storage.ts` before the network call:
 * shrinking a picked image below the 2 MB upload limit with a per-slot
 * quality ladder, and naming the object it is stored under in cloud storage.
 * The platform's image compressor and file-size query are a `FileHost`.
 */
module ImageStorage {
  import opened Wrappers
  import opened JsText

  /** The three image slots of a product. */
  datatype Slot = Main | Detail | QrCode {
    /** The slot's name as it appears in object paths. */
    function Name(): (s: string)
      ensures |s| > 0 && '/' !in s && '.' !in s
    {
      match this
      case Main => "main"
      case Detail => "detail"
      case QrCode => "qrcode"
    }

    /** The slot's position in a product's image array. */
    function Index(): (i: nat)
      ensures i < 3
    {
      match this
      case Main => 0
      case Detail => 1
      case QrCode => 2
    }
  }

  const MaxImageSizeBytes: int := 2 * 1024 * 1024

  /**
   * The platform services the pipeline calls: `compress(path, quality)` is the
   * path of the compressed copy or None when compression fails, and
   * `size(path)` is the file's size in bytes or None when it cannot be read.
   */
  datatype FileHost = FileHost(compress: (string, nat) -> Option<string>, size: string -> Option<int>)

  /**
   * Compression qualities tried in order: the QR-code slot stays nearly
   * lossless so that the code still scans; the photos go down to 40.
   */
  function Qualities(slot: Slot): (qs: seq<nat>)
    ensures slot == QrCode ==> qs == [100, 95, 90, 85]
    ensures slot != QrCode ==> qs == [80, 60, 40]
    ensures forall i, j :: 0 <= i < j < |qs| ==> qs[i] > qs[j] > 0
  {
    if slot == QrCode then [100, 95, 90, 85] else [80, 60, 40]
  }

  /** `compressImage(path, quality)`: the compressed copy, or the original when compression fails. */
  function CompressImage(fh: FileHost, path: string, quality: nat): (r: string)
    ensures fh.compress(path, quality).None? ==> r == path
    ensures fh.compress(path, quality).Some? ==> r == fh.compress(path, quality).value
  {
    fh.compress(path, quality).GetOr(path)
  }

  /** The file's size is known and within the limit. */
  predicate Fits(fh: FileHost, path: string) {
    fh.size(path).Some? && fh.size(path).value <= MaxImageSizeBytes
  }

  /** The file's size is known and over the limit. */
  predicate KnownTooLarge(fh: FileHost, path: string) {
    fh.size(path).Some? && fh.size(path).value > MaxImageSizeBytes
  }

  /** The loop over the ladder: the first compressed copy that fits, if any. */
  function FirstFit(fh: FileHost, path: string, qs: seq<nat>): (r: Option<string>)
    ensures r.None? <==> forall i :: 0 <= i < |qs| ==> !Fits(fh, CompressImage(fh, path, qs[i]))
    ensures r.Some? ==> exists i :: (0 <= i < |qs| && r.value == CompressImage(fh, path, qs[i])
      && Fits(fh, r.value)
      && forall j :: 0 <= j < i ==> !Fits(fh, CompressImage(fh, path, qs[j])))
  {
    if qs == [] then None
    else
      var c := CompressImage(fh, path, qs[0]);
      if Fits(fh, c) then Some(c)
      else
        var r := FirstFit(fh, path, qs[1..]);
        assert forall i :: 1 <= i < |qs| ==> qs[1..][i - 1] == qs[i];
        if r.Some? then
          var i :| 0 <= i < |qs| - 1 && r.value == CompressImage(fh, path, qs[1..][i])
            && Fits(fh, r.value)
            && forall j :: 0 <= j < i ==> !Fits(fh, CompressImage(fh, path, qs[1..][j]));
          assert r.value == CompressImage(fh, path, qs[i + 1]);
          r
        else
          r
  }

  /**
   * `compressToUnderLimit(path, slot)`: the first compressed copy on the
   * slot's ladder whose size is known to be within the limit; when none is,
   * an error if the original is known to be over the limit, and otherwise the
   * original path.
   */
  function CompressToUnderLimit(fh: FileHost, path: string, slot: Slot): (r: Result<string, string>)
    ensures FirstFit(fh, path, Qualities(slot)).Some? ==> r == Ok(FirstFit(fh, path, Qualities(slot)).value)
    ensures r.Err? <==> FirstFit(fh, path, Qualities(slot)).None? && KnownTooLarge(fh, path)
    ensures FirstFit(fh, path, Qualities(slot)).None? && !KnownTooLarge(fh, path) ==> r == Ok(path)
  {
    match FirstFit(fh, path, Qualities(slot))
    case Some(c) => Ok(c)
    case None =>
      if KnownTooLarge(fh, path) then Err("图片压缩后仍超过 2MB，请更换图片") else Ok(path)
  }

  /**
   * What goes on to the upload is never a file known to exceed the limit:
   * either a ladder step whose size was checked, or the original whose size
   * is within the limit or could not be read.
   */
  lemma AcceptedNeverKnownTooLarge(fh: FileHost, path: string, slot: Slot)
    requires CompressToUnderLimit(fh, path, slot).Ok?
    ensures var p := CompressToUnderLimit(fh, path, slot).value;
      !KnownTooLarge(fh, p)
      && (Fits(fh, p) || p == path)
      && ((exists i :: 0 <= i < |Qualities(slot)| && p == CompressImage(fh, path, Qualities(slot)[i])) || p == path)
  {
  }

  /** When no compressor works, every step yields the original, so the original alone decides. */
  lemma CompressorDown(fh: FileHost, path: string, slot: Slot)
    requires forall q :: fh.compress(path, q).None?
    ensures CompressToUnderLimit(fh, path, slot)
         == if Fits(fh, path) then Ok(path)
            else if KnownTooLarge(fh, path) then Err("图片压缩后仍超过 2MB，请更换图片")
            else Ok(path)
  {
    var qs := Qualities(slot);
    if Fits(fh, path) {
      assert CompressImage(fh, path, qs[0]) == path;
    }
  }

  // ---------------------------------------------------------------------------
  // Object names
  // ---------------------------------------------------------------------------

  /** `s.split(c).pop()`: the text after the last `c`, or all of `s` when there is none. */
  function AfterLast(s: string, c: char): (r: string)
    ensures |r| <= |s| && r == s[|s| - |r|..]
    ensures c !in r
    ensures |r| < |s| ==> s[|s| - |r| - 1] == c
    ensures c !in s ==> r == s
  {
    if s == [] then []
    else if s[|s| - 1] == c then []
    else
      var r := AfterLast(s[..|s| - 1], c);
      assert s[..|s| - 1][|s| - 1 - |r|..] + [s[|s| - 1]] == s[|s| - |r| - 1..];
      r + [s[|s| - 1]]
  }

  /**
   * The extension as written: `filePath.split('.').pop() || 'jpg'`. With no
   * `.` in the path it is the whole path, directories included.
   */
  function ExtAsWritten(path: string): (ext: string)
    ensures |ext| > 0 && '.' !in ext
    ensures AfterLast(path, '.') != [] ==> ext == AfterLast(path, '.')
    ensures AfterLast(path, '.') == [] ==> ext == "jpg"
    ensures '.' !in path && path != [] ==> ext == path
  {
    var e := AfterLast(path, '.');
    if e == [] then "jpg" else e
  }

  /**
   * The extension as intended: the text after the last `.` of the file name
   * (the part after the last `/`), and `jpg` when the file name has none.
   */
  function ExtFixed(path: string): (ext: string)
    ensures |ext| > 0 && '.' !in ext && '/' !in ext
    ensures var name := AfterLast(path, '/');
      '.' in name && AfterLast(name, '.') != [] ==> ext == AfterLast(name, '.')
    ensures '.' !in AfterLast(path, '/') ==> ext == "jpg"
  {
    var name := AfterLast(path, '/');
    var e := AfterLast(name, '.');
    if '.' !in name || e == [] then "jpg"
    else
      assert e == name[|name| - |e|..];
      assert forall k :: 0 <= k < |e| ==> e[k] == name[|name| - |e| + k];
      e
  }

  /** The extension is the same under both readings whenever the file name itself has one. */
  lemma ExtAgreeOnNamedFiles(path: string)
    requires '/' !in path && AfterLast(path, '.') != [] && '.' in path
    ensures ExtAsWritten(path) == ExtFixed(path)
  {
  }

  /** A temporary path without a dot: the as-written extension drags the whole path, slashes included, into the object name. */
  lemma ExtAsWrittenKeepsDirectories()
    ensures ExtAsWritten("wxfile://tmp_abc") == "wxfile://tmp_abc"
    ensures '/' in ExtAsWritten("wxfile://tmp_abc")
    ensures ExtFixed("wxfile://tmp_abc") == "jpg"
  {
    var p := "wxfile://tmp_abc";
    assert '.' !in p;
    assert AfterLast(p, '.') == p;
    assert ExtAsWritten(p) == p;
    assert p[7] == '/';
    assert AfterLast(p, '/') == "tmp_abc" by {
      assert p[|p| - 8] == '/';
      assert p[|p| - 7..] == "tmp_abc";
    }
  }

  /** The folder part of the object name: `products/{productId}/` or `products/temp/`. */
  function Folder(productId: Option<int>): string {
    "products/" + (if productId.Some? && productId.value != 0 then IntToDecimal(productId.value) else "temp") + "/"
  }

  /** The file-name part before the extension: `{slot}_{timestamp}.`. */
  function Stem(slot: Slot, timestamp: nat): string {
    slot.Name() + "_" + NatToDecimal(timestamp) + "."
  }

  /**
   * `cloudPath`: `products/{productId}/{slot}_{timestamp}.{ext}` when the
   * product id is truthy (a non-zero number), else `products/temp/...`.
   */
  function CloudPath(productId: Option<int>, slot: Slot, timestamp: nat, ext: string): (p: string)
    ensures productId.Some? && productId.value != 0 ==>
      StartsWith(p, "products/" + IntToDecimal(productId.value) + "/")
    ensures !(productId.Some? && productId.value != 0) ==> StartsWith(p, "products/temp/")
    ensures EndsWith(p, "." + ext)
    ensures p == Folder(productId) + slot.Name() + "_" + NatToDecimal(timestamp) + "." + ext
  {
    var f := Folder(productId);
    var st := Stem(slot, timestamp);
    var p := f + st + ext;
    assert p == f + (st + ext);
    assert st == (slot.Name() + "_" + NatToDecimal(timestamp)) + ".";
    assert p == (f + (slot.Name() + "_" + NatToDecimal(timestamp))) + ("." + ext);
    p
  }

  lemma NoSlashInDecimal(n: int)
    ensures Count(IntToDecimal(n), '/') == 0
  {
    var d := NatToDecimal(if n < 0 then -n else n);
    NoCharCount(d, '/');
    if n < 0 {
      CountConcat("-", d, '/');
    }
  }

  lemma {:induction false} NoCharCount(s: string, c: char)
    requires c !in s
    ensures Count(s, c) == 0
  {
    if s != [] {
      NoCharCount(s[1..], c);
    }
  }

  lemma {:induction false} InCharCount(s: string, c: char)
    requires c in s
    ensures Count(s, c) > 0
  {
    if s[0] != c {
      InCharCount(s[1..], c);
    }
  }

  lemma FolderSlashes(productId: Option<int>)
    ensures Count(Folder(productId), '/') == 2
  {
    var dir := if productId.Some? && productId.value != 0 then IntToDecimal(productId.value) else "temp";
    if productId.Some? && productId.value != 0 {
      NoSlashInDecimal(productId.value);
    } else {
      NoCharCount(dir, '/');
    }
    assert Count("products/", '/') == 1 by {
      NoCharCount("products", '/');
      CountConcat("products", "/", '/');
      assert "products" + "/" == "products/";
    }
    CountConcat("products/", dir, '/');
    CountConcat("products/" + dir, "/", '/');
  }

  lemma StemSlashes(slot: Slot, timestamp: nat)
    ensures Count(Stem(slot, timestamp), '/') == 0
  {
    NoCharCount(NatToDecimal(timestamp), '/');
    NoCharCount(Stem(slot, timestamp), '/');
  }

  /** The object name has exactly two `/` of its own; every further one comes from the extension. */
  lemma CloudPathSlashes(productId: Option<int>, slot: Slot, timestamp: nat, ext: string)
    ensures Count(CloudPath(productId, slot, timestamp, ext), '/') == 2 + Count(ext, '/')
  {
    FolderSlashes(productId);
    StemSlashes(slot, timestamp);
    CountConcat(Folder(productId), Stem(slot, timestamp), '/');
    CountConcat(Folder(productId) + Stem(slot, timestamp), ext, '/');
  }

  /** With the intended extension every object lands directly in its product's folder. */
  lemma CloudPathFixedDepth(productId: Option<int>, slot: Slot, timestamp: nat, path: string)
    ensures Count(CloudPath(productId, slot, timestamp, ExtFixed(path)), '/') == 2
  {
    CloudPathSlashes(productId, slot, timestamp, ExtFixed(path));
    NoCharCount(ExtFixed(path), '/');
  }

  /** As written, a dotless temporary path puts the object below extra folders. */
  lemma CloudPathAsWrittenTooDeep(productId: Option<int>, slot: Slot, timestamp: nat)
    ensures Count(CloudPath(productId, slot, timestamp, ExtAsWritten("wxfile://tmp_abc")), '/') > 2
  {
    ExtAsWrittenKeepsDirectories();
    CloudPathSlashes(productId, slot, timestamp, ExtAsWritten("wxfile://tmp_abc"));
    InCharCount(ExtAsWritten("wxfile://tmp_abc"), '/');
  }

  /**
   * The object name under which `uploadToCloud` stores a file, with the
   * intended extension; the remaining steps of the upload are network calls.
   */
  function UploadName(productId: Option<int>, slot: Slot, timestamp: nat, path: string): (p: string)
    ensures Count(p, '/') == 2
    ensures EndsWith(p, "." + ExtFixed(path))
  {
    CloudPathFixedDepth(productId, slot, timestamp, path);
    CloudPath(productId, slot, timestamp, ExtFixed(path))
  }
}
