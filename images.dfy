/** The integer geometry and string logic of image normalisation: the MIME
    type sent with a render (`getSafeMimeType`), the bounding-box
    arithmetic of the resize step inside `fileToBase64`, and the upload
    filter with its cap of ten images (`addFiles`). Pixel decoding, canvas
    drawing and JPEG encoding are not part of this model. */
module ImageNormalization {
  import opened Wrappers
  import opened JsText

  // ---------------------------------------------------------------------
  // MIME type resolution
  // ---------------------------------------------------------------------

  /** The lookup table of file extensions, read as own properties only. */
  function ExtensionMime(ext: string): Option<string>
  {
    if ext == "jpg" || ext == "jpeg" then Some("image/jpeg")
    else if ext == "png" then Some("image/png")
    else if ext == "webp" then Some("image/webp")
    else if ext == "gif" then Some("image/gif")
    else None
  }

  /** The extension `getSafeMimeType` and `addFiles` look at: the text
      after the last `.` of the name (a missing name reads as ""),
      lower-cased. */
  function Extension(fileName: string): string
  {
    LowerAscii(LastSegment(fileName))
  }

  /** `fileType.startsWith("image/")`. */
  predicate IsImageType(t: string)
  {
    StartsWith(t, "image/")
  }

  /** `getSafeMimeType(file)` with the table lookup restricted to the
      table's own entries (the intended behaviour; see `SafeMimeTypeAsWritten`
      for the plain-object lookup the code performs). A missing `type`
      reads as "". */
  function SafeMimeType(fileType: string, fileName: string): (r: string)
    ensures IsImageType(r)
    ensures r != "image/heic" && r != "image/heif"
  {
    if fileType != "" && IsImageType(fileType) then
      if fileType == "image/heic" || fileType == "image/heif" then "image/jpeg" else fileType
    else MimeForExtension(Extension(fileName))
  }

  /** `map[ext] || "image/jpeg"` with an own-property lookup. */
  function MimeForExtension(ext: string): (r: string)
    ensures IsImageType(r)
    ensures r != "image/heic" && r != "image/heif"
  {
    match ExtensionMime(ext)
    case Some(m) => m
    case None => "image/jpeg"
  }

  /** A declared image type other than HEIC/HEIF is passed through, the
      two HEIF containers are relabelled as JPEG, and the name is then
      irrelevant. */
  lemma DeclaredTypeWins(fileType: string, fileName: string)
    requires IsImageType(fileType)
    ensures SafeMimeType(fileType, fileName)
      == (if fileType in {"image/heic", "image/heif"} then "image/jpeg" else fileType)
  {
  }

  /** Without a declared image type the lower-cased extension after the
      last `.` decides: the five table entries map to their types and
      everything else falls back to JPEG. (A name without any `.` is its
      own extension.) */
  lemma ExtensionDecides(fileType: string, base: string, ext: string)
    requires !IsImageType(fileType) && '.' !in ext
    ensures var r := SafeMimeType(fileType, base + "." + ext);
      && (LowerAscii(ext) in {"jpg", "jpeg"} ==> r == "image/jpeg")
      && (LowerAscii(ext) == "png" ==> r == "image/png")
      && (LowerAscii(ext) == "webp" ==> r == "image/webp")
      && (LowerAscii(ext) == "gif" ==> r == "image/gif")
      && (LowerAscii(ext) !in {"jpg", "jpeg", "png", "webp", "gif"} ==> r == "image/jpeg")
  {
    LastSegmentAfterDot(base, ext);
  }

  /** Letter case in the file name never matters. */
  lemma NameCaseIgnored(fileType: string, fileName: string)
    ensures SafeMimeType(fileType, LowerAscii(fileName)) == SafeMimeType(fileType, fileName)
  {
    LastSegmentLower(fileName);
    LowerAsciiIdempotent(LastSegment(fileName));
  }

  /** Resolving an already resolved type again, under any name, changes
      nothing: the result is a safe type in its own right. */
  lemma SafeMimeTypeStable(fileType: string, fileName: string, otherName: string)
    ensures var r := SafeMimeType(fileType, fileName);
      SafeMimeType(r, otherName) == r
  {
  }

  /** `map[ext]` on the object literal `{ jpg: …, gif: … }`: own entries
      first, then the prototype chain. */
  function PlainObjectLookup(ext: string): (v: JsValue)
    ensures v.Undefined? <==> ExtensionMime(ext).None? && ext !in ObjectPrototypeMembers
  {
    match ExtensionMime(ext)
    case Some(m) => Str(m)
    case None => if ext in ObjectPrototypeMembers then Inherited(ext) else Undefined
  }

  /** `getSafeMimeType(file)` as written, with the plain-object lookup. */
  function SafeMimeTypeAsWritten(fileType: string, fileName: string): (v: JsValue)
    ensures !v.Str? ==> v.Inherited? && Extension(fileName) in ObjectPrototypeMembers
  {
    if fileType != "" && IsImageType(fileType) then
      Str(if fileType == "image/heic" || fileType == "image/heif" then "image/jpeg" else fileType)
    else
      OrElse(PlainObjectLookup(Extension(fileName)), "image/jpeg")
  }

  /** The code as written agrees with `SafeMimeType` whenever the
      extension does not name an inherited member. */
  lemma AsWrittenAgrees(fileType: string, fileName: string)
    requires Extension(fileName) !in ObjectPrototypeMembers
    ensures SafeMimeTypeAsWritten(fileType, fileName) == Str(SafeMimeType(fileType, fileName))
  {
    if !(fileType != "" && IsImageType(fileType)) {
      OwnLookupAgrees(Extension(fileName));
    }
  }

  /** For a name `Object.prototype` does not define, the plain-object
      lookup sees only the table's own entries. */
  lemma OwnLookupAgrees(ext: string)
    requires ext !in ObjectPrototypeMembers
    ensures OrElse(PlainObjectLookup(ext), "image/jpeg") == Str(MimeForExtension(ext))
  {
    match ExtensionMime(ext) {
      case Some(m) =>
        assert MimeForExtension(ext) == m;
        assert |m| >= 6;
      case None =>
    }
  }

  /** A file with no declared type named, say, `render.constructor` makes
      the code as written return `Object` itself instead of a MIME string
      (`render.__proto__` returns `Object.prototype`), where the intended
      lookup falls back to JPEG. */
  lemma InheritedExtensionLeaks(base: string, ext: string)
    requires ext == "constructor" || ext == "__proto__"
    ensures SafeMimeTypeAsWritten("", base + "." + ext) == Inherited(ext)
    ensures SafeMimeType("", base + "." + ext) == "image/jpeg"
  {
    LastSegmentAfterDot(base, ext);
    LowerCaseNames();
    assert Extension(base + "." + ext) == ext;
    assert ExtensionMime(ext) == None;
  }

  lemma LowerCaseNames()
    ensures LowerAscii("constructor") == "constructor"
    ensures LowerAscii("__proto__") == "__proto__"
  {
    assert forall i :: 0 <= i < 11 ==> LowerChar("constructor"[i]) == "constructor"[i];
    assert forall i :: 0 <= i < 9 ==> LowerChar("__proto__"[i]) == "__proto__"[i];
  }

  // ---------------------------------------------------------------------
  // Resize arithmetic
  // ---------------------------------------------------------------------

  /** `MAX_PX`: the longest side a render is sent with. */
  const MaxPx: nat := 1024

  datatype Dimensions = Dimensions(width: nat, height: nat)

  /** "Image has zero dimensions." */
  datatype ResizeError = ZeroDimensions

  /** `r` is `Math.round(num / den)`: the nearest integer, halves rounded
      up. */
  predicate RoundsTo(r: int, num: int, den: int)
  {
    2 * r * den <= 2 * num + den < 2 * r * den + 2 * den
  }

  function RoundHalfUp(num: nat, den: nat): (r: nat)
    requires den > 0
    ensures RoundsTo(r, num, den)
  {
    (2 * num + den) / (2 * den)
  }

  /** The bounding-box step of `fileToBase64`: a zero side is rejected;
      an image already within 1024×1024 keeps its size; otherwise the
      longer side (the width on a tie) becomes 1024 and the other side is
      scaled by the same factor and rounded. */
  method FitWithin(width: nat, height: nat) returns (r: Result<Dimensions, ResizeError>)
    ensures r.Failure? <==> width == 0 || height == 0
    ensures r.Success? && width <= MaxPx && height <= MaxPx ==>
      r.value == Dimensions(width, height)
    ensures r.Success? && (width > MaxPx || height > MaxPx) && width >= height ==>
      r.value.width == MaxPx && RoundsTo(r.value.height, height * MaxPx, width)
    ensures r.Success? && (width > MaxPx || height > MaxPx) && width < height ==>
      r.value.height == MaxPx && RoundsTo(r.value.width, width * MaxPx, height)
    ensures r.Success? ==>
      && r.value.width <= MaxPx && r.value.height <= MaxPx
      && r.value.width <= width && r.value.height <= height
  {
    if width == 0 || height == 0 {
      return Failure(ZeroDimensions);
    }
    var w, h := width, height;
    if w > MaxPx || h > MaxPx {
      if w >= h {
        h := RoundHalfUp(h * MaxPx, w);
        ScaledNotLarger(height, width);
        w := MaxPx;
      } else {
        w := RoundHalfUp(w * MaxPx, h);
        ScaledNotLarger(width, height);
        h := MaxPx;
      }
    }
    return Success(Dimensions(w, h));
  }

  /** Scaling the shorter side by `1024 / longer` (with `longer > 1024`)
      neither exceeds 1024 nor enlarges it. */
  lemma ScaledNotLarger(short: nat, long: nat)
    requires 0 < short <= long && long > MaxPx
    ensures RoundHalfUp(short * MaxPx, long) <= MaxPx
    ensures RoundHalfUp(short * MaxPx, long) <= short
  {
    var r := RoundHalfUp(short * MaxPx, long);
    assert r * (2 * long) <= 2 * short * MaxPx + long;
    MulLe(short, long, 2 * MaxPx);
    assert r * (2 * long) < (MaxPx + 1) * (2 * long);
    MulLtCancel(r, MaxPx + 1, 2 * long);
    MulLe(MaxPx, long, 2 * short);
    assert r * (2 * long) < (short + 1) * (2 * long);
    MulLtCancel(r, short + 1, 2 * long);
  }

  lemma MulLe(a: int, b: int, c: int)
    requires a <= b && 0 <= c
    ensures a * c <= b * c
  {
  }

  lemma MulLtCancel(x: int, y: int, c: int)
    requires c > 0 && x * c < y * c
    ensures x < y
  {
  }

  /** `RoundsTo` has one solution: the rounded value is determined, so the
      contract of `FitWithin` fixes both sides of its result. */
  lemma RoundsToUnique(r1: int, r2: int, num: int, den: int)
    requires den > 0 && RoundsTo(r1, num, den) && RoundsTo(r2, num, den)
    ensures r1 == r2
  {
    if r1 < r2 {
      MulLe(r1 + 1, r2, 2 * den);
    } else if r2 < r1 {
      MulLe(r2 + 1, r1, 2 * den);
    }
  }

  /** The two sizes quoted for the resize step: 2000×1000 becomes
      1024×512 and 500×400 is left alone. A method, because `FitWithin`
      is one; the value 512 follows from the contract of `FitWithin`
      through `RoundsToUnique`. */
  method ResizeExamples()
  {
    var a := FitWithin(2000, 1000);
    assert a.value.height == 512 by {
      assert RoundsTo(512, 1000 * MaxPx, 2000);
      RoundsToUnique(a.value.height, 512, 1000 * MaxPx, 2000);
    }
    assert a == Success(Dimensions(1024, 512));
    var b := FitWithin(500, 400);
    assert b == Success(Dimensions(500, 400));
  }

  // ---------------------------------------------------------------------
  // Upload filter and the ten-image cap
  // ---------------------------------------------------------------------

  /** What `addFiles` can see of a dropped or picked file: whether it is a
      `Blob`, its size, its declared type ("" when missing) and its name
      ("" when missing). */
  datatype FileInfo = FileInfo(isBlob: bool, size: nat, fileType: string, name: string)

  const KnownExtensions: set<string> := {"jpg", "jpeg", "png", "webp", "gif", "heic", "heif"}

  /** The filter of `addFiles`: a non-empty `Blob` that declares an image
      type, has a known image extension, or declares no type at all. */
  predicate IsAcceptedUpload(f: FileInfo)
  {
    && f.isBlob && f.size != 0
    && (IsImageType(f.fileType) || Extension(f.name) in KnownExtensions || f.fileType == "")
  }

  function Accepted(files: seq<FileInfo>): (r: seq<FileInfo>)
    ensures |r| <= |files|
    ensures forall f :: f in r <==> f in files && IsAcceptedUpload(f)
  {
    if files == [] then []
    else if IsAcceptedUpload(files[0]) then [files[0]] + Accepted(files[1..])
    else Accepted(files[1..])
  }

  /** One thumbnail of the upload tray before its base64 conversion
      finishes: the file's name (`render.jpg` when it has none), not yet
      ready. */
  datatype ImageEntry = ImageEntry(name: string, ready: bool)

  function EntryFor(f: FileInfo): ImageEntry
  {
    ImageEntry(if f.name == "" then "render.jpg" else f.name, false)
  }

  function Entries(files: seq<FileInfo>): (r: seq<ImageEntry>)
    ensures |r| == |files|
    ensures forall i :: 0 <= i < |files| ==> r[i] == EntryFor(files[i])
  {
    seq(|files|, i requires 0 <= i < |files| => EntryFor(files[i]))
  }

  /** The two messages `addFiles` can leave: nothing usable among a
      non-empty drop, or the tray already full. */
  datatype UploadError = NoValidFiles | TooMany

  const MaxImages: nat := 10

  /** The tray after appending `entries` one at a time, each only while
      fewer than ten images are held. */
  function Capped(images: seq<ImageEntry>, entries: seq<ImageEntry>): seq<ImageEntry>
  {
    if |images| >= MaxImages then images
    else images + entries[..Min(|entries|, MaxImages - |images|)]
  }

  function Min(a: int, b: int): int
  {
    if a <= b then a else b
  }

  /** The upload tray of the new-estimate form. */
  class ImageTray {
    var images: seq<ImageEntry>
    var error: Option<UploadError>

    constructor ()
      ensures images == [] && error == None
    {
      images := [];
      error := None;
    }

    /** `addFiles(files)`: keep the acceptable files, then append one
        entry per file while fewer than ten are held, reporting the cap
        for every file turned away. */
    method AddFiles(files: seq<FileInfo>)
      modifies this
      ensures var valid := Accepted(files);
        && images == Capped(old(images), Entries(valid))
        && (valid == [] && files != [] ==> error == Some(NoValidFiles))
        && (valid != [] && |old(images)| + |valid| > MaxImages ==> error == Some(TooMany))
        && (((valid == [] && files == []) || (valid != [] && |old(images)| + |valid| <= MaxImages))
              ==> error == old(error))
    {
      var valid := Accepted(files);
      if |valid| == 0 {
        if |files| > 0 {
          error := Some(NoValidFiles);
        }
        return;
      }
      var entries := Entries(valid);
      var i := 0;
      ghost var start := images;
      while i < |entries|
        invariant 0 <= i <= |entries|
        invariant images == Capped(start, entries[..i])
        invariant error == (if i > 0 && |start| + i > MaxImages then Some(TooMany) else old(error))
      {
        if |images| >= MaxImages {
          error := Some(TooMany);
        } else {
          images := images + [entries[i]];
        }
        CappedStep(start, entries, i);
        i := i + 1;
      }
      assert entries[..|entries|] == entries;
    }
  }

  lemma CappedStep(images: seq<ImageEntry>, entries: seq<ImageEntry>, i: nat)
    requires i < |entries|
    ensures var c := Capped(images, entries[..i]);
      Capped(images, entries[..i + 1])
        == if |c| >= MaxImages then c else c + [entries[i]]
  {
    var c := Capped(images, entries[..i]);
    if |images| < MaxImages {
      var k := Min(i, MaxImages - |images|);
      assert c == images + entries[..k];
      if i < MaxImages - |images| {
        assert entries[..i + 1][..i + 1] == entries[..i][..i] + [entries[i]];
      } else {
        assert entries[..i + 1][..MaxImages - |images|] == entries[..i][..MaxImages - |images|];
      }
    }
  }

  /** The tray never grows past ten images through `addFiles`, and every
      image already held stays in place. */
  lemma CappedBounded(images: seq<ImageEntry>, entries: seq<ImageEntry>)
    requires |images| <= MaxImages
    ensures var c := Capped(images, entries);
      && |c| <= MaxImages
      && c[..|images|] == images
      && |c| == Min(|images| + |entries|, MaxImages)
  {
  }
}
