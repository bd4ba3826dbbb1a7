/**
 * Client-side image normalisation (src/utils/image.js): the scaling rule,
 * the decision whether to re-encode, the fallbacks to the original file and
 * the output file name. Bitmap decoding, canvas drawing and encoding, and
 * reading a file as a data URL are platform calls; the model takes their
 * outcomes as parameters.
 */
module Image {
  import opened Basics
  import Text

  /** A browser File: its name, declared MIME type and bytes. */
  datatype File = File(name: string, mimeType: string, bytes: seq<bv8>)

  function Size(f: File): nat { |f.bytes| }

  datatype Settings = Settings(maxDimension: nat, quality: real, mimeType: string)

  /** DEFAULT_OPTIONS. */
  const DefaultSettings := Settings(720, 0.6, "image/jpeg")

  /** Files above this many bytes are re-encoded even when not scaled (2 MiB). */
  const ReencodeThreshold: nat := 2 * 1024 * 1024

  /** `isImageFile`: the declared type starts with "image/". */
  predicate IsImageFile(f: File) {
    Text.StartsWith(f.mimeType, "image/")
  }

  /** `Math.round` on exact rationals: the nearest integer, halves rounded up. */
  function Round(x: real): (r: int)
    ensures x - 0.5 < r as real <= x + 0.5
  {
    (x + 0.5).Floor
  }

  lemma RoundMonotonic(x: real, y: real)
    requires x <= y
    ensures Round(x) <= Round(y)
  {
  }

  lemma RoundOfInteger(n: int)
    ensures Round(n as real) == n
  {
  }

  function Max(a: int, b: int): int { if a >= b then a else b }

  datatype Dimensions = Dimensions(width: int, height: int, scaled: bool)

  /**
   * `getScaledDimensions`: unchanged when the longest side fits; otherwise
   * both sides scaled by maxDimension / longest side and rounded, so that the
   * longest side becomes maxDimension, neither side exceeds it, and each side
   * is within half a pixel of the exact proportional size.
   */
  function ScaledDimensions(width: nat, height: nat, maxDimension: nat): (d: Dimensions)
    ensures Max(width, height) <= maxDimension ==> d == Dimensions(width, height, false)
    ensures Max(width, height) > maxDimension ==>
      && d.scaled
      && Max(d.width, d.height) == maxDimension
      && 0 <= d.width <= maxDimension && 0 <= d.height <= maxDimension
      && var scale := maxDimension as real / Max(width, height) as real;
         width as real * scale - 0.5 < d.width as real <= width as real * scale + 0.5 &&
         height as real * scale - 0.5 < d.height as real <= height as real * scale + 0.5
  {
    var largestSide := Max(width, height);
    if largestSide <= maxDimension then Dimensions(width, height, false)
    else
      var w := ScaledSide(width, largestSide, maxDimension);
      var h := ScaledSide(height, largestSide, maxDimension);
      assert width == largestSide || height == largestSide;
      Dimensions(w, h, true)
  }

  /** One side scaled by maxDimension / largest and rounded with `Math.round`. */
  function ScaledSide(side: nat, largest: nat, maxDimension: nat): (r: int)
    requires side <= largest && largest > 0
    ensures 0 <= r <= maxDimension
    ensures side == largest ==> r == maxDimension
    ensures var s := side as real * (maxDimension as real / largest as real);
      s - 0.5 < r as real <= s + 0.5
  {
    var q := maxDimension as real / largest as real;
    var s := side as real * q;
    assert q >= 0.0;
    assert largest as real * q == maxDimension as real;
    assert s <= largest as real * q by {
      assert side as real <= largest as real;
    }
    RoundMonotonic(s, maxDimension as real);
    RoundOfInteger(maxDimension);
    RoundMonotonic(0.0, s);
    RoundOfInteger(0);
    Round(s)
  }

  /**
   * Worked example, for documentation: a 4000x3000 photo becomes 720x540.
   * The statement for every input is ScaledDimensions' contract.
   */
  lemma LandscapeExample()
    ensures ScaledDimensions(4000, 3000, 720) == Dimensions(720, 540, true)
  {
    assert 3000.0 * (720.0 / 4000.0) == 540.0;
    RoundOfInteger(540);
    assert ScaledSide(3000, 4000, 720) == 540;
  }

  /** Index of the last '.' or '/' in `s`, or -1. */
  function LastDotOrSlash(s: string): (i: int)
    ensures -1 <= i < |s|
    ensures i >= 0 ==> s[i] == '.' || s[i] == '/'
    ensures forall j :: i < j < |s| ==> s[j] != '.' && s[j] != '/'
  {
    if s == [] then -1
    else if s[|s| - 1] == '.' || s[|s| - 1] == '/' then |s| - 1
    else LastDotOrSlash(s[..|s| - 1])
  }

  /** `name.replace(/\.[^/.]+$/, "")`: drops a final ".ext" whose ext has no '.' or '/'. */
  function StripExtension(name: string): (base: string)
    ensures Text.StartsWith(name, base)
    ensures base == name || (|base| < |name| && name[|base|] == '.' && PlainExtension(name[|base| + 1..]))
  {
    var i := LastDotOrSlash(name);
    if i >= 0 && name[i] == '.' && i < |name| - 1 then name[..i] else name
  }

  predicate PlainExtension(ext: string) {
    ext != "" && forall j :: 0 <= j < |ext| ==> ext[j] != '.' && ext[j] != '/'
  }

  /** Exactly the last plain extension is removed. */
  lemma StripExtensionOfNamed(base: string, ext: string)
    requires PlainExtension(ext)
    ensures StripExtension(base + "." + ext) == base
  {
    var name := base + "." + ext;
    assert forall j :: |base| < j < |name| ==> name[j] == ext[j - |base| - 1];
    assert name[|base|] == '.';
    var i := LastDotOrSlash(name);
    assert i == |base|;
    assert name[..i] == base;
  }

  /** A name without a plain extension is kept whole. */
  lemma StripExtensionOfBare(name: string)
    requires forall j :: 0 <= j < |name| ==> name[j] != '.'
    ensures StripExtension(name) == name
  {
  }

  /** `buildFileName`: the name without its extension, or "meal-photo" when that is empty, plus "." + extension. */
  function BuildFileName(originalName: string, extension: string): (r: string)
    ensures |r| > |extension| && r[|r| - |extension| - 1..] == "." + extension
    ensures var head := r[..|r| - |extension| - 1];
      if originalName == "" || (originalName[0] == '.' && PlainExtension(originalName[1..])) then head == "meal-photo"
      else
        && head != "" && Text.StartsWith(originalName, head)
        && (head == originalName || (originalName[|head|] == '.' && PlainExtension(originalName[|head| + 1..])))
  {
    var base := StripExtension(originalName);
    (if base == "" then "meal-photo" else base) + "." + extension
  }

  /**
   * A name with a plain extension gets the new extension in its place
   * ("photo.png" becomes "photo.jpeg", "a.b.c" becomes "a.b.jpeg"), and a
   * name that is only an extension (".png") becomes "meal-photo" with it.
   */
  lemma BuildFileNameReplacesExtension(base: string, ext: string, extension: string)
    requires PlainExtension(ext)
    ensures BuildFileName(base + "." + ext, extension) == (if base == "" then "meal-photo" else base) + "." + extension
  {
    StripExtensionOfNamed(base, ext);
  }

  /** `mimeType.split("/")[1] || "jpg"`: the text between the first and second '/'. */
  function MimeExtension(mimeType: string): (ext: string)
    ensures ext != ""
  {
    var afterSlash := AfterFirstSlash(mimeType);
    var second := if afterSlash.Some? then UpToSlash(afterSlash.value) else "";
    if second != "" then second else "jpg"
  }

  function AfterFirstSlash(s: string): (r: Option<string>)
    ensures r.Some? ==> |r.value| < |s| && s[|s| - |r.value| - 1] == '/'
  {
    if s == [] then None else if s[0] == '/' then Some(s[1..]) else AfterFirstSlash(s[1..])
  }

  function UpToSlash(s: string): (r: string)
    ensures Text.StartsWith(s, r)
    ensures forall j :: 0 <= j < |r| ==> r[j] != '/'
  {
    if s == [] || s[0] == '/' then [] else [s[0]] + UpToSlash(s[1..])
  }

  predicate NoSlash(s: string) {
    forall j :: 0 <= j < |s| ==> s[j] != '/'
  }

  lemma {:induction false} AfterFirstSlashOf(t: string, rest: string)
    requires NoSlash(t)
    ensures AfterFirstSlash(t + "/" + rest) == Some(rest)
    decreases |t|
  {
    if t == [] {
      assert t + "/" + rest == ['/'] + rest;
    } else {
      assert (t + "/" + rest)[1..] == t[1..] + "/" + rest;
      AfterFirstSlashOf(t[1..], rest);
    }
  }

  lemma {:induction false} NoSlashHasNoAfter(s: string)
    requires NoSlash(s)
    ensures AfterFirstSlash(s) == None
    decreases |s|
  {
    if s != [] {
      NoSlashHasNoAfter(s[1..]);
    }
  }

  lemma {:induction false} UpToSlashOf(sub: string, rest: string)
    requires NoSlash(sub)
    requires rest == [] || rest[0] == '/'
    ensures UpToSlash(sub + rest) == sub
    decreases |sub|
  {
    if sub == [] {
      assert sub + rest == rest;
    } else {
      assert (sub + rest)[1..] == sub[1..] + rest;
      UpToSlashOf(sub[1..], rest);
    }
  }

  /**
   * For a type "t/sub" (optionally followed by more '/'-separated parts) the
   * extension is the subtype; without a subtype it is "jpg".
   */
  lemma MimeExtensionOf(t: string, sub: string, rest: string)
    requires NoSlash(t) && NoSlash(sub)
    requires rest == [] || rest[0] == '/'
    ensures MimeExtension(t + "/" + sub + rest) == if sub != "" then sub else "jpg"
  {
    assert t + "/" + sub + rest == t + "/" + (sub + rest);
    AfterFirstSlashOf(t, sub + rest);
    UpToSlashOf(sub, rest);
  }

  lemma MimeExtensionWithoutSlash(s: string)
    requires NoSlash(s)
    ensures MimeExtension(s) == "jpg"
  {
    NoSlashHasNoAfter(s);
  }

  /** The default output type gives ".jpeg"; a bare "jpeg" falls back to ".jpg". */
  lemma DefaultExtensionIsJpeg()
    ensures MimeExtension(DefaultSettings.mimeType) == "jpeg"
    ensures MimeExtension("jpeg") == "jpg"
  {
    MimeExtensionOf("image", "jpeg", "");
    assert "image" + "/" + "jpeg" + "" == "image/jpeg";
    MimeExtensionWithoutSlash("jpeg");
  }

  // ---- The decision skeleton of downscaleImageFile ----

  /** How the platform decoded the file: an ImageBitmap, or the fallback <img> element. */
  datatype Decoded =
    | Bitmap(width: nat, height: nat)
    | ElementLoaded(width: nat, height: nat)
    | ElementFailed(message: string)

  /** Loading the <img> element again to draw it (used only without a bitmap). */
  datatype Redraw = Redrawn | RedrawFailed(message: string)

  /** The outcome of `canvas.toBlob`. */
  datatype Encoded = Blob(bytes: seq<bv8>) | NoBlob | ToBlobUnsupported

  datatype Normalized = Normalized(file: File, previewUrl: string)

  /** Attaching the data-URL preview of `f`; a read failure propagates. */
  function WithPreview(f: File, readAsDataUrl: File -> Result<string, string>): Result<Normalized, string> {
    match readAsDataUrl(f)
    case Ok(url) => Ok(Normalized(f, url))
    case Err(e) => Err(e)
  }

  /** Whether a decoded image of this size is drawn and re-encoded. */
  predicate NeedsReencode(f: File, width: nat, height: nat, settings: Settings) {
    ScaledDimensions(width, height, settings.maxDimension).scaled || Size(f) > ReencodeThreshold
  }

  /** The file a successful encode produces. */
  function EncodedFile(f: File, settings: Settings, bytes: seq<bv8>): (out: File)
    ensures out.mimeType == settings.mimeType
    ensures out.name == BuildFileName(f.name, MimeExtension(settings.mimeType))
  {
    File(BuildFileName(f.name, MimeExtension(settings.mimeType)), settings.mimeType, bytes)
  }

  /**
   * `downscaleImageFile`. `canvas` is the size the image was drawn at when a
   * re-encode was attempted. Encoding failures fall back to the original
   * file; only decoding the fallback element or reading the preview fails.
   */
  method DownscaleImageFile(
    file: File, settings: Settings, decoded: Decoded, redraw: Redraw, encoded: Encoded,
    readAsDataUrl: File -> Result<string, string>)
    returns (r: Result<Normalized, string>, canvas: Option<Dimensions>)
    ensures !IsImageFile(file) ==> r == WithPreview(file, readAsDataUrl) && canvas.None?
    ensures IsImageFile(file) && decoded.ElementFailed? ==> r == Err(decoded.message) && canvas.None?
    ensures IsImageFile(file) && !decoded.ElementFailed? && (decoded.width == 0 || decoded.height == 0) ==>
      r == WithPreview(file, readAsDataUrl) && canvas.None?
    ensures IsImageFile(file) && !decoded.ElementFailed? && decoded.width > 0 && decoded.height > 0 ==>
      var target := ScaledDimensions(decoded.width, decoded.height, settings.maxDimension);
      if !NeedsReencode(file, decoded.width, decoded.height, settings) then
        r == WithPreview(file, readAsDataUrl) && canvas.None?
      else if decoded.ElementLoaded? && redraw.RedrawFailed? then
        r == Err(redraw.message) && canvas == Some(target)
      else if encoded.Blob? then
        r == WithPreview(EncodedFile(file, settings, encoded.bytes), readAsDataUrl) && canvas == Some(target)
      else
        r == WithPreview(file, readAsDataUrl) && canvas == Some(target)
  {
    canvas := None;
    if !IsImageFile(file) {
      r := WithPreview(file, readAsDataUrl);
      return;
    }

    var width: nat;
    var height: nat;
    match decoded {
      case Bitmap(w, h) =>
        width, height := w, h;
      case ElementLoaded(w, h) =>
        width, height := w, h;
      case ElementFailed(message) =>
        r := Err(message);
        return;
    }

    if width == 0 || height == 0 {
      r := WithPreview(file, readAsDataUrl);
      return;
    }

    var target := ScaledDimensions(width, height, settings.maxDimension);
    var outputFile := file;

    if target.scaled || Size(file) > ReencodeThreshold {
      canvas := Some(target);
      if decoded.ElementLoaded? && redraw.RedrawFailed? {
        r := Err(redraw.message);
        return;
      }
      match encoded {
        case Blob(bytes) =>
          outputFile := EncodedFile(file, settings, bytes);
        case _ =>
          outputFile := file;
      }
    }

    r := WithPreview(outputFile, readAsDataUrl);
  }

  /** A small image is never re-encoded: the caller gets the very same file back. */
  lemma SmallImageUntouched(file: File, settings: Settings, width: nat, height: nat)
    requires Max(width, height) <= settings.maxDimension && Size(file) <= ReencodeThreshold
    ensures !NeedsReencode(file, width, height, settings)
  {
  }
}
