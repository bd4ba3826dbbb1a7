/**
 * The upload helpers of the backend (backend/api/utils.py): the extension
 * check on a submitted file name, and the unique name and path under which
 * an upload is stored. `secure_filename` and `uuid4().hex` are inputs: the
 * sanitised name and the hex string are given.
 */
module BackendUtils {
  import Text

  const AllowedExtensions: set<string> := {"png", "jpg", "jpeg", "gif", "bmp"}

  /** No occurrence of `c` in `s`. */
  predicate Lacks(s: string, c: char) {
    forall i :: 0 <= i < |s| ==> s[i] != c
  }

  /** `rfind(c)`: the index of the last `c`, or -1 when there is none. */
  function LastIndexOf(s: string, c: char): (k: int)
    ensures -1 <= k < |s|
    ensures k == -1 <==> Lacks(s, c)
    ensures k >= 0 ==> s[k] == c && forall j :: k < j < |s| ==> s[j] != c
    decreases |s|
  {
    if s == [] then -1
    else if s[|s| - 1] == c then |s| - 1
    else
      var init := s[..|s| - 1];
      var k := LastIndexOf(init, c);
      assert forall j :: 0 <= j < |init| ==> init[j] == s[j];
      k
  }

  /** Nothing after the last `c` is a `c`. */
  lemma AfterLastLacks(s: string, c: char)
    requires LastIndexOf(s, c) >= 0
    ensures Lacks(s[LastIndexOf(s, c) + 1..], c)
  {
    var k := LastIndexOf(s, c);
    var after := s[k + 1..];
    forall j | 0 <= j < |after|
      ensures after[j] != c
    {
      assert after[j] == s[k + 1 + j];
    }
  }

  /** The last occurrence of `c` is the one right before a tail without `c`. */
  lemma LastIndexBeforeTail(head: string, c: char, tail: string)
    requires Lacks(tail, c)
    ensures LastIndexOf(head + [c] + tail, c) == |head|
  {
    var s := head + [c] + tail;
    assert s[|head|] == c;
    assert s[|head| + 1..] == tail;
  }

  /** `filename.rsplit(".", 1)[1]`: the text after the last dot (only asked for when there is a dot). */
  function Extension(filename: string): (ext: string)
    ensures Lacks(ext, '.')
  {
    var k := LastIndexOf(filename, '.');
    if k >= 0 then
      AfterLastLacks(filename, '.');
      filename[k + 1..]
    else filename
  }

  /** `allowed_file`: a dot, and the text after the last one is an allowed extension in any case. */
  predicate AllowedFile(filename: string) {
    !Lacks(filename, '.') && Text.Lower(Extension(filename)) in AllowedExtensions
  }

  /** A name without a dot is refused. */
  lemma NoDotRefused(filename: string)
    requires Lacks(filename, '.')
    ensures !AllowedFile(filename)
  {
  }

  /** Only the text after the last dot counts, and its letter case does not. */
  lemma AllowedByLastExtension(base: string, ext: string)
    requires Lacks(ext, '.')
    ensures AllowedFile(base + "." + ext) <==> Text.Lower(ext) in AllowedExtensions
  {
    LastIndexBeforeTail(base, '.', ext);
    assert (base + "." + ext)[|base| + 1..] == ext;
  }

  /** Lowercasing keeps a string free of dots. */
  lemma LowerLacksDot(s: string)
    requires Lacks(s, '.')
    ensures Lacks(Text.Lower(s), '.')
  {
  }

  /**
   * `Path(name).suffix` for a name without separators: from the last dot to
   * the end, when that dot is neither the first nor the last character.
   */
  function PathSuffix(name: string): (suffix: string)
    ensures suffix == "" || (|suffix| >= 2 && suffix[0] == '.' && Lacks(suffix[1..], '.'))
  {
    var i := LastIndexOf(name, '.');
    if 0 < i < |name| - 1 then
      AfterLastLacks(name, '.');
      assert name[i..][1..] == name[i + 1..];
      name[i..]
    else ""
  }

  const DefaultSuffix := ".jpg"

  /** The stored name: "meal_", the hex string, and the lowercased suffix or ".jpg". */
  function StoredName(sanitized: string, hex: string): (name: string)
    ensures |name| > 5 && name[..5] == "meal_"
  {
    var suffix := PathSuffix(sanitized);
    "meal_" + hex + Text.Lower(if suffix != "" then suffix else DefaultSuffix)
  }

  /** `uuid4().hex`: 32 lowercase hexadecimal digits. */
  predicate IsHex32(hex: string) {
    |hex| == 32 && forall i :: 0 <= i < 32 ==> Text.IsDigit(hex[i]) || 'a' <= hex[i] <= 'f'
  }

  /** The extension a stored name ends with: the suffix without its dot, or "jpg". */
  function StoredExtension(sanitized: string): (ext: string)
    ensures Lacks(ext, '.')
    ensures Lacks(sanitized, '/') ==> Lacks(ext, '/')
  {
    var suffix := PathSuffix(sanitized);
    if suffix != "" then
      var i := LastIndexOf(sanitized, '.');
      assert suffix[1..] == sanitized[i + 1..];
      suffix[1..]
    else "jpg"
  }

  lemma LowerOfDotted(rest: string)
    ensures Text.Lower("." + rest) == "." + Text.Lower(rest)
  {
    var l := Text.Lower("." + rest);
    assert forall i :: 0 <= i < |l| ==> l[i] == ("." + Text.Lower(rest))[i];
  }

  /** A stored name is "meal_", the hex string, a dot and the lowercased extension. */
  lemma StoredNameParts(sanitized: string, hex: string)
    ensures StoredName(sanitized, hex) == "meal_" + hex + "." + Text.Lower(StoredExtension(sanitized))
  {
    var suffix := PathSuffix(sanitized);
    var chosen := if suffix != "" then suffix else DefaultSuffix;
    assert chosen == "." + StoredExtension(sanitized);
    LowerOfDotted(StoredExtension(sanitized));
  }

  /**
   * A stored name passes `allowed_file` exactly when the sanitised name's
   * suffix is empty (it then ends in ".jpg") or is itself an allowed
   * extension.
   */
  lemma StoredNameAllowed(sanitized: string, hex: string)
    requires IsHex32(hex)
    ensures AllowedFile(StoredName(sanitized, hex)) <==>
      PathSuffix(sanitized) == "" || Text.Lower(PathSuffix(sanitized)[1..]) in AllowedExtensions
  {
    var ext := StoredExtension(sanitized);
    StoredNameParts(sanitized, hex);
    LowerLacksDot(ext);
    AllowedByLastExtension("meal_" + hex, Text.Lower(ext));
    Text.LowerIdempotent(ext);
    if PathSuffix(sanitized) == "" {
      assert Text.Lower("jpg") == "jpg";
    }
  }

  /** `upload_path / unique_name`, for a folder written without a trailing separator. */
  function StoredPath(folder: string, sanitized: string, hex: string): (path: string)
    ensures Text.StartsWith(path, folder + "/")
    ensures IsHex32(hex) && Lacks(sanitized, '/') ==> BaseName(path) == StoredName(sanitized, hex)
  {
    var name := StoredName(sanitized, hex);
    if IsHex32(hex) && Lacks(sanitized, '/') then
      StoredNameLacksSlash(sanitized, hex);
      LastIndexBeforeTail(folder, '/', name);
      assert (folder + "/" + name)[|folder| + 1..] == name;
      folder + "/" + name
    else folder + "/" + name
  }

  /** `Path(p).name`: the text after the last "/". */
  function BaseName(path: string): (name: string)
    ensures Lacks(name, '/')
  {
    var k := LastIndexOf(path, '/');
    if k >= 0 then path[k + 1..] else path
  }

  /** Lowercasing keeps a string free of slashes. */
  lemma LowerLacksSlash(s: string)
    requires Lacks(s, '/')
    ensures Lacks(Text.Lower(s), '/')
  {
  }

  /** The stored name has no separator when the sanitised name has none. */
  lemma StoredNameLacksSlash(sanitized: string, hex: string)
    requires IsHex32(hex) && Lacks(sanitized, '/')
    ensures Lacks(StoredName(sanitized, hex), '/')
  {
    var name := StoredName(sanitized, hex);
    var lowered := Text.Lower(StoredExtension(sanitized));
    StoredNameParts(sanitized, hex);
    LowerLacksSlash(StoredExtension(sanitized));
    forall j | 0 <= j < |name|
      ensures name[j] != '/'
    {
      if j > 5 + |hex| {
        assert name[j] == lowered[j - 6 - |hex|];
      }
    }
  }
}
