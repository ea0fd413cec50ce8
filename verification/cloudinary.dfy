/**
 * Upload validation and cloud-delete guards (config/cloudinary.js).
 * The image host itself is out of reach; its answers are parameters.
 */
module Cloudinary {
  import opened Base
  import opened Text

  const RejectionMessage: string := "Only image files are allowed!"

  /** `split('.').pop()`: the text after the last `.`, or all of it when there is none. */
  function LastSegment(s: string): (r: string)
    ensures |r| <= |s| && r == s[|s| - |r|..]
    ensures '.' !in r
    ensures |r| < |s| ==> s[|s| - |r| - 1] == '.'
  {
    if |s| == 0 then ""
    else if s[|s| - 1] == '.' then ""
    else LastSegment(s[..|s| - 1]) + [s[|s| - 1]]
  }

  /** The unanchored test `/jpeg|jpg|png|webp|gif/`. */
  predicate AllowedType(s: string) {
    Contains(s, "jpeg") || Contains(s, "jpg") || Contains(s, "png") || Contains(s, "webp") || Contains(s, "gif")
  }

  /** What the upload middleware decides for one incoming file. */
  datatype Verdict = Accepted | Rejected(message: string)

  /** `fileFilter`: the lowered extension and the mimetype must both name an image type. */
  function FileFilter(originalName: string, mimetype: string): (v: Verdict)
    ensures v.Accepted? <==> AllowedType(LastSegment(ToLowerAscii(originalName))) && AllowedType(mimetype)
    ensures v.Rejected? ==> v.message == RejectionMessage
  {
    if AllowedType(LastSegment(ToLowerAscii(originalName))) && AllowedType(mimetype) then Accepted
    else Rejected(RejectionMessage)
  }

  /** The segment after a final `.` is what `LastSegment` returns. */
  lemma {:induction false} LastSegmentAfterDot(base: string, ext: string)
    requires '.' !in ext
    ensures LastSegment(base + "." + ext) == ext
    decreases |ext|
  {
    var s := base + "." + ext;
    if |ext| > 0 {
      var init := ext[..|ext| - 1];
      assert s[..|s| - 1] == base + "." + init;
      LastSegmentAfterDot(base, init);
      assert ext == init + [ext[|ext| - 1]];
    }
  }

  /** Lowering works character by character, so it distributes over concatenation. */
  lemma LowerAppend(a: string, b: string)
    ensures ToLowerAscii(a + b) == ToLowerAscii(a) + ToLowerAscii(b)
  {
  }

  /**
   * The test is unanchored: any lower-case extension that merely holds an
   * allowed name (`photo.jpgz`, `x.notpng`) passes, whatever precedes it.
   */
  lemma ExtensionHoldingTypeAccepted(base: string, ext: string, mimetype: string)
    requires '.' !in ext && forall i :: 0 <= i < |ext| ==> !IsUpperAscii(ext[i])
    requires AllowedType(ext) && AllowedType(mimetype)
    ensures FileFilter(base + "." + ext, mimetype).Accepted?
  {
    LowerAppend(base + ".", ext);
    LowerAppend(base, ".");
    assert ToLowerAscii(".") == ".";
    assert ToLowerAscii(ext) == ext;
    LastSegmentAfterDot(ToLowerAscii(base), ext);
  }

  /**
   * `replace(/\.[^/.]+$/, '')`: strips a final `.ext` when the extension is
   * non-empty and holds neither `/` nor `.`; otherwise the name is unchanged.
   */
  function StripExtension(name: string): (r: string)
    ensures r == name || (|r| < |name| && name[..|r|] == r && name[|r|] == '.')
    ensures r != name ==> |name| - |r| >= 2 && forall j :: |r| < j < |name| ==> name[j] != '/' && name[j] != '.'
    ensures r == name ==> forall i :: 0 <= i < |name| - 1 && name[i] == '.' ==> exists j :: i < j < |name| && (name[j] == '/' || name[j] == '.')
  {
    var i := LastIndexOf(name, '.');
    if 0 <= i < |name| - 1 && '/' !in name[i + 1..] then
      name[..i]
    else
      assert forall k :: 0 <= k < |name| - 1 && name[k] == '.' && k != i ==> k < i && name[i] == '.';
      assert 0 <= i < |name| - 1 ==> exists j :: i < j < |name| && name[j] == '/' by {
        if 0 <= i < |name| - 1 {
          var j :| 0 <= j < |name[i + 1..]| && name[i + 1..][j] == '/';
          assert name[i + 1 + j] == '/';
        }
      }
      name
  }

  /** A name without a dot is its own base. */
  lemma NoDotUnchanged(name: string)
    requires '.' !in name
    ensures StripExtension(name) == name
  {
  }

  /** The host-side `public_id`: base name, a dash, then the generated suffix. */
  function PublicIdFor(originalName: string, suffix: string): (r: string)
    ensures StartsWith(r, StripExtension(originalName))
    ensures |r| == |StripExtension(originalName)| + 1 + |suffix| && r[|r| - |suffix|..] == suffix
  {
    StripExtension(originalName) + "-" + suffix
  }

  /** The outcome of a delete helper: whether the host was called and what came back. */
  datatype Deletion = Deletion(remoteCalled: bool, result: Option<string>)

  /**
   * `deleteImage`: a falsy id returns null without calling the host; a call
   * that throws (`remote == None`) is also turned into null.
   */
  function DeleteImage(publicId: Option<string>, remote: Option<string>): (d: Deletion)
    ensures d.remoteCalled <==> Truthy(publicId)
    ensures d.result.Some? <==> Truthy(publicId) && remote.Some?
    ensures d.result.Some? ==> d.result == remote
  {
    if !Truthy(publicId) then Deletion(false, None) else Deletion(true, remote)
  }

  /** `deleteImages`: a missing or empty list returns null without calling the host. */
  function DeleteImages(publicIds: Option<seq<string>>, remote: Option<string>): (d: Deletion)
    ensures d.remoteCalled <==> publicIds.Some? && |publicIds.value| > 0
    ensures d.result.Some? <==> d.remoteCalled && remote.Some?
    ensures d.result.Some? ==> d.result == remote
  {
    if publicIds.None? || |publicIds.value| == 0 then Deletion(false, None) else Deletion(true, remote)
  }
}
