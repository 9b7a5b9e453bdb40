/**
 * How the image node view decides that a node shows an attachment rather
 * than an image: by the extension of its source, case-insensitively, or by
 * the node's own file type.
 */
module AttachmentKind {

  const ATTACHMENT_EXTENSIONS: seq<string> :=
    ["pdf", "doc", "docx", "xls", "xlsx", "ppt", "pptx",
     "txt", "rtf", "csv", "zip", "rar", "7z", "tar", "gz",
     "hwp", "hwpx", "pages", "numbers", "key", "odt", "ods", "odp"]

  const IMAGE_EXTENSIONS: seq<string> :=
    ["jpg", "jpeg", "png", "gif", "webp", "svg", "bmp", "tiff", "ico"]

  /** ASCII lower-casing of one character. */
  function LowerChar(c: char): char
  {
    if 'A' <= c <= 'Z' then (c as int - 'A' as int + 'a' as int) as char else c
  }

  function ToLower(s: string): (r: string)
    ensures |r| == |s| && forall i | 0 <= i < |s| :: r[i] == LowerChar(s[i])
  {
    seq(|s|, i requires 0 <= i < |s| => LowerChar(s[i]))
  }

  /** `s.split('.').pop()`: the text after the last dot, or all of s when it has none. */
  function AfterLastDot(s: string): (r: string)
    ensures '.' !in r
    ensures |r| <= |s| && r == s[|s| - |r|..]
    ensures '.' in s <==> |r| < |s|
    ensures |r| < |s| ==> s[|s| - |r| - 1] == '.'
  {
    if s == [] then []
    else if s[|s| - 1] == '.' then []
    else AfterLastDot(s[..|s| - 1]) + [s[|s| - 1]]
  }

  /** The lower-cased extension of a source. */
  function Extension(src: string): string
  {
    ToLower(AfterLastDot(src))
  }

  /** isAttachmentFile. */
  function IsAttachmentFile(src: string): (b: bool)
    ensures b ==> src != "" && Extension(src) in ATTACHMENT_EXTENSIONS
    ensures b ==> Extension(src) !in IMAGE_EXTENSIONS
    ensures |src| > 0 && src[|src| - 1] == '.' ==> !b
  {
    if src == "" then false
    else
      var extension := Extension(src);
      if extension == "" then false
      else extension in ATTACHMENT_EXTENSIONS && extension !in IMAGE_EXTENSIONS
  }

  /** `isActuallyAttachment`: the node says so, or its source has an attachment extension. */
  function IsActuallyAttachment(fileType: string, src: string): (b: bool)
    ensures fileType == "attachment" ==> b
    ensures fileType != "attachment" ==> (b <==> IsAttachmentFile(src))
  {
    fileType == "attachment" || (src != "" && IsAttachmentFile(src))
  }

  lemma ToLowerSnoc(s: string, c: char)
    ensures ToLower(s + [c]) == ToLower(s) + [LowerChar(c)]
  {
  }

  lemma ToLowerInit(s: string)
    requires s != []
    ensures ToLower(s)[..|s| - 1] == ToLower(s[..|s| - 1])
  {
  }

  lemma {:induction false} LowerCommutesWithAfterLastDot(s: string)
    ensures AfterLastDot(ToLower(s)) == ToLower(AfterLastDot(s))
  {
    if s != [] {
      var n := |s|;
      var init, c := s[..n - 1], s[n - 1];
      var t := ToLower(s);
      LowerCommutesWithAfterLastDot(init);
      ToLowerInit(s);
      if c != '.' {
        var r := AfterLastDot(init);
        assert AfterLastDot(s) == r + [c];
        assert AfterLastDot(t) == AfterLastDot(ToLower(init)) + [LowerChar(c)];
        ToLowerSnoc(r, c);
      }
    }
  }

  /** The classification ignores case: two sources equal up to case agree. */
  lemma CaseInsensitive(a: string, b: string)
    requires ToLower(a) == ToLower(b)
    ensures IsAttachmentFile(a) == IsAttachmentFile(b)
  {
    LowerCommutesWithAfterLastDot(a);
    LowerCommutesWithAfterLastDot(b);
    assert |a| == |b|;
  }

  lemma {:induction false} AfterLastDotOfDotted(stem: string, ext: string)
    requires '.' !in ext
    ensures AfterLastDot(stem + "." + ext) == ext
  {
    if ext != [] {
      var s := stem + "." + ext;
      AfterLastDotOfDotted(stem, ext[..|ext| - 1]);
      assert s[..|s| - 1] == stem + "." + ext[..|ext| - 1];
      assert s[|s| - 1] == ext[|ext| - 1];
    }
  }

  /** A source whose extension is listed as an attachment, and not as an image, is one, whatever its case. */
  lemma ListedExtensionIsAttachment(stem: string, ext: string)
    requires '.' !in ext
    requires ToLower(ext) in ATTACHMENT_EXTENSIONS && ToLower(ext) !in IMAGE_EXTENSIONS
    ensures IsAttachmentFile(stem + "." + ext)
  {
    AfterLastDotOfDotted(stem, ext);
    assert (stem + "." + ext)[|stem|] == '.';
  }

  /** A source ending in an image extension is never an attachment, whatever its case. */
  lemma ImageExtensionIsNotAttachment(stem: string, ext: string)
    requires ToLower(ext) in IMAGE_EXTENSIONS && '.' !in ext
    ensures !IsAttachmentFile(stem + "." + ext)
  {
    AfterLastDotOfDotted(stem, ext);
  }
}
