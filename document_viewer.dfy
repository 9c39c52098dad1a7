/** How the document viewer classifies an attached file by its name: the extension after
    the last dot, lower-cased, decides between an image preview, a PDF preview and
    neither. */
module DocumentViewer {

  function LowerChar(c: char): char
  {
    if 'A' <= c <= 'Z' then (c as int + 32) as char else c
  }

  /** `toLowerCase()` on the letters `A`..`Z`; every other character is kept. */
  function AsciiLower(s: string): (r: string)
    ensures |r| == |s|
    ensures forall i :: 0 <= i < |s| ==> r[i] == LowerChar(s[i])
  {
    if s == [] then [] else [LowerChar(s[0])] + AsciiLower(s[1..])
  }

  /** `split('.').pop()`: the text after the last dot, or the whole name when it has none. */
  function AfterLastDot(s: string): (r: string)
    ensures |r| <= |s| && r == s[|s| - |r|..]
    ensures '.' !in r
    ensures |r| < |s| ==> s[|s| - |r| - 1] == '.'
    ensures '.' !in s ==> r == s
  {
    if s == [] then []
    else if s[|s| - 1] == '.' then []
    else
      var r := AfterLastDot(s[..|s| - 1]);
      assert forall c :: c in s[..|s| - 1] ==> c in s;
      r + [s[|s| - 1]]
  }

  /** `getFileExtension`: `pop()` on a split result always yields a string, so the
      trailing `|| ''` only maps `""` to itself. */
  function GetFileExtension(fileName: string): (ext: string)
    ensures |ext| <= |fileName|
    ensures '.' !in ext
    ensures forall i :: 0 <= i < |ext| ==> !('A' <= ext[i] <= 'Z')
  {
    var last := AsciiLower(AfterLastDot(fileName));
    assert forall i :: 0 <= i < |last| ==> last[i] == LowerChar(AfterLastDot(fileName)[i]);
    last
  }

  const ImageExtensions: seq<string> := ["jpg", "jpeg", "png", "gif", "webp"]

  /** `isImageFile`: the lower-cased extension is one of the five image extensions. */
  predicate IsImageFile(fileName: string): (b: bool)
    ensures b ==> GetFileExtension(fileName) !in {"", "pdf"}
  {
    ImageExtensionSet(GetFileExtension(fileName));
    GetFileExtension(fileName) in ImageExtensions
  }

  /** `isPdfFile`: the lower-cased extension is `pdf`. */
  predicate IsPdfFile(fileName: string): (b: bool)
    ensures b ==> |fileName| >= 3 && !IsImageFile(fileName)
  {
    GetFileExtension(fileName) == "pdf"
  }

  /** The extension of `stem.ext` is `ext` lower-cased, whatever the stem holds. */
  lemma {:induction false} ExtensionAfterLastDot(stem: string, ext: string)
    requires '.' !in ext
    ensures GetFileExtension(stem + "." + ext) == AsciiLower(ext)
  {
    var s := stem + "." + ext;
    assert s[|stem|] == '.';
    assert s[|stem| + 1..] == ext;
  }

  /** A name without a dot is its own extension, lower-cased; a trailing dot leaves an
      empty extension. */
  lemma EdgeCases(name: string, stem: string)
    requires '.' !in name
    ensures GetFileExtension(name) == AsciiLower(name)
    ensures GetFileExtension(stem + ".") == ""
  {
    assert (stem + ".")[|stem + "."| - 1] == '.';
  }

  /** A name `stem.ext` is classified by its last extension alone, in any letter case:
      an image exactly for jpg, jpeg, png, gif and webp, a PDF exactly for pdf. */
  lemma ClassifiedByExtension(stem: string, ext: string)
    requires '.' !in ext
    ensures IsImageFile(stem + "." + ext) <==> AsciiLower(ext) in {"jpg", "jpeg", "png", "gif", "webp"}
    ensures IsPdfFile(stem + "." + ext) <==> AsciiLower(ext) == "pdf"
  {
    ExtensionAfterLastDot(stem, ext);
    ImageExtensionSet(AsciiLower(ext));
  }

  lemma ImageExtensionSet(e: string)
    ensures e in ImageExtensions <==> e in {"jpg", "jpeg", "png", "gif", "webp"}
  {
    assert ImageExtensions == ["jpg", "jpeg", "png", "gif", "webp"];
  }

  /** No name is both an image and a PDF. */
  lemma NeverBoth(fileName: string)
    ensures !(IsImageFile(fileName) && IsPdfFile(fileName))
  {
  }

  /** `toLowerCase()` of the two extensions the lemmas below use. */
  lemma LowerPdf()
    ensures AsciiLower("PDF") == "pdf" && AsciiLower("pdf") == "pdf"
  {
    var l := AsciiLower("PDF");
    assert l[0] == 'p' && l[1] == 'd' && l[2] == 'f';
    var m := AsciiLower("pdf");
    assert m[0] == 'p' && m[1] == 'd' && m[2] == 'f';
  }

  lemma LowerJpeg()
    ensures AsciiLower("JPEG") == "jpeg"
  {
    var l := AsciiLower("JPEG");
    assert l[0] == 'j' && l[1] == 'p' && l[2] == 'e' && l[3] == 'g';
  }

  /** Classification ignores letter case: `.PDF` and `.pdf` are both PDFs. */
  lemma PdfAnyCase(stem: string)
    ensures IsPdfFile(stem + ".PDF") && IsPdfFile(stem + ".pdf")
  {
    ExtensionAfterLastDot(stem, "PDF");
    ExtensionAfterLastDot(stem, "pdf");
    LowerPdf();
    assert stem + "." + "PDF" == stem + ".PDF";
    assert stem + "." + "pdf" == stem + ".pdf";
  }

  /** An upper-case `.JPEG` is an image. */
  lemma JpegAnyCase(stem: string)
    ensures IsImageFile(stem + ".JPEG")
  {
    ExtensionAfterLastDot(stem, "JPEG");
    LowerJpeg();
    assert stem + "." + "JPEG" == stem + ".JPEG";
    assert ImageExtensions[1] == "jpeg";
  }
}
