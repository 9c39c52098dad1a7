/** The add-record dialog's client-side checks: the file validator (type allow-list, then
    the 10 MiB cap), the title guard of the submit handler, and the state effect of
    picking a file. Messages are chosen by comparing `t('language')` with `"hi"`. */
module RecordDialog {
  import opened HealthTypes
  import opened Language

  /** The parts of a browser `File` the validator reads: name, MIME type and byte size. */
  datatype FileInfo = FileInfo(name: string, mimeType: string, size: nat)

  const AllowedTypes: seq<string> := ["application/pdf", "image/jpeg", "image/png", "image/jpg"]

  /** `10 * 1024 * 1024` bytes. */
  const MaxSize: nat := 10485760

  const TypeErrorEn := "Only PDF, JPG, JPEG, and PNG files are allowed"
  const TypeErrorHi := "केवल PDF, JPG, JPEG, और PNG फाइलों की अनुमति है"
  const SizeErrorEn := "File size must be less than 10MB"
  const SizeErrorHi := "फाइल का आकार 10MB से कम होना चाहिए"
  const TitleErrorEn := "Please enter a title for the medical record"
  const TitleErrorHi := "कृपया मेडिकल रिकॉर्ड के लिए एक शीर्षक दर्ज करें"

  /** `t('language') === 'hi' ? hi : en`, given the value of `t('language')`. */
  function Localized(languageLabel: string, hi: string, en: string): (m: string)
    ensures m == hi || m == en
    ensures m == hi <==> languageLabel == "hi" || hi == en
  {
    if languageLabel == "hi" then hi else en
  }

  /** A file the validator lets through. */
  predicate Accepted(file: FileInfo)
  {
    file.mimeType in AllowedTypes && file.size <= MaxSize
  }

  /** `validateFile`: `None` is the `null` of "no error". */
  function ValidateFile(file: FileInfo, languageLabel: string): (err: Option<string>)
    ensures err.None? <==> Accepted(file)
    ensures file.mimeType !in AllowedTypes ==> err == Some(Localized(languageLabel, TypeErrorHi, TypeErrorEn))
    ensures file.mimeType in AllowedTypes && file.size > MaxSize ==> err == Some(Localized(languageLabel, SizeErrorHi, SizeErrorEn))
  {
    if file.mimeType !in AllowedTypes then Some(Localized(languageLabel, TypeErrorHi, TypeErrorEn))
    else if file.size > MaxSize then Some(Localized(languageLabel, SizeErrorHi, SizeErrorEn))
    else None
  }

  /** The type check comes first: a disallowed type is reported as such at any size, even
      one far over the cap. */
  lemma TypeCheckedFirst(file: FileInfo, languageLabel: string)
    requires file.mimeType !in AllowedTypes
    ensures ValidateFile(file, languageLabel) == ValidateFile(file.(size := 0), languageLabel)
    ensures ValidateFile(file, languageLabel).value in {TypeErrorEn, TypeErrorHi}
  {
  }

  /** The cap is inclusive: exactly 10485760 bytes pass and one byte more fails. */
  lemma SizeBoundary(name: string, mimeType: string, languageLabel: string)
    requires mimeType in AllowedTypes
    ensures ValidateFile(FileInfo(name, mimeType, MaxSize), languageLabel).None?
    ensures ValidateFile(FileInfo(name, mimeType, MaxSize + 1), languageLabel).Some?
  {
  }

  /** The Hindi messages cannot appear: `t('language')` is a display label, never the code
      `"hi"`, so whichever language is active every error is the English one. */
  lemma ValidatorSpeaksEnglish(file: FileInfo, lang: Lang)
    ensures ValidateFile(file, T(lang, "language")) in {None, Some(TypeErrorEn), Some(SizeErrorEn)}
  {
    LanguageLabelIsNotACode(lang);
  }

  /** The characters JavaScript's `trim()` removes: WhiteSpace and LineTerminator of the
      ECMAScript grammar (tab, line feed, vertical tab, form feed, carriage return, space,
      no-break space, the byte-order mark, the line and paragraph separators, and the
      other space separators of Unicode category Zs). */
  predicate IsJsSpace(c: char)
  {
    var n := c as int;
    n == 0x09 || n == 0x0A || n == 0x0B || n == 0x0C || n == 0x0D || n == 0x20
    || n == 0xA0 || n == 0x1680 || (0x2000 <= n <= 0x200A) || n == 0x2028 || n == 0x2029
    || n == 0x202F || n == 0x205F || n == 0x3000 || n == 0xFEFF
  }

  /** Drops leading whitespace. */
  function TrimStart(s: string): (r: string)
    ensures |r| <= |s| && r == s[|s| - |r|..]
    ensures r != [] ==> !IsJsSpace(r[0])
    ensures forall i :: 0 <= i < |s| - |r| ==> IsJsSpace(s[i])
  {
    if s == [] || !IsJsSpace(s[0]) then s else TrimStart(s[1..])
  }

  /** Drops trailing whitespace. */
  function TrimEnd(s: string): (r: string)
    ensures |r| <= |s| && r == s[..|r|]
    ensures r != [] ==> !IsJsSpace(r[|r| - 1])
    ensures forall i :: |r| <= i < |s| ==> IsJsSpace(s[i])
  {
    if s == [] || !IsJsSpace(s[|s| - 1]) then s else TrimEnd(s[..|s| - 1])
  }

  /** Where the trimmed text starts in the input. */
  function TrimOffset(s: string): (lo: nat)
    ensures lo <= |s|
  {
    |s| - |TrimStart(s)|
  }

  /** `trim()`: a contiguous piece of the input that neither starts nor ends with
      whitespace, with only whitespace cut from either side. */
  function Trim(s: string): (r: string)
    ensures TrimOffset(s) + |r| <= |s| && r == s[TrimOffset(s)..TrimOffset(s) + |r|]
    ensures r != [] ==> !IsJsSpace(r[0]) && !IsJsSpace(r[|r| - 1])
    ensures forall i :: 0 <= i < TrimOffset(s) ==> IsJsSpace(s[i])
    ensures forall i :: TrimOffset(s) + |r| <= i < |s| ==> IsJsSpace(s[i])
  {
    var u := TrimStart(s);
    var r := TrimEnd(u);
    TrimTail(s, u, r);
    r
  }

  /** Cutting trailing whitespace off a suffix of `s` leaves a slice of `s` with only
      whitespace after it. */
  lemma TrimTail(s: string, u: string, r: string)
    requires |u| <= |s| && u == s[|s| - |u|..]
    requires |r| <= |u| && r == u[..|r|]
    requires forall i :: |r| <= i < |u| ==> IsJsSpace(u[i])
    ensures r == s[|s| - |u|..|s| - |u| + |r|]
    ensures forall i :: |s| - |u| + |r| <= i < |s| ==> IsJsSpace(s[i])
  {
    var lo := |s| - |u|;
    forall i | lo + |r| <= i < |s| ensures IsJsSpace(s[i]) {
      assert s[i] == u[i - lo];
    }
  }

  /** A string trims to nothing exactly when every character of it is whitespace. */
  lemma TrimEmptyIff(s: string)
    ensures Trim(s) == [] <==> forall i :: 0 <= i < |s| ==> IsJsSpace(s[i])
  {
    var r := Trim(s);
    if r != [] {
      assert r[0] == s[TrimOffset(s)];
    }
  }

  /** The title guard of `handleSubmit`: submission stops with a message exactly when the
      title is empty after trimming, before any upload or backend call is made. */
  function TitleError(title: string, languageLabel: string): (err: Option<string>)
    ensures err.Some? <==> Trim(title) == []
    ensures err.Some? ==> err.value in {TitleErrorEn, TitleErrorHi}
  {
    if Trim(title) == [] then Some(Localized(languageLabel, TitleErrorHi, TitleErrorEn)) else None
  }

  /** A blank or whitespace-only title is refused; any title with a visible character
      passes; and, as with the file messages, the Hindi text is never chosen. */
  lemma TitleGuardCases(title: string, lang: Lang)
    ensures TitleError(title, T(lang, "language")).Some? <==> forall i :: 0 <= i < |title| ==> IsJsSpace(title[i])
    ensures TitleError(title, T(lang, "language")) in {None, Some(TitleErrorEn)}
  {
    TrimEmptyIff(title);
    LanguageLabelIsNotACode(lang);
  }

  /** The dialog's file state: the selected file in `formData`, the `fileError` text and
      what the file input element shows. */
  class RecordForm {
    var title: string
    var description: string
    var file: Option<FileInfo>
    var fileError: string
    var input: Option<FileInfo>

    /** A selected file has passed validation and no error is shown beside it. */
    predicate Valid()
      reads this
    {
      file.Some? ==> Accepted(file.value) && fileError == ""
    }

    /** The dialog opens with an empty form. */
    constructor ()
      ensures Valid()
      ensures title == "" && description == "" && file.None? && fileError == "" && input.None?
    {
      title := "";
      description := "";
      file := None;
      fileError := "";
      input := None;
    }

    /** `handleFileChange`: the input element shows `picked` (`None` when the picker was
        cancelled) and the handler runs. No file leaves the form as it was; a rejected
        file clears the selection and the input and shows the validator's message; an
        accepted file is selected and the message cleared. */
    method HandleFileChange(picked: Option<FileInfo>, languageLabel: string)
      requires Valid()
      modifies this
      ensures Valid()
      ensures title == old(title) && description == old(description)
      ensures picked.None? ==> file == old(file) && fileError == old(fileError) && input == None
      ensures picked.Some? && !Accepted(picked.value) ==>
        file.None? && input.None? && fileError == ValidateFile(picked.value, languageLabel).value && fileError != ""
      ensures picked.Some? && Accepted(picked.value) ==> file == picked && input == picked && fileError == ""
    {
      input := picked;
      if picked.Some? {
        var error := ValidateFile(picked.value, languageLabel);
        if error.Some? {
          fileError := error.value;
          file := None;
          input := None;
        } else {
          fileError := "";
          file := picked;
        }
      }
    }

    /** `removeFile`: the selection, the message and the input are all cleared. */
    method RemoveFile()
      modifies this
      ensures Valid()
      ensures title == old(title) && description == old(description)
      ensures file.None? && fileError == "" && input.None?
    {
      file := None;
      fileError := "";
      input := None;
    }
  }

  /** Picking an acceptable file and then an unacceptable one leaves no file selected and
      an English message on screen, in either language. */
  method RejectedPickClearsSelection(good: FileInfo, bad: FileInfo, lang: Lang) returns (form: RecordForm)
    requires Accepted(good) && !Accepted(bad)
    ensures form.Valid()
    ensures form.file.None? && form.input.None?
    ensures form.fileError in {TypeErrorEn, SizeErrorEn}
  {
    var languageLabel := T(lang, "language");
    form := new RecordForm();
    form.HandleFileChange(Some(good), languageLabel);
    assert form.file == Some(good);
    form.HandleFileChange(Some(bad), languageLabel);
    ValidatorSpeaksEnglish(bad, lang);
  }
}
