/**
 * The editor's upload guard: a file is accepted when one is selected, its
 * MIME type is accepted and, when a size limit is set, it is within it. The
 * error callback is modelled as the list of errors it receives.
 */
module FileValidation {
  import opened Common

  /** `EFileError`. */
  datatype FileError = InvalidFileType | FileSizeTooLarge | NoFileSelected

  /** The selected file: its MIME type and its size in bytes. */
  datatype File = File(mimeType: string, size: nat)

  /** The returned verdict and the errors passed to `onError`, in order. */
  datatype Verdict = Verdict(valid: bool, errors: seq<FileError>)

  /** What the guard accepts, stated declaratively; a limit of zero or less means no limit. */
  predicate Acceptable(acceptedMimeTypes: seq<string>, file: Option<File>, maxFileSize: int)
  {
    file.Some? && file.value.mimeType in acceptedMimeTypes && (maxFileSize <= 0 || file.value.size <= maxFileSize)
  }

  /**
   * isFileValid: the checks run in order (selection, type, size) and the
   * first that fails reports its error and ends the call.
   */
  function IsFileValid(acceptedMimeTypes: seq<string>, file: Option<File>, maxFileSize: int): (v: Verdict)
    ensures v.valid <==> Acceptable(acceptedMimeTypes, file, maxFileSize)
    ensures v.valid <==> v.errors == []
    ensures |v.errors| <= 1
    ensures file.None? ==> v.errors == [NoFileSelected]
    ensures file.Some? && file.value.mimeType !in acceptedMimeTypes ==> v.errors == [InvalidFileType]
    ensures v.errors == [FileSizeTooLarge] <==>
      file.Some? && file.value.mimeType in acceptedMimeTypes && maxFileSize > 0 && file.value.size > maxFileSize
  {
    if file.None? then Verdict(false, [NoFileSelected])
    else if file.value.mimeType !in acceptedMimeTypes then Verdict(false, [InvalidFileType])
    else if maxFileSize > 0 && file.value.size > maxFileSize then Verdict(false, [FileSizeTooLarge])
    else Verdict(true, [])
  }

  /**
   * The size limit is inclusive, a non-positive limit disables it, and
   * raising a positive limit never rejects a file the lower one accepted.
   */
  lemma SizeLimitIsInclusive(acceptedMimeTypes: seq<string>, f: File, maxFileSize: int, larger: int)
    requires f.mimeType in acceptedMimeTypes
    ensures f.size == maxFileSize ==> IsFileValid(acceptedMimeTypes, Some(f), maxFileSize).valid
    ensures maxFileSize <= 0 ==> IsFileValid(acceptedMimeTypes, Some(f), maxFileSize).valid
    ensures 0 < maxFileSize <= larger && IsFileValid(acceptedMimeTypes, Some(f), maxFileSize).valid ==>
      IsFileValid(acceptedMimeTypes, Some(f), larger).valid
  {
  }
}
