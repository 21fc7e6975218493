// Upload validation shared by every upload form (src/lib/file-validation.ts):
// a size limit in kilobytes, 350 KB unless the caller gives another, and an
// optional list of accepted MIME types. The size is always checked first.

module FileValidation {
  import opened Wrappers

  const MaxFileSizeKB: int := 350
  const MaxFileSizeBytes: int := MaxFileSizeKB * 1024

  /** What a browser `File` offers to the validators: its size in bytes and its MIME type. */
  datatype FileInfo = FileInfo(size: nat, mimeType: string)

  /** Why a file was refused. The size message quotes the size and the limit;
      its one-decimal number formatting is not modelled. */
  datatype Refusal = TooLarge(sizeBytes: nat, maxSizeKB: int) | UnsupportedType

  /** `{ isValid: true }` or `{ isValid: false, error }`. */
  datatype Verdict = Accepted | Refused(reason: Refusal)

  /** `validateFileSize(file, maxSizeKB)` */
  function ValidateFileSize(file: FileInfo, maxSizeKB: int): (v: Verdict)
    ensures v.Accepted? <==> file.size <= maxSizeKB * 1024
    ensures v.Refused? ==> v.reason == TooLarge(file.size, maxSizeKB)
  {
    if file.size > maxSizeKB * 1024 then Refused(TooLarge(file.size, maxSizeKB)) else Accepted
  }

  /** `validateFileType(file, allowedTypes)` */
  function ValidateFileType(file: FileInfo, allowedTypes: seq<string>): (v: Verdict)
    ensures v.Accepted? <==> file.mimeType in allowedTypes
    ensures v.Refused? ==> v.reason == UnsupportedType
  {
    if file.mimeType !in allowedTypes then Refused(UnsupportedType) else Accepted
  }

  /** `validateFile(file, { maxSizeKB, allowedTypes })`, an absent limit meaning 350 KB
      and an absent or empty type list meaning every type. */
  function ValidateFile(file: FileInfo, maxSizeKB: Option<int>, allowedTypes: Option<seq<string>>): (v: Verdict)
    ensures var limit := if maxSizeKB.Some? then maxSizeKB.value else MaxFileSizeKB;
            v.Accepted? <==>
              file.size <= limit * 1024 &&
              (allowedTypes.None? || allowedTypes.value == [] || file.mimeType in allowedTypes.value)
    ensures var limit := if maxSizeKB.Some? then maxSizeKB.value else MaxFileSizeKB;
            file.size > limit * 1024 ==> v == Refused(TooLarge(file.size, limit))
    ensures v.Refused? && v.reason == UnsupportedType ==>
              allowedTypes.Some? && file.mimeType !in allowedTypes.value
  {
    var limit := if maxSizeKB.Some? then maxSizeKB.value else MaxFileSizeKB;
    var sizeVerdict := ValidateFileSize(file, limit);
    if sizeVerdict.Refused? then sizeVerdict
    else if allowedTypes.Some? && |allowedTypes.value| > 0 then
      (var typeVerdict := ValidateFileType(file, allowedTypes.value);
       if typeVerdict.Refused? then typeVerdict else Accepted)
    else Accepted
  }

  /** The standard limit is 358 400 bytes, and a file of exactly that size passes. */
  lemma StandardLimit(file: FileInfo)
    ensures MaxFileSizeBytes == 358400
    ensures file.size == MaxFileSizeBytes ==> ValidateFileSize(file, MaxFileSizeKB) == Accepted
    ensures file.size == MaxFileSizeBytes + 1 ==> ValidateFileSize(file, MaxFileSizeKB).Refused?
  {
  }

  /** An empty list of accepted types refuses every file. */
  lemma EmptyTypeListRefusesAll(file: FileInfo)
    ensures ValidateFileType(file, []) == Refused(UnsupportedType)
  {
  }

  /** The combined validator agrees with the two single validators run in order:
      the size verdict wins, and the type verdict applies only to a non-empty list. */
  lemma ValidateFileComposes(file: FileInfo, maxSizeKB: int, allowedTypes: seq<string>)
    ensures ValidateFile(file, Some(maxSizeKB), Some(allowedTypes)) ==
            (if ValidateFileSize(file, maxSizeKB).Refused? then ValidateFileSize(file, maxSizeKB)
             else if allowedTypes == [] then Accepted
             else ValidateFileType(file, allowedTypes))
    ensures ValidateFile(file, None, None) == ValidateFileSize(file, MaxFileSizeKB)
  {
  }
}
