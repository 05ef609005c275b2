/**
 * backend/src/routes/upload.ts: the image upload guard. The object store is the parameter
 * `store`, which gives the public URL of the stored object or `None` when the write fails.
 */
module Upload {
  import opened Common

  /** The largest accepted file: 5 MiB. */
  const MaxBytes: nat := 5 * 1024 * 1024

  const AllowedTypes: set<string> := {"image/jpeg", "image/png", "image/gif", "image/webp"}

  /** The `file` form field as far as the guard looks at it. */
  datatype FileInfo = FileInfo(mimeType: string, size: nat)

  datatype Error =
    | NoFile         // 400 "No file provided"
    | InvalidType    // 400 "Invalid file type"
    | TooLarge       // 400 "File too large"
    | UploadFailed   // 500 "Upload failed"

  function HttpStatus(e: Error): (code: nat)
    ensures code == 500 <==> e == UploadFailed
    ensures code == 400 <==> e != UploadFailed
  {
    if e == UploadFailed then 500 else 400
  }

  /** A file the guard lets through to the store. */
  predicate Acceptable(f: FileInfo)
  {
    f.mimeType in AllowedTypes && f.size <= MaxBytes
  }

  /** POST /: presence, then type, then size are checked before the store is touched. */
  function Upload(file: Option<FileInfo>, store: FileInfo -> Option<string>): (r: Result<string, Error>)
    ensures r.Ok? <==> file.Some? && Acceptable(file.value) && store(file.value).Some?
    ensures r.Ok? ==> r.value == store(file.value).value
    ensures r == Err(UploadFailed) <==> file.Some? && Acceptable(file.value) && store(file.value).None?
    ensures r == Err(NoFile) <==> file.None?
    ensures r == Err(InvalidType) <==> file.Some? && file.value.mimeType !in AllowedTypes
    ensures r == Err(TooLarge) <==> file.Some? && file.value.mimeType in AllowedTypes && file.value.size > MaxBytes
  {
    if file.None? then Err(NoFile)
    else if file.value.mimeType !in AllowedTypes then Err(InvalidType)
    else if file.value.size > MaxBytes then Err(TooLarge)
    else
      match store(file.value)
      case None => Err(UploadFailed)
      case Some(url) => Ok(url)
  }

  /** A rejected file never reaches the store: the outcome is the same whatever the store does. */
  lemma RejectedNeverStored(file: Option<FileInfo>, s1: FileInfo -> Option<string>, s2: FileInfo -> Option<string>)
    requires !(file.Some? && Acceptable(file.value))
    ensures Upload(file, s1) == Upload(file, s2)
  {
  }

  /** The size limit is inclusive: exactly 5 MiB passes, one byte more does not. */
  lemma SizeBoundary(mimeType: string, store: FileInfo -> Option<string>)
    requires mimeType in AllowedTypes
    ensures Upload(Some(FileInfo(mimeType, 5242880)), store) != Err(TooLarge)
    ensures Upload(Some(FileInfo(mimeType, 5242881)), store) == Err(TooLarge)
  {
  }
}
