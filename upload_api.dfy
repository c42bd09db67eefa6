/** The file-upload endpoint: a present file of a whitelisted type and at most 50 MB is acknowledged. */
module UploadApi {
  import opened Common

  /** The `file` entry of the form: absent, a plain text value, or a file. */
  datatype FileField = NoField | TextField(text: string) | FileField(file: FileInfo)

  /** `request.formData()` either throws or yields the form's `file` entry. */
  datatype Request = UnreadableForm | Posted(field: FileField)

  datatype Response =
    | Failure(httpStatus: int, error: string)
    | Uploaded(fileId: string, fileName: string, status: string, estimatedProcessingTime: int)

  const AllowedTypes: seq<string> := [
    "application/pdf",
    "image/jpeg",
    "image/png",
    "application/dicom",
    "application/msword",
    "application/vnd.openxmlformats-officedocument.wordprocessingml.document"]

  const MaxSize := 50 * 1024 * 1024

  const NoFile := "No file provided"
  const UnsupportedType := "File type not supported"
  const TooLarge := "File size exceeds 50MB limit"
  const UploadFailed := "Upload failed"

  /** `!file`: an absent entry and an empty text value are both falsy. */
  predicate Missing(field: FileField) {
    field.NoField? || (field.TextField? && field.text == "")
  }

  /** `allowedTypes.includes(file.type)`; a text value has no `type`, and `undefined` is not in the list. */
  predicate AllowedType(field: FileField) {
    field.FileField? && field.file.mimeType in AllowedTypes
  }

  /** `POST /api/upload`; `fileId` stands for the random id the route draws. */
  function Post(req: Request, fileId: string): Response {
    match req
    case UnreadableForm => Failure(500, UploadFailed)
    case Posted(field) =>
      if Missing(field) then Failure(400, NoFile)
      else if !AllowedType(field) then Failure(400, UnsupportedType)
      else if field.file.size > MaxSize then Failure(400, TooLarge)
      else Uploaded(fileId, field.file.name, "uploaded", 3)
  }

  /** A file is acknowledged exactly when it is present, of a whitelisted type and at most 52428800 bytes, and
      the acknowledgement echoes its name; a wrong type is reported even when the size is also too large. */
  lemma PostOutcomes(req: Request, fileId: string)
    ensures MaxSize == 52428800
    ensures Post(req, fileId).Uploaded? <==>
      req.Posted? && req.field.FileField? && req.field.file.mimeType in AllowedTypes && req.field.file.size <= 52428800
    ensures Post(req, fileId).Uploaded? ==>
      Post(req, fileId) == Uploaded(fileId, req.field.file.name, "uploaded", 3)
    ensures req.Posted? && Missing(req.field) ==> Post(req, fileId) == Failure(400, NoFile)
    ensures req.Posted? && req.field.FileField? && req.field.file.mimeType !in AllowedTypes ==>
      Post(req, fileId) == Failure(400, UnsupportedType)
    ensures req.Posted? && req.field.TextField? && req.field.text != "" ==> Post(req, fileId) == Failure(400, UnsupportedType)
  {
  }

  /** The size limit is inclusive: a whitelisted file of exactly 50 MB is accepted, one byte more is refused. */
  lemma SizeLimitInclusive(name: string, mimeType: string, fileId: string)
    requires mimeType in AllowedTypes
    ensures Post(Posted(FileField(FileInfo(name, mimeType, 52428800))), fileId).Uploaded?
    ensures Post(Posted(FileField(FileInfo(name, mimeType, 52428801))), fileId) == Failure(400, TooLarge)
  {
  }

  /** The whitelist names six distinct types. */
  lemma WhitelistDistinct()
    ensures |AllowedTypes| == 6
    ensures forall i, j :: 0 <= i < j < |AllowedTypes| ==> AllowedTypes[i] != AllowedTypes[j]
  {
  }
}
