/** A media file attached to a TODO. */
module DomainMedia {
  type Time = int

  /** The media type enumeration of the API. */
  datatype MediaType = MediaTypeUnspecified | MediaTypeImage | MediaTypeVideo

  datatype Media = Media(id: string, todoId: string, fileName: string, fileUrl: string, fileType: MediaType,
                         fileSize: int, mimeType: string, thumbnailUrl: string, duration: int,
                         uploadedBy: string, uploadedAt: Time)

  /** NewMedia: the given attributes, a fresh id and the upload time; no MIME type, thumbnail or
      duration yet. `newId` and `now` stand for the generated UUID and the clock. */
  function NewMedia(newId: string, todoId: string, fileName: string, fileUrl: string, fileType: MediaType,
                    fileSize: int, uploadedBy: string, now: Time): (m: Media)
    ensures m.id == newId && m.todoId == todoId && m.fileName == fileName && m.fileUrl == fileUrl
    ensures m.fileType == fileType && m.fileSize == fileSize && m.uploadedBy == uploadedBy && m.uploadedAt == now
    ensures m.mimeType == "" && m.thumbnailUrl == "" && m.duration == 0
  {
    Media(newId, todoId, fileName, fileUrl, fileType, fileSize, "", "", 0, uploadedBy, now)
  }
}
