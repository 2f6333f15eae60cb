/** The media service: MIME classification, the list window, and uploads and deletions that keep
    the object store and the media repository in step. */
module MediaService {
  import opened Wrappers
  import opened DomainMedia
  import S3Storage

  /** determineMediaType: the four image types are IMAGE, the three video types VIDEO, anything
      else UNSPECIFIED. */
  function DetermineMediaType(mimeType: string): (t: MediaType)
    ensures t == MediaTypeImage <==> mimeType in {"image/jpeg", "image/png", "image/gif", "image/webp"}
    ensures t == MediaTypeVideo <==> mimeType in {"video/mp4", "video/quicktime", "video/x-msvideo"}
  {
    if mimeType in {"image/jpeg", "image/png", "image/gif", "image/webp"} then MediaTypeImage
    else if mimeType in {"video/mp4", "video/quicktime", "video/x-msvideo"} then MediaTypeVideo
    else MediaTypeUnspecified
  }

  /** The storage layer accepts exactly the content types the service classifies as an image or a
      video: every accepted upload gets a real media type. */
  lemma AllowedTypesAreClassified(mimeType: string)
    ensures mimeType in S3Storage.AllowedTypes <==> DetermineMediaType(mimeType) != MediaTypeUnspecified
  {
  }

  /** The LIMIT and OFFSET ListMedia asks the repository for. */
  datatype Window = Window(limit: int, offset: int)

  /** ListMedia's arguments: an empty TODO id is InvalidArgument; the limit is the page size when
      it is in 1..100 and 50 otherwise; the offset is the page token times the limit, computed in
      Go's 64-bit int, which no int32 token times a limit of at most 100 can overflow. */
  function ListMediaWindow(todoId: string, pageSize: Int32, pageToken: Int32): (r: Result<Window>)
    ensures r.Err? <==> todoId == ""
    ensures r.Err? ==> r.code == InvalidArgument
    ensures r.Ok? ==> 1 <= r.value.limit <= 100
    ensures r.Ok? ==> (r.value.limit == pageSize <==> 1 <= pageSize <= 100)
    ensures r.Ok? && !(1 <= pageSize <= 100) ==> r.value.limit == 50
    ensures r.Ok? ==> r.value.offset == pageToken * r.value.limit
    ensures r.Ok? ==> -0x8000_0000_0000_0000 <= r.value.offset < 0x8000_0000_0000_0000
  {
    if todoId == "" then Err(InvalidArgument)
    else
      var limit := if pageSize <= 0 || pageSize > 100 then 50 else pageSize as int;
      OffsetFitsInt64(pageToken, limit);
      Ok(Window(limit, pageToken * limit))
  }

  /** An int32 times a limit of at most 100 fits in 64 bits. */
  lemma OffsetFitsInt64(token: Int32, limit: int)
    requires 1 <= limit <= 100
    ensures -0x8000_0000_0000_0000 <= token * limit < 0x8000_0000_0000_0000
  {
    if token >= 0 {
      assert token * limit <= token * 100;
      assert token * 100 < 0x8000_0000 * 100;
    } else {
      var n: int := 0 - token as int;
      assert n * limit <= n * 100;
      assert n * 100 <= 0x8000_0000 * 100;
      assert token * limit == -(n * limit);
    }
  }

  /** Consecutive page tokens address adjacent, non-overlapping windows. */
  lemma ConsecutiveWindowsAdjacent(todoId: string, pageSize: Int32, pageToken: Int32)
    requires todoId != "" && pageToken < 0x7fff_ffff
    ensures var w := ListMediaWindow(todoId, pageSize, pageToken).value;
            var next := ListMediaWindow(todoId, pageSize, pageToken + 1).value;
            next.limit == w.limit && next.offset == w.offset + w.limit
  {
  }

  /** The object store as the set of keys it holds. Upload and deletion go through the adapter's
      validation, key construction and key recovery; whether S3 accepts an upload is a parameter. */
  class Storage {
    const config: S3Storage.S3Config
    var objects: set<string>

    constructor (config: S3Storage.S3Config)
      ensures this.config == config && objects == {}
    {
      this.config := config;
      objects := {};
    }

    /** UploadFile: on success the object is stored under the key its URL names. */
    method UploadFile(filePresent: bool, header: Option<S3Storage.FileHeader>, userId: string, nanos: int,
                      uploaded: bool)
      returns (r: Result<string>)
      modifies this
      ensures r == S3Storage.UploadFile(config, filePresent, header, userId, nanos, uploaded)
      ensures r.Err? ==> objects == old(objects)
      ensures r.Ok? ==> objects == old(objects) + {S3Storage.KeyFromUrl(config, r.value).value}
    {
      r := S3Storage.UploadFile(config, filePresent, header, userId, nanos, uploaded);
      if r.Ok? {
        S3Storage.UploadUrlRoundTrip(config, filePresent, header, userId, nanos, uploaded);
        objects := objects + {S3Storage.KeyFromUrl(config, r.value).value};
      }
    }

    /** DeleteFile: an empty URL is InvalidArgument; a rejected DeleteObject call (`fails`) is
        Internal; otherwise the key it names is gone. */
    method DeleteFile(fileUrl: string, fails: bool) returns (r: Outcome)
      modifies this
      ensures fileUrl == "" ==> r == Fail(InvalidArgument) && objects == old(objects)
      ensures fileUrl != "" && fails ==> r == Fail(Internal) && objects == old(objects)
      ensures fileUrl != "" && !fails ==> r == Pass && objects == old(objects) - {S3Storage.KeyFromUrl(config, fileUrl).value}
    {
      var key := S3Storage.KeyFromUrl(config, fileUrl);
      if key.Err? {
        return Fail(key.code);
      }
      if fails {
        return Fail(Internal);
      }
      objects := objects - {key.value};
      r := Pass;
    }
  }

  /** The media repository as a map from id to record. */
  class MediaRepository {
    var media: map<string, Media>

    ghost predicate Valid()
      reads this
    {
      forall id :: id in media ==> media[id].id == id
    }

    constructor ()
      ensures Valid() && media == map[]
    {
      media := map[];
    }

    /** CreateMedia; `fails` stands for a failed insert, a taken id among its causes. */
    method CreateMedia(m: Media, fails: bool) returns (r: Outcome)
      requires Valid()
      modifies this
      ensures Valid()
      ensures fails || m.id in old(media) ==> r == Fail(Unknown) && media == old(media)
      ensures !fails && m.id !in old(media) ==> r == Pass && media == old(media)[m.id := m]
    {
      if fails || m.id in media {
        return Fail(Unknown);
      }
      media := media[m.id := m];
      r := Pass;
    }

    /** DeleteMedia; no row affected is an error, and `fails` stands for a failed statement. */
    method DeleteMedia(id: string, fails: bool) returns (r: Outcome)
      requires Valid()
      modifies this
      ensures Valid()
      ensures fails || id !in old(media) ==> r == Fail(Unknown) && media == old(media)
      ensures !fails && id in old(media) ==> r == Pass && media == old(media) - {id}
    {
      if fails || id !in media {
        return Fail(Unknown);
      }
      media := media - {id};
      r := Pass;
    }
  }

  class Service {
    const repo: MediaRepository
    const storage: Storage

    constructor (repo: MediaRepository, storage: Storage)
      ensures this.repo == repo && this.storage == storage
    {
      this.repo := repo;
      this.storage := storage;
    }

    /** The record UploadMedia stores for an uploaded file. */
    static function UploadedRecord(newId: string, todoId: string, header: S3Storage.FileHeader, fileUrl: string,
                                   userId: string, now: Time): (m: Media)
      ensures m.mimeType == header.contentType && m.fileType == DetermineMediaType(header.contentType)
      ensures m.id == newId && m.todoId == todoId && m.fileName == header.filename && m.fileUrl == fileUrl
      ensures m.fileSize == header.size && m.uploadedBy == userId && m.uploadedAt == now
    {
      NewMedia(newId, todoId, header.filename, fileUrl, DetermineMediaType(header.contentType), header.size,
               userId, now).(mimeType := header.contentType)
    }

    /** UploadMedia: a file and header (InvalidArgument), then a user (Unauthenticated), then the
        upload, whose every failure, a rejected size or type included, is Internal. A failed insert
        of the record deletes the uploaded object again; a failure of that deletion is ignored.
        `newId`, `now` and `nanos` stand for the UUID and the clock, `uploaded`, `saveFails` and
        `cleanupFails` for the outcome of the S3 upload, the insert and the S3 deletion. */
    method UploadMedia(filePresent: bool, header: Option<S3Storage.FileHeader>, todoId: string, userId: string,
                       newId: string, now: Time, nanos: int, uploaded: bool, saveFails: bool,
                       cleanupFails: bool)
      returns (r: Result<Media>)
      requires repo.Valid()
      modifies repo, storage
      ensures repo.Valid()
      ensures !filePresent || header.None? ==> r == Err(InvalidArgument)
      ensures filePresent && header.Some? && userId == "" ==> r == Err(Unauthenticated)
      ensures filePresent && header.Some? && userId != ""
              && S3Storage.UploadFile(storage.config, filePresent, header, userId, nanos, uploaded).Err? ==>
                r == Err(Internal)
      ensures r.Err? ==> repo.media == old(repo.media)
      ensures r.Err? && (!filePresent || header.None? || userId == ""
                         || S3Storage.UploadFile(storage.config, filePresent, header, userId, nanos, uploaded).Err?) ==>
                storage.objects == old(storage.objects)
      ensures r.Ok? <==> filePresent && header.Some? && userId != "" && newId !in old(repo.media) && !saveFails
                         && S3Storage.UploadFile(storage.config, filePresent, header, userId, nanos, uploaded).Ok?
      ensures r.Ok? ==>
                var url := S3Storage.UploadFile(storage.config, filePresent, header, userId, nanos, uploaded).value;
                && r.value == UploadedRecord(newId, todoId, header.value, url, userId, now)
                && repo.media == old(repo.media)[newId := r.value]
                && storage.objects == old(storage.objects) + {S3Storage.KeyFromUrl(storage.config, url).value}
      // the compensation: a record that could not be saved leaves its object deleted, unless
      // that deletion fails too
      ensures r.Err? && S3Storage.UploadFile(storage.config, filePresent, header, userId, nanos, uploaded).Ok?
              && userId != "" ==>
                var url := S3Storage.UploadFile(storage.config, filePresent, header, userId, nanos, uploaded).value;
                var key := S3Storage.KeyFromUrl(storage.config, url).value;
                storage.objects == if cleanupFails then old(storage.objects) + {key} else old(storage.objects) - {key}
    {
      if !filePresent || header.None? {
        return Err(InvalidArgument);
      }
      if userId == "" {
        return Err(Unauthenticated);
      }
      var fileUrl := storage.UploadFile(filePresent, header, userId, nanos, uploaded);
      if fileUrl.Err? {
        return Err(Internal);
      }
      var m := UploadedRecord(newId, todoId, header.value, fileUrl.value, userId, now);
      var saved := repo.CreateMedia(m, saveFails);
      if saved.Fail? {
        S3Storage.UploadUrlRoundTrip(storage.config, filePresent, header, userId, nanos, uploaded);
        var _ := storage.DeleteFile(fileUrl.value, cleanupFails);
        return Err(Internal);
      }
      r := Ok(m);
    }

    /** GetMedia: an id (InvalidArgument), then a record (NotFound). */
    method GetMedia(id: string) returns (r: Result<Media>)
      ensures id == "" ==> r == Err(InvalidArgument)
      ensures id != "" && id !in repo.media ==> r == Err(NotFound)
      ensures id != "" && id in repo.media ==> r == Ok(repo.media[id])
    {
      if id == "" {
        return Err(InvalidArgument);
      }
      if id !in repo.media {
        return Err(NotFound);
      }
      r := Ok(repo.media[id]);
    }

    /** DeleteMedia: an id (InvalidArgument), a user (Unauthenticated), a record (NotFound) and
        the uploader as caller (PermissionDenied), then the object and the record are deleted in
        that order. `storageDeleteFails` and `recordDeleteFails` stand for failures of the two
        deletions; a failure of the second leaves a record whose object is gone. */
    method DeleteMedia(id: string, userId: string, storageDeleteFails: bool, recordDeleteFails: bool)
      returns (r: Outcome)
      requires repo.Valid()
      modifies repo, storage
      ensures repo.Valid()
      ensures id == "" ==> r == Fail(InvalidArgument)
      ensures id != "" && userId == "" ==> r == Fail(Unauthenticated)
      ensures id != "" && userId != "" && id !in old(repo.media) ==> r == Fail(NotFound)
      ensures id != "" && userId != "" && id in old(repo.media) && old(repo.media[id]).uploadedBy != userId ==>
                r == Fail(PermissionDenied)
      ensures r != Pass ==> repo.media == old(repo.media)
      ensures r.Fail? && r.code != Internal ==> storage.objects == old(storage.objects)
      ensures r == Pass <==> id != "" && userId != "" && id in old(repo.media)
                             && old(repo.media[id]).uploadedBy == userId && old(repo.media[id]).fileUrl != ""
                             && !storageDeleteFails && !recordDeleteFails
      // an Internal failure comes from the storage (nothing deleted) or from the record (object gone)
      ensures r.Fail? && r.code == Internal ==>
                && id in old(repo.media)
                && storage.objects == if old(repo.media[id]).fileUrl == "" || storageDeleteFails
                                      then old(storage.objects)
                                      else old(storage.objects)
                                           - {S3Storage.KeyFromUrl(storage.config, old(repo.media[id]).fileUrl).value}
      ensures r == Pass ==>
                && repo.media == old(repo.media) - {id}
                && storage.objects == old(storage.objects)
                                      - {S3Storage.KeyFromUrl(storage.config, old(repo.media[id]).fileUrl).value}
    {
      if id == "" {
        return Fail(InvalidArgument);
      }
      if userId == "" {
        return Fail(Unauthenticated);
      }
      if id !in repo.media {
        return Fail(NotFound);
      }
      var m := repo.media[id];
      if m.uploadedBy != userId {
        return Fail(PermissionDenied);
      }
      var deleted := storage.DeleteFile(m.fileUrl, storageDeleteFails);
      if deleted.Fail? {
        return Fail(Internal);
      }
      var removed := repo.DeleteMedia(id, recordDeleteFails);
      if removed.Fail? {
        return Fail(Internal);
      }
      r := Pass;
    }
  }
}
