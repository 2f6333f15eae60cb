/** The S3 storage adapter: upload validation, the object key and public URL of an upload, and the
    recovery of the key from such a URL. The S3 calls themselves are outside the model; whether an
    upload succeeded and the clock reading used in the key are parameters. */
module S3Storage {
  import opened Wrappers
  import Text

  datatype S3Config = S3Config(region: string, bucketName: string)

  /** What UploadFile reads from a multipart file header. */
  datatype FileHeader = FileHeader(filename: string, size: int, contentType: string)

  /** Uploads may be at most 10 MiB. */
  const MaxUploadSize: int := 10 * 1024 * 1024

  /** The content types UploadFile accepts. */
  const AllowedTypes: set<string> := {"image/jpeg", "image/png", "image/gif", "image/webp",
                                      "video/mp4", "video/quicktime", "video/x-msvideo"}

  /** The checks of UploadFile, in order: a file, a header, a size of at most 10 MiB, and an
      allowed content type; each failure is InvalidArgument. */
  function ValidateUpload(filePresent: bool, header: Option<FileHeader>): (r: Outcome)
    ensures r == Pass <==> filePresent && header.Some? && header.value.size <= MaxUploadSize
                           && header.value.contentType in AllowedTypes
    ensures r != Pass ==> r == Fail(InvalidArgument)
  {
    if !filePresent then Fail(InvalidArgument)
    else if header.None? then Fail(InvalidArgument)
    else if header.value.size > MaxUploadSize then Fail(InvalidArgument)
    else if header.value.contentType !in AllowedTypes then Fail(InvalidArgument)
    else Pass
  }

  /** The size limit is inclusive: a file of exactly 10 MiB passes, one byte more does not. */
  lemma SizeLimitInclusive(name: string, contentType: string)
    requires contentType in AllowedTypes
    ensures ValidateUpload(true, Some(FileHeader(name, 10 * 1024 * 1024, contentType))) == Pass
    ensures ValidateUpload(true, Some(FileHeader(name, 10 * 1024 * 1024 + 1, contentType))) == Fail(InvalidArgument)
  {
  }

  /** filepath.Ext with '/' as separator: the suffix from the last '.' of the last path element,
      or "" when that element has no '.'. */
  function Ext(path: string): (e: string)
    ensures |e| <= |path| && e == path[|path| - |e|..]
    ensures e != "" ==> e[0] == '.' && forall k :: 1 <= k < |e| ==> e[k] != '.' && e[k] != '/'
    ensures e == "" ==> forall k :: 0 <= k < |path| && path[k] == '.' ==> exists j :: k < j < |path| && path[j] == '/'
  {
    if |path| == 0 then ""
    else if path[|path| - 1] == '/' then
      ""
    else if path[|path| - 1] == '.' then "."
    else
      var init := path[..|path| - 1];
      var e := Ext(init);
      if e == "" then
        assert forall k :: 0 <= k < |init| ==> init[k] == path[k];
        ""
      else e + [path[|path| - 1]]
  }

  /** The object key of an upload: "media/<user>_<nanoseconds><ext>". */
  function ObjectKey(userId: string, nanos: int, ext: string): string {
    "media/" + userId + "_" + Text.IntToDecimal(nanos) + ext
  }

  /** The virtual-hosted URL prefix of the bucket. */
  function UrlPrefix(config: S3Config): string {
    "https://" + config.bucketName + ".s3." + config.region + ".amazonaws.com/"
  }

  /** UploadFile: the validation, then the upload (`uploaded` says whether S3 accepted it,
      Internal otherwise), then the public URL of the object key. */
  function UploadFile(config: S3Config, filePresent: bool, header: Option<FileHeader>, userId: string,
                      nanos: int, uploaded: bool): (r: Result<string>)
    ensures ValidateUpload(filePresent, header).Fail? ==> r == Err(InvalidArgument)
    ensures ValidateUpload(filePresent, header).Pass? && !uploaded ==> r == Err(Internal)
    ensures r.Ok? ==> r.value == UrlPrefix(config) + ObjectKey(userId, nanos, Ext(header.value.filename))
  {
    var valid := ValidateUpload(filePresent, header);
    if valid.Fail? then Err(valid.code)
    else if !uploaded then Err(Internal)
    else Ok(UrlPrefix(config) + ObjectKey(userId, nanos, Ext(header.value.filename)))
  }

  /** The key DeleteFile, DownloadFile and GetFileInfo address: an empty URL is InvalidArgument;
      otherwise the URL with the bucket prefix removed, if it has it. */
  function KeyFromUrl(config: S3Config, fileUrl: string): (r: Result<string>)
    ensures r.Err? <==> fileUrl == ""
    ensures r.Err? ==> r.code == InvalidArgument
    ensures r.Ok? && Text.HasPrefix(fileUrl, UrlPrefix(config)) ==> UrlPrefix(config) + r.value == fileUrl
    ensures r.Ok? && !Text.HasPrefix(fileUrl, UrlPrefix(config)) ==> r.value == fileUrl
  {
    if fileUrl == "" then Err(InvalidArgument) else Ok(Text.TrimPrefix(fileUrl, UrlPrefix(config)))
  }

  /** The key recovered from an uploaded file's URL is the key it was stored under. */
  lemma UploadUrlRoundTrip(config: S3Config, filePresent: bool, header: Option<FileHeader>, userId: string,
                           nanos: int, uploaded: bool)
    requires UploadFile(config, filePresent, header, userId, nanos, uploaded).Ok?
    ensures KeyFromUrl(config, UploadFile(config, filePresent, header, userId, nanos, uploaded).value)
            == Ok(ObjectKey(userId, nanos, Ext(header.value.filename)))
  {
    var key := ObjectKey(userId, nanos, Ext(header.value.filename));
    Text.TrimPrefixOfConcat(UrlPrefix(config), key);
  }
}
