/**
 The two read endpoints, `/api/files` and `/api/file/:key`: how they resolve
 the bucket and prefix, when they answer without calling the storage
 service, and how they shape the reply from what the service returns. The
 storage service and `decodeURIComponent` are inputs (functions); every reply
 comes with the list of storage calls made, so that "no call is made" can be
 stated.
 */
module Api {
  import opened Js
  import opened Strings
  import opened FileType
  import opened Listing
  import opened Config

  /**
   `param || configured || ''`: the request's value when it is non-empty,
   else the configured value when that is non-empty, else the empty text.
   */
  function Resolve(param: Option<string>, configured: Option<string>): (r: string)
    ensures Truthy(param) ==> r == param.value
    ensures !Truthy(param) && Truthy(configured) ==> r == configured.value
    ensures r == "" <==> !Truthy(param) && !Truthy(configured)
  {
    Or(param, Or(configured, ""))
  }

  /** Reference resolution: the first non-empty candidate, or the empty text when there is none. */
  function FirstNonEmpty(candidates: seq<Option<string>>): string {
    if |candidates| == 0 then ""
    else if Truthy(candidates[0]) then candidates[0].value
    else FirstNonEmpty(candidates[1..])
  }

  /** Resolution takes the first non-empty of the request value and the configured value. */
  lemma ResolveIsFirstNonEmpty(param: Option<string>, configured: Option<string>)
    ensures Resolve(param, configured) == FirstNonEmpty([param, configured])
  {
    assert [param, configured][1..] == [configured];
    assert [configured][1..] == [];
    assert FirstNonEmpty([configured]) == Or(configured, "");
  }

  const BucketNotSpecified: string := "Bucket not specified"

  /** One listing request sent to the storage service, with the client it is sent through. */
  datatype ListCall = ListCall(client: ClientConfig, bucket: string, prefix: string)

  /**
   What the storage service answers: one page of objects (`Contents`, which
   the service may leave out), or an error with its message.
   */
  datatype ListResult = Listed(contents: Option<seq<RawObject>>) | ListFailed(message: string)

  /**
   The reply of `/api/files`: the listing and the bucket; an empty listing
   with the marker `Bucket not specified`; or 500 with the service's message.
   */
  datatype FilesReply =
    | Files(files: seq<Entry>, bucket: string)
    | NoBucket(files: seq<Entry>, error: string)
    | FilesError(message: string)

  function FilesStatus(r: FilesReply): (code: int)
    ensures code == 500 <==> r.FilesError?
    ensures code == 200 <==> !r.FilesError?
  {
    if r.FilesError? then 500 else 200
  }

  /** A reply together with the storage calls made to produce it, in order. */
  datatype Traced<+R, +C> = Traced(reply: R, calls: seq<C>)

  /**
   `GET /api/files`. With no bucket resolvable it answers an empty listing
   with a marker and calls nothing. Otherwise it sends one listing request
   through the current client, and answers the normalised page (a missing
   page is an empty one) with the bucket, or 500 with the service's message.
   */
  function ListFiles(s: Server, bucket: Option<string>, prefix: Option<string>, list: ListCall -> ListResult): (t: Traced<FilesReply, ListCall>)
    ensures var b := Resolve(bucket, s.env.bucket);
      && (t.reply.NoBucket? <==> b == "")
      && (t.reply.NoBucket? ==> t.reply.files == [] && t.reply.error == BucketNotSpecified && t.calls == [])
      && (b != "" ==> t.calls == [ListCall(s.client, b, Resolve(prefix, s.env.prefix))])
    ensures t.reply.Files? ==>
      && t.reply.bucket == Resolve(bucket, s.env.bucket) && |t.calls| == 1
      && list(t.calls[0]).Listed?
      && t.reply.files == Normalise(if list(t.calls[0]).contents.Some? then list(t.calls[0]).contents.value else [])
    ensures t.reply.FilesError? ==> |t.calls| == 1 && list(t.calls[0]) == ListFailed(t.reply.message)
  {
    var b := Resolve(bucket, s.env.bucket);
    if b == "" then Traced(NoBucket([], BucketNotSpecified), [])
    else
      var call := ListCall(s.client, b, Resolve(prefix, s.env.prefix));
      match list(call)
      case ListFailed(m) => Traced(FilesError(m), [call])
      case Listed(contents) =>
        var page := if contents.Some? then contents.value else [];
        Traced(Files(Normalise(page), b), [call])
  }

  /** The lifetime, in seconds, of every URL the single-file endpoint hands out: one day. */
  const UrlLifetime: int := 86400

  /** One request for a signed URL sent to the signer, with the client it is signed with. */
  datatype SignCall = SignCall(client: ClientConfig, bucket: string, key: string, expiresIn: int)

  /**
   The reply of `/api/file/:key`: the decoded key, its name and category,
   the signed URL and the bucket; or an error with its status and message.
   */
  datatype FileReply =
    | FileGrant(key: string, name: string, fileType: Category, url: string, bucket: string)
    | FileError(status: int, error: string)

  /**
   `GET /api/file/:key`. With no bucket resolvable it answers 500 before
   decoding the key and asks for no URL. Otherwise it decodes the key once;
   a decoding failure is a 500 with its message. It then asks the signer for
   a URL valid for a day through the current client; a signing failure is a
   500 with its message, and success yields the key, its last `/` segment,
   its category, the URL and the bucket.
   */
  function GetFile(s: Server, rawKey: string, bucket: Option<string>,
                   decode: string -> Completion<string>, sign: SignCall -> Completion<string>): (t: Traced<FileReply, SignCall>)
    ensures t.reply.FileError? ==> t.reply.status == 500
    ensures Resolve(bucket, s.env.bucket) == "" ==> t.reply == FileError(500, BucketNotSpecified) && t.calls == []
    ensures Resolve(bucket, s.env.bucket) != "" && decode(rawKey).Throw? ==>
      t.reply == FileError(500, decode(rawKey).message) && t.calls == []
    ensures Resolve(bucket, s.env.bucket) != "" && decode(rawKey).Normal? ==>
      t.calls == [SignCall(s.client, Resolve(bucket, s.env.bucket), decode(rawKey).value, UrlLifetime)]
    ensures t.reply.FileGrant? ==>
      && Resolve(bucket, s.env.bucket) != "" && decode(rawKey).Normal?
      && t.reply.key == decode(rawKey).value
      && t.reply.name == LastSegment(t.reply.key, '/')
      && t.reply.fileType == Classify(t.reply.key)
      && t.reply.bucket == Resolve(bucket, s.env.bucket)
      && sign(t.calls[0]) == Normal(t.reply.url)
    ensures |t.calls| == 1 && sign(t.calls[0]).Throw? ==> t.reply == FileError(500, sign(t.calls[0]).message)
    ensures |t.calls| == 1 && sign(t.calls[0]).Normal? ==> t.reply.FileGrant? && t.reply.url == sign(t.calls[0]).value
  {
    var b := Resolve(bucket, s.env.bucket);
    if b == "" then Traced(FileError(500, BucketNotSpecified), [])
    else
      match decode(rawKey)
      case Throw(m) => Traced(FileError(500, m), [])
      case Normal(key) =>
        var call := SignCall(s.client, b, key, UrlLifetime);
        match sign(call)
        case Throw(m) => Traced(FileError(500, m), [call])
        case Normal(url) => Traced(FileGrant(key, LastSegment(key, '/'), Classify(key), url, b), [call])
  }

  /**
   After `/api/set-bucket` accepts a bucket, a listing request that names
   no bucket lists that one, through the same client as before.
   */
  lemma ListAfterSetBucket(s: Server, b: string, prefix: Option<string>, list: ListCall -> ListResult)
    requires b != ""
    ensures ListFiles(SetBucket(s, Some(b)).next, Undefined, prefix, list).calls
         == [ListCall(s.client, b, Resolve(prefix, s.env.prefix))]
  {
  }

  /**
   After a successful `/api/save-env`, a listing request that names neither
   bucket nor prefix goes through the rebuilt client, to the saved bucket
   ("undefined" when the body omitted it) and the saved prefix.
   */
  lemma ListAfterSaveEnv(s: Server, body: SaveEnvBody, list: ListCall -> ListResult)
    requires body.bucket != Some("")
    ensures var next := SaveEnv(s, body, true).next;
      ListFiles(next, Undefined, Undefined, list).calls
        == [ListCall(GetS3Config(SavedEnv(body)), EnvString(body.bucket), Or(body.prefix, ""))]
  {
  }

  /**
   The single-file endpoint describes a key as the listing does. Every entry
   of a listing is `ToEntry` of one of the page's objects (see `Normalise`),
   and a grant for that object's key carries the entry's name and category.
   */
  lemma GrantAgreesWithListing(s: Server, bucket: Option<string>, o: RawObject, rawKey: string,
                               decode: string -> Completion<string>, sign: SignCall -> Completion<string>)
    requires Resolve(bucket, s.env.bucket) != ""
    requires decode(rawKey) == Normal(o.key)
    requires sign(SignCall(s.client, Resolve(bucket, s.env.bucket), o.key, UrlLifetime)).Normal?
    ensures GetFile(s, rawKey, bucket, decode, sign).reply.FileGrant?
    ensures GetFile(s, rawKey, bucket, decode, sign).reply.name == ToEntry(o).name
    ensures GetFile(s, rawKey, bucket, decode, sign).reply.fileType == ToEntry(o).fileType
  {
  }

  /**
   `/api/files` answers 500 exactly when a bucket is resolved and the storage
   service fails the one listing request; with no bucket it answers 200.
   */
  lemma FilesFailOnlyOnServiceError(s: Server, bucket: Option<string>, prefix: Option<string>, list: ListCall -> ListResult)
    ensures FilesStatus(ListFiles(s, bucket, prefix, list).reply) == 500 <==>
      && Resolve(bucket, s.env.bucket) != ""
      && list(ListCall(s.client, Resolve(bucket, s.env.bucket), Resolve(prefix, s.env.prefix))).ListFailed?
  {
  }
}
