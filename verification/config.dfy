/**
 The server's configuration state: the six settings it reads from the
 process environment, the storage-client settings derived from them, and the
 three endpoints that read or change them (`/api/config`, `/api/set-bucket`,
 `/api/save-env`). The state is a value; each endpoint returns its reply
 together with the next state.
 */
module Config {
  import opened Js
  import opened Strings

  /**
   The six environment variables the server consults: `AWS_ACCESS_KEY_ID`,
   `AWS_SECRET_ACCESS_KEY`, `S3_BUCKET`, `S3_PREFIX`, `AWS_ENDPOINT` and
   `AWS_REGION`. Each may be unset.
   */
  datatype Env = Env(
    accessKeyId: Option<string>,
    secretAccessKey: Option<string>,
    bucket: Option<string>,
    prefix: Option<string>,
    endpoint: Option<string>,
    region: Option<string>)

  /** The region used when none is configured. */
  const DefaultRegion: string := "us-east-1"

  /** The settings the storage client is built with. An absent endpoint means the provider's default. */
  datatype ClientConfig = ClientConfig(
    region: string,
    accessKeyId: string,
    secretAccessKey: string,
    endpoint: Option<string>,
    forcePathStyle: bool)

  /**
   `getS3Config()`: path-style addressing is always forced; the region is
   the configured one unless that is unset or empty, in which case it is the
   default; an unset or empty endpoint is left out; unset credentials are
   empty.
   */
  function GetS3Config(env: Env): (c: ClientConfig)
    ensures c.forcePathStyle
    ensures c.region != ""
    ensures Truthy(env.region) ==> c.region == env.region.value
    ensures !Truthy(env.region) ==> c.region == DefaultRegion
    ensures c.endpoint.Some? <==> Truthy(env.endpoint)
    ensures c.endpoint.Some? ==> c.endpoint.value == env.endpoint.value
    ensures c.accessKeyId != "" <==> Truthy(env.accessKeyId)
    ensures Truthy(env.accessKeyId) ==> c.accessKeyId == env.accessKeyId.value
    ensures Truthy(env.secretAccessKey) ==> c.secretAccessKey == env.secretAccessKey.value
    ensures !Truthy(env.secretAccessKey) ==> c.secretAccessKey == ""
  {
    ClientConfig(
      Or(env.region, DefaultRegion),
      Or(env.accessKeyId, ""),
      Or(env.secretAccessKey, ""),
      if Truthy(env.endpoint) then Some(env.endpoint.value) else Undefined,
      true)
  }

  /** The reply of `/api/config`: whether credentials are set, the endpoint and the region. */
  datatype Report = Report(configured: bool, endpoint: string, region: string)

  /** `/api/config`: reads the environment, never the secret. */
  function ConfigReport(env: Env): (r: Report)
    ensures r.configured <==> Truthy(env.accessKeyId)
    ensures r.region != ""
  {
    Report(Truthy(env.accessKeyId), Or(env.endpoint, ""), Or(env.region, DefaultRegion))
  }

  /**
   What `/api/config` reports is what the client built from the same
   environment uses: `configured` exactly when the client has an access key,
   the client's region, and its endpoint or the empty text when it has none.
   */
  lemma ReportAgreesWithClient(env: Env)
    ensures ConfigReport(env).configured <==> GetS3Config(env).accessKeyId != ""
    ensures ConfigReport(env).region == GetS3Config(env).region
    ensures ConfigReport(env).endpoint == (if GetS3Config(env).endpoint.Some? then GetS3Config(env).endpoint.value else "")
  {
  }

  /** The process-wide state: the environment and the client currently in use. */
  datatype Server = Server(env: Env, client: ClientConfig)

  /** The client in use is the one `getS3Config` builds from the environment. */
  predicate Consistent(s: Server) {
    s.client == GetS3Config(s.env)
  }

  /** Start-up: the client is built from the environment as loaded. */
  function Startup(env: Env): (s: Server)
    ensures s.env == env
    ensures Consistent(s)
  {
    Server(env, GetS3Config(env))
  }

  /** The reply of `/api/set-bucket`: 400 `Bucket required`, or success with the bucket. */
  datatype SetBucketReply = BucketRequired | BucketSet(bucket: string)

  const BucketRequiredMessage: string := "Bucket required"

  function SetBucketStatus(r: SetBucketReply): (code: int)
    ensures code == 400 <==> r.BucketRequired?
    ensures code == 200 <==> r.BucketSet?
  {
    if r.BucketRequired? then 400 else 200
  }

  /** A reply together with the state after the request. */
  datatype Step<+R> = Step(reply: R, next: Server)

  /**
   `/api/set-bucket`: a missing or empty bucket is refused and nothing
   changes; otherwise `S3_BUCKET` takes the new value and nothing else
   changes, the client included.
   */
  function SetBucket(s: Server, bucket: Option<string>): (r: Step<SetBucketReply>)
    ensures r.reply.BucketRequired? <==> !Truthy(bucket)
    ensures r.reply.BucketRequired? ==> r.next == s
    ensures r.reply.BucketSet? ==> r.reply.bucket == bucket.value && r.next.env.bucket == bucket
    ensures r.next.client == s.client
    ensures r.next.env == s.env.(bucket := r.next.env.bucket)
  {
    if !Truthy(bucket) then Step(BucketRequired, s)
    else Step(BucketSet(bucket.value), s.(env := s.env.(bucket := bucket)))
  }

  /** The fields of a `/api/save-env` request body; a field the body omits is `undefined`. */
  datatype SaveEnvBody = SaveEnvBody(
    bucket: Option<string>,
    endpoint: Option<string>,
    region: Option<string>,
    accessKey: Option<string>,
    secretKey: Option<string>,
    prefix: Option<string>)

  /**
   The settings the `.env` text written by `/api/save-env` assigns: each
   field as a template literal renders it (an omitted one as "undefined"),
   except that the prefix and endpoint default to the empty text and the
   region to the default region.
   */
  function FileEnv(body: SaveEnvBody): (e: Env)
    ensures e.accessKeyId.Some? && e.secretAccessKey.Some? && e.bucket.Some?
    ensures e.prefix.Some? && e.endpoint.Some? && e.region.Some?
    ensures Truthy(e.region)
    ensures body.region.Some? && body.region.value != "" ==> e.region == body.region
    ensures body.endpoint.Some? ==> e.endpoint == body.endpoint
    ensures body.endpoint.Undefined? ==> e.endpoint == Some("")
  {
    Env(
      Some(EnvString(body.accessKey)),
      Some(EnvString(body.secretKey)),
      Some(EnvString(body.bucket)),
      Some(Or(body.prefix, "")),
      Some(Or(body.endpoint, "")),
      Some(Or(body.region, DefaultRegion)))
  }

  /** One `NAME=value` line. */
  function Assignment(name: string, value: string): string {
    name + "=" + value
  }

  /** An assignment is one line when its value is. */
  lemma AssignmentSingleLine(name: string, value: string)
    requires '\n' !in name && '\n' !in value
    ensures '\n' !in Assignment(name, value)
  {
    assert Assignment(name, value) == name + ("=" + value);
  }

  const Header: string := "# S3 Media Viewer Configuration"
  const AccessKeyIdName: string := "AWS_ACCESS_KEY_ID"
  const SecretAccessKeyName: string := "AWS_SECRET_ACCESS_KEY"
  const BucketName: string := "S3_BUCKET"
  const PrefixName: string := "S3_PREFIX"
  const EndpointName: string := "AWS_ENDPOINT"
  const RegionName: string := "AWS_REGION"
  const PortLine: string := "PORT=3000"

  /** The comment line and the port line hold no newline. */
  lemma FixedLinesSingleLine()
    ensures '\n' !in Header && '\n' !in PortLine
  {
  }

  /** The names of the credential and bucket settings hold no newline. */
  lemma AccessNamesSingleLine()
    ensures '\n' !in AccessKeyIdName && '\n' !in SecretAccessKeyName && '\n' !in BucketName
  {
  }

  /** The names of the prefix, endpoint and region settings hold no newline. */
  lemma LocationNamesSingleLine()
    ensures '\n' !in PrefixName && '\n' !in EndpointName && '\n' !in RegionName
  {
  }

  /** The lines of a `.env` text with the given settings, the comment line first and `PORT=3000` last. */
  function SettingLines(accessKeyId: string, secretAccessKey: string, bucket: string, prefix: string, endpoint: string, region: string): seq<string> {
    [ Header,
      Assignment(AccessKeyIdName, accessKeyId),
      Assignment(SecretAccessKeyName, secretAccessKey),
      Assignment(BucketName, bucket),
      Assignment(PrefixName, prefix),
      Assignment(EndpointName, endpoint),
      Assignment(RegionName, region),
      PortLine ]
  }

  /** With single-line settings, every line is a single line. */
  lemma SettingLinesSingle(accessKeyId: string, secretAccessKey: string, bucket: string, prefix: string, endpoint: string, region: string)
    requires '\n' !in accessKeyId && '\n' !in secretAccessKey && '\n' !in bucket
    requires '\n' !in prefix && '\n' !in endpoint && '\n' !in region
    ensures forall i :: 0 <= i < 8 ==> '\n' !in SettingLines(accessKeyId, secretAccessKey, bucket, prefix, endpoint, region)[i]
  {
    FixedLinesSingleLine();
    AccessNamesSingleLine();
    LocationNamesSingleLine();
    AssignmentSingleLine(AccessKeyIdName, accessKeyId);
    AssignmentSingleLine(SecretAccessKeyName, secretAccessKey);
    AssignmentSingleLine(BucketName, bucket);
    AssignmentSingleLine(PrefixName, prefix);
    AssignmentSingleLine(EndpointName, endpoint);
    AssignmentSingleLine(RegionName, region);
  }

  /** The lines of the `.env` text `/api/save-env` writes: the settings `FileEnv` gives. */
  function EnvFileLines(body: SaveEnvBody): seq<string> {
    var e := FileEnv(body);
    SettingLines(e.accessKeyId.value, e.secretAccessKey.value, e.bucket.value, e.prefix.value, e.endpoint.value, e.region.value)
  }

  /** The `.env` text `/api/save-env` writes. */
  function EnvFileText(body: SaveEnvBody): string {
    Terminated(EnvFileLines(body))
  }

  /** None of the six body fields holds a newline. */
  predicate SingleLineFields(body: SaveEnvBody) {
    && (body.bucket.Some? ==> '\n' !in body.bucket.value)
    && (body.endpoint.Some? ==> '\n' !in body.endpoint.value)
    && (body.region.Some? ==> '\n' !in body.region.value)
    && (body.accessKey.Some? ==> '\n' !in body.accessKey.value)
    && (body.secretKey.Some? ==> '\n' !in body.secretKey.value)
    && (body.prefix.Some? ==> '\n' !in body.prefix.value)
  }

  /** The text "undefined", the default region and the empty text hold no newline. */
  lemma DefaultsSingleLine()
    ensures '\n' !in "undefined" && '\n' !in DefaultRegion && '\n' !in ""
  {
  }

  /** When no field holds a newline, no setting of the `.env` text does. */
  lemma FileEnvSingleLine(body: SaveEnvBody)
    requires SingleLineFields(body)
    ensures var e := FileEnv(body);
      && '\n' !in e.accessKeyId.value && '\n' !in e.secretAccessKey.value && '\n' !in e.bucket.value
      && '\n' !in e.prefix.value && '\n' !in e.endpoint.value && '\n' !in e.region.value
  {
    DefaultsSingleLine();
  }

  /** When no field holds a newline, neither does any line of the `.env` text. */
  lemma EnvFileLinesSingle(body: SaveEnvBody)
    requires SingleLineFields(body)
    ensures forall i :: 0 <= i < |EnvFileLines(body)| ==> '\n' !in EnvFileLines(body)[i]
  {
    var e := FileEnv(body);
    FileEnvSingleLine(body);
    SettingLinesSingle(e.accessKeyId.value, e.secretAccessKey.value, e.bucket.value, e.prefix.value, e.endpoint.value, e.region.value);
  }

  /**
   When no field holds a newline, the `.env` text has exactly the eight
   lines, one assignment per setting, each value the one `FileEnv` gives; a
   field holding a newline would add lines of its own.
   */
  lemma EnvFileTextLines(body: SaveEnvBody)
    requires SingleLineFields(body)
    ensures SplitLines(EnvFileText(body)) == EnvFileLines(body) + [""]
  {
    EnvFileLinesSingle(body);
    SplitTerminated(EnvFileLines(body));
  }

  /** The reply of `/api/save-env`: success, or 500 `Failed to save configuration`. */
  datatype SaveEnvReply = Saved | SaveFailed

  const SaveFailedMessage: string := "Failed to save configuration"

  function SaveEnvStatus(r: SaveEnvReply): (code: int)
    ensures code == 500 <==> r.SaveFailed?
    ensures code == 200 <==> r.Saved?
  {
    if r.SaveFailed? then 500 else 200
  }

  /**
   The environment after a successful `/api/save-env`, as the code assigns
   it: every field converted to a string (an omitted one becomes
   "undefined"), except the prefix, which defaults to the empty text. The
   endpoint and region are stored as received, not defaulted.
   */
  function SavedEnv(body: SaveEnvBody): (e: Env)
    ensures e.accessKeyId == Some(EnvString(body.accessKey))
    ensures e.secretAccessKey == Some(EnvString(body.secretKey))
    ensures e.bucket == Some(EnvString(body.bucket))
    ensures e.prefix == Some(Or(body.prefix, ""))
    ensures e.endpoint == Some(EnvString(body.endpoint))
    ensures e.region == Some(EnvString(body.region))
  {
    Env(
      Some(EnvString(body.accessKey)),
      Some(EnvString(body.secretKey)),
      Some(EnvString(body.bucket)),
      Some(Or(body.prefix, "")),
      Some(EnvString(body.endpoint)),
      Some(EnvString(body.region)))
  }

  /** What `/api/save-env` produces: the reply, the next state, and the text it tried to write. */
  datatype SaveEnvOutcome = SaveEnvOutcome(reply: SaveEnvReply, next: Server, written: string)

  /**
   `/api/save-env`, with the outcome of writing `.env` as the input
   `writeOk`. The text is written first; if that fails nothing changes and
   the reply is 500; otherwise all six settings are replaced and the client
   is rebuilt from them.
   */
  function SaveEnv(s: Server, body: SaveEnvBody, writeOk: bool): (o: SaveEnvOutcome)
    ensures o.written == EnvFileText(body)
    ensures o.reply.SaveFailed? <==> !writeOk
    ensures !writeOk ==> o.next == s
    ensures writeOk ==> o.next.env == SavedEnv(body) && Consistent(o.next)
    ensures writeOk ==> o.next.client.forcePathStyle
    ensures writeOk && body.region == Some("") ==> o.next.client.region == DefaultRegion
  {
    if !writeOk then SaveEnvOutcome(SaveFailed, s, EnvFileText(body))
    else
      var env := SavedEnv(body);
      SaveEnvOutcome(Saved, Server(env, GetS3Config(env)), EnvFileText(body))
  }

  /**
   As written, a body that omits the endpoint and the region leaves the
   running client with the endpoint "undefined" and the region "undefined",
   while the `.env` text just written holds an empty endpoint and the
   default region, so the client built from that file at the next start-up
   differs.
   */
  lemma SaveEnvOmittedFieldsDiverge(s: Server)
    ensures var body := SaveEnvBody(Some("media"), Undefined, Undefined, Some("id"), Some("secret"), Undefined);
      && SaveEnv(s, body, true).next.client.endpoint == Some("undefined")
      && SaveEnv(s, body, true).next.client.region == "undefined"
      && GetS3Config(FileEnv(body)).endpoint == Undefined
      && GetS3Config(FileEnv(body)).region == DefaultRegion
      && SaveEnv(s, body, true).next.client != GetS3Config(FileEnv(body))
  {
  }

  /**
   `/api/save-env` as evidently intended: the running state takes the
   settings the `.env` text holds, so the endpoint and region are defaulted
   in the same way.
   */
  function SaveEnvIntended(s: Server, body: SaveEnvBody, writeOk: bool): (o: SaveEnvOutcome)
    ensures o.written == EnvFileText(body)
    ensures o.reply.SaveFailed? <==> !writeOk
    ensures !writeOk ==> o.next == s
    ensures writeOk ==> Consistent(o.next)
  {
    if !writeOk then SaveEnvOutcome(SaveFailed, s, EnvFileText(body))
    else
      var env := FileEnv(body);
      SaveEnvOutcome(Saved, Server(env, GetS3Config(env)), EnvFileText(body))
  }

  /**
   After the corrected save, the running client is the one a restart would
   build from the `.env` text just written, whatever the body omits: its
   region is never empty and its endpoint is present exactly when one was
   given.
   */
  lemma SaveEnvIntendedMatchesFile(s: Server, body: SaveEnvBody)
    ensures SaveEnvIntended(s, body, true).next.env == FileEnv(body)
    ensures SaveEnvIntended(s, body, true).next.client == GetS3Config(FileEnv(body))
    ensures SaveEnvIntended(s, body, true).next.client.endpoint.Some? <==> Truthy(body.endpoint)
    ensures Truthy(body.region) ==> SaveEnvIntended(s, body, true).next.client.region == body.region.value
    ensures !Truthy(body.region) ==> SaveEnvIntended(s, body, true).next.client.region == DefaultRegion
  {
  }

  /**
   When the body carries every field, the code as written and the corrected
   version build the same client and store the same credentials, bucket
   and prefix; they differ only in the stored endpoint and region text.
   */
  lemma SaveEnvVersionsAgreeOnFullBody(s: Server, body: SaveEnvBody, writeOk: bool)
    requires body.endpoint.Some? && body.region.Some?
    ensures SaveEnv(s, body, writeOk).reply == SaveEnvIntended(s, body, writeOk).reply
    ensures SaveEnv(s, body, writeOk).next.client == SaveEnvIntended(s, body, writeOk).next.client
    ensures SaveEnv(s, body, writeOk).next.env.(endpoint := Undefined, region := Undefined)
         == SaveEnvIntended(s, body, writeOk).next.env.(endpoint := Undefined, region := Undefined)
  {
  }

  /**
   Every change of state keeps the client the one `getS3Config` builds from
   the settings: switching the bucket touches no client setting, and a
   save, as written or corrected, either changes nothing or rebuilds the
   client.
   */
  lemma TransitionsKeepConsistent(s: Server, bucket: Option<string>, body: SaveEnvBody, writeOk: bool)
    requires Consistent(s)
    ensures Consistent(SetBucket(s, bucket).next)
    ensures Consistent(SaveEnv(s, body, writeOk).next)
    ensures Consistent(SaveEnvIntended(s, body, writeOk).next)
  {
  }

  /**
   `/api/set-bucket` answers 400 exactly when the bucket is missing or empty,
   and otherwise 200 with the bucket, which becomes the configured one.
   */
  lemma SetBucketRefusesOnlyMissing(s: Server, bucket: Option<string>)
    ensures SetBucketStatus(SetBucket(s, bucket).reply) == 400 <==> !Truthy(bucket)
    ensures SetBucketStatus(SetBucket(s, bucket).reply) == 200 <==>
      && Truthy(bucket)
      && SetBucket(s, bucket).reply == BucketSet(bucket.value)
      && SetBucket(s, bucket).next.env.bucket == bucket
  {
  }

  /** `/api/save-env` answers 500 exactly when writing `.env` fails, in the code as written and corrected alike. */
  lemma SaveEnvFailsOnlyOnWriteError(s: Server, body: SaveEnvBody, writeOk: bool)
    ensures SaveEnvStatus(SaveEnv(s, body, writeOk).reply) == 500 <==> !writeOk
    ensures SaveEnvStatus(SaveEnvIntended(s, body, writeOk).reply) == 500 <==> !writeOk
  {
  }

  /**
   After a save every setting is defined. A setting is truthy exactly when
   the body did not send it as the empty text: an omitted field is stored
   as "undefined", which is truthy. The prefix is the exception, truthy
   exactly when the body's prefix is. So `/api/config` then reports the
   server configured unless the access key was sent empty.
   */
  lemma SavedEnvSettings(body: SaveEnvBody)
    ensures var e := SavedEnv(body);
      && e.accessKeyId.Some? && e.secretAccessKey.Some? && e.bucket.Some?
      && e.prefix.Some? && e.endpoint.Some? && e.region.Some?
      && (Truthy(e.accessKeyId) <==> body.accessKey != Some(""))
      && (Truthy(e.secretAccessKey) <==> body.secretKey != Some(""))
      && (Truthy(e.bucket) <==> body.bucket != Some(""))
      && (Truthy(e.endpoint) <==> body.endpoint != Some(""))
      && (Truthy(e.region) <==> body.region != Some(""))
      && (Truthy(e.prefix) <==> Truthy(body.prefix))
    ensures ConfigReport(SavedEnv(body)).configured <==> body.accessKey != Some("")
  {
  }

  /**
   For every body, the settings the `.env` text writes and the settings the
   running server takes differ at most in the endpoint and region, and they
   agree exactly when the body sends an endpoint and a non-empty region.
   */
  lemma FileEnvAgreesWithSaved(body: SaveEnvBody)
    ensures FileEnv(body).(endpoint := Undefined, region := Undefined)
         == SavedEnv(body).(endpoint := Undefined, region := Undefined)
    ensures FileEnv(body) == SavedEnv(body) <==> body.endpoint.Some? && Truthy(body.region)
  {
  }
}
