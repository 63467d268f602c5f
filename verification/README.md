# S3 media viewer server: a Dafny model of its decision logic

The server is a small Express application. It lists the objects of an
S3-compatible bucket, classifies each one by media type, hands out signed
URLs valid for one day, and lets a browser change the storage
configuration. This project models the parts of `server.js` that make
decisions. The storage service, the file system and the HTTP layer are left
outside and stand in as inputs.

- **Js** (`js.dfy`) covers the ECMAScript rules the decisions rest on:
  - a value that may be `undefined`;
  - `a || b` on strings;
  - the conversion to text that Node applies when a property of
    `process.env` is assigned (an `undefined` value is stored as the text
    "undefined");
  - a call that either returns or throws.
- **Strings** (`strings.dfy`) holds three string operations:
  - `toLowerCase` on ASCII letters;
  - `split(sep).pop()`, here `LastSegment`;
  - the line structure of a text whose lines each end in a newline.
- **FileType** (`file_type.dfy`) is `getFileType`:
  - the extension is the lower-cased text after the key's last `.`, or the
    whole lower-cased key when it has no `.`;
  - the extension is looked up in the image, video, audio, document and
    3D-model tables, in that order;
  - a key that matches no table is `other`.
- **FileTypeFacts** (`file_type_facts.dfy`) holds what the fixed tables
  imply:
  - every entry is a bare lower-case extension;
  - the tables are disjoint except for `ogg`, which is in both the video and
    audio tables and classifies as video;
  - worked classifications.
- **Listing** (`listing.dfy`) is the `map`/`filter`/`sort` pipeline of
  `/api/files`:
  - the name is the last `/` segment and the type is the key's category;
  - entries with an empty name are dropped;
  - the rest are put in a stable order, newest first.
  - The sort is an insertion sort. It is proved newest-first, a permutation
    and stable, and any stable newest-first order is proved to give the
    same sequence. So the sort stands for the engine's stable
    `Array.prototype.sort` with that comparator.
- **Config** (`config.dfy`) is the configuration state: the six environment
  settings and the client settings `getS3Config` derives from them. It also
  holds the endpoints that read or change them:
  - `/api/config`;
  - `/api/set-bucket`;
  - `/api/save-env`, including the `.env` text it writes.
- **Api** (`api.dfy`) holds the two read endpoints:
  - resolution of the bucket and prefix;
  - the early answers when no bucket is known;
  - the reply built from what the storage service or signer returns.
  - Each reply comes with the list of storage calls made, so "no call is
    made" is a statement about that list.
- **Examples** (`examples.dfy`) works one listing through by hand. The page
  is `pics/a.jpg`, `pics/` and a newer `pics/b.mp4`. It is listed as
  `b.mp4` (video), then `a.jpg` (image).

In `getFileType`, `split('.').pop()` never yields `undefined`, so the
`|| ''` after it changes nothing; `Extension` has no such fallback.

## Model

| member | source | states |
|---|---|---|
| Strings.LowerFacts | server.js:143 | the ASCII lowering that stands for `toLowerCase` keeps the length, lowers each character on its own, leaves no ASCII capital, and changes nothing in a text without one |
| Strings.LowerIdempotent | server.js:143 | lower-casing twice is lower-casing once |
| Strings.LowerKeepsNonLetters | server.js:143 | under the ASCII lowering, a character that is not an ASCII letter (such as `.` or `/`) occurs in the lowered key exactly when it occurs in the key |
| Strings.LastSegmentShape | server.js:47 | `split(sep).pop()` is a suffix of the text free of `sep`; it is the whole text or follows a `sep`; it is empty exactly when the text is empty or ends in `sep` |
| Strings.LastSegmentUnique | server.js:47 | any suffix free of `sep` that is the whole text or follows a `sep` is `split(sep).pop()`, so the properties above pin it down |
| Strings.LastSegmentWithoutSeparator | server.js:47 | a text without the separator is its own last segment |
| FileType.LabelInjective | server.js:150-155 | the six texts `getFileType` returns are pairwise different, so each names one category |
| FileType.ExtensionShape | server.js:143 | the extension looked up is lower-case and contains no `.` |
| FileType.ExtensionWithoutDot | server.js:143 | a key without `.` is looked up whole, lower-cased |
| FileType.ExtensionAfterDot | server.js:143 | for any key, mixed-case included, whose last `.` is at a given position, the extension is the lower-cased text after it |
| FileType.LowerDotlessExtension | server.js:143 | a lower-case key without `.` is its own extension |
| FileType.Lookup | server.js:150-155 | the category returned is `other` or one whose table lists the extension |
| FileType.LookupPicksFirstTable | server.js:150-155 | no table earlier in the order image, video, audio, document, 3D model lists the extension than the one chosen |
| FileType.LookupIsFirstMatch | server.js:150-155 | the lookup equals a first-match scan over the ordered list of tables |
| FileType.ClassifyIgnoresCase | server.js:143 | `getFileType(k) == getFileType(k.toLowerCase())` for every key |
| FileTypeFacts.TableEntryIsExtension | server.js:144-148 | every table entry, used as a key, is its own extension |
| FileTypeFacts.ImageTableDisjoint | server.js:144-148 | no image extension is in any other table |
| FileTypeFacts.VideoTableDisjoint | server.js:145-148 | no video extension is a document or 3D-model extension |
| FileTypeFacts.AudioTableDisjoint | server.js:146-148 | no audio extension is a document or 3D-model extension |
| FileTypeFacts.DocumentTableDisjoint | server.js:147-148 | no document extension is a 3D-model extension |
| FileTypeFacts.VideoAudioShareOnlyOgg | server.js:145-146 | `ogg` is the one extension in both the video and audio tables |
| FileTypeFacts.LookupTableEntry | server.js:150-155 | the lookup gives each table entry its own table's category, except `ogg`, which is video |
| FileTypeFacts.TablesClassify | server.js:142-156 | `getFileType` of a bare table entry is that table's category, except `ogg`, which is video |
| FileTypeFacts.ClassifyExamples | server.js:142-156 | `x.ogg` is video though `ogg` is an audio extension; `png` is image but `photos/png` is other; `archive.png.zip` is other; `Holiday.JPG` is image |
| Listing.Named | server.js:51 | the `filter` step keeps exactly the entries with a non-empty name |
| Listing.NamedAppend | server.js:51 | the `filter` step filters each part of a concatenation on its own, so it keeps the order and the number of occurrences of the entries it keeps |
| Listing.StampedNamed | server.js:51 | taking the entries of one timestamp and filtering by name can be done in either order |
| Listing.InsertKeepsOrder | server.js:51 | inserting into a newest-first sequence keeps it newest first |
| Listing.InsertStamped | server.js:51 | insertion puts the new entry ahead of the entries that share its timestamp and leaves their order alone |
| Listing.SortNewestFirst | server.js:51 | the sort result is newest first, is a permutation of its input, and keeps the input order among equal timestamps |
| Listing.StableOrderUnique | server.js:51 | two newest-first sequences with the same entries per timestamp, in the same order, are equal: a stable newest-first sort has only one possible result |
| Listing.VisibleEntries | server.js:45-51 | after `map` and `filter`, every entry comes from an object whose key is not empty and does not end in `/`, and every such object's entry is there |
| Listing.Normalise | server.js:45-51 | every listed entry comes from one of the objects, with its key, size and time unchanged; its name is its key's non-empty last `/` segment and its type is `getFileType(key)`; no key ending in `/` is listed and every other key is; the listing is newest first, a permutation of the filtered entries, and stable: for each timestamp, the listed entries are the named ones among the mapped entries of that timestamp, in the objects' order |
| Examples.ListingOfThree | server.js:45-51 | an object, a folder placeholder and a newer object are listed as the newer object, then the older |
| Examples.ExampleListing | server.js:45-51 | `pics/a.jpg` (time 1), `pics/` (time 2), `pics/b.mp4` (time 3) list as `b.mp4` of type video, then `a.jpg` of type image |
| Config.GetS3Config | server.js:12-20 | path-style addressing is always forced; the region is the configured one when it is non-empty and `us-east-1` otherwise; an unset or empty endpoint is absent; unset credentials are empty |
| Config.ConfigReport | server.js:92-97 | `configured` is true exactly when the access key is non-empty; the region reported is never empty |
| Config.ReportAgreesWithClient | server.js:92-97 | the report agrees with the client built from the same settings: configured iff the client has an access key, the same region, and its endpoint or '' |
| Config.Startup | server.js:23 | the client at start-up is the one `getS3Config` builds from the loaded settings |
| Config.SetBucket | server.js:133-140 | a missing or empty bucket gets 400 and nothing changes; otherwise `S3_BUCKET` becomes the bucket and nothing else changes, the client included |
| Config.SetBucketRefusesOnlyMissing | server.js:133-139 | the set-bucket reply is 400 exactly when the bucket is missing or empty, and otherwise 200 with the bucket, which becomes the configured one |
| Config.FileEnv | server.js:103-109 | the `.env` text holds every setting; the region it writes is never empty; a given endpoint is written as given and an omitted one as '' |
| Config.FileEnvAgreesWithSaved | server.js:103-125 | for every body, the access key, secret, bucket and prefix the `.env` text writes are those the running server takes; the two differ at most in endpoint and region, and agree exactly when the body sends an endpoint and a non-empty region |
| Config.EnvFileTextLines | server.js:103-111 | when no body field holds a newline, the `.env` text splits into exactly its eight lines, the comment first and `PORT=3000` last, with one assignment per setting |
| Config.SaveEnv | server.js:100-131 | the `.env` text is always the one for the body; a failed write gives 500 and changes nothing; a successful one replaces all six settings and rebuilds the client from them, path-style, with `us-east-1` for an empty region |
| Config.SaveEnvFailsOnlyOnWriteError | server.js:113-130 | the save reply is 500 exactly when writing `.env` fails, as written and corrected |
| Config.SavedEnvSettings | server.js:120-125 | after a save every setting is defined, and truthy exactly when the body did not send it empty (an omitted field becomes the truthy "undefined"), the prefix being truthy exactly when the body's is; so `/api/config` reports the server configured unless the access key was sent empty |
| Config.SaveEnvOmittedFieldsDiverge | server.js:120-127 | as written, a body without endpoint and region leaves the running client with endpoint and region "undefined", unlike the client the just-written `.env` gives at the next start |
| Config.SaveEnvIntended | server.js:113-127 | the corrected save: a failed write changes nothing; a successful one leaves the client consistent with the settings |
| Config.SaveEnvIntendedMatchesFile | server.js:104-109 | after the corrected save, the running settings and client are those of the `.env` text: the endpoint is present iff one was given and the region is the given non-empty one or `us-east-1` |
| Config.TransitionsKeepConsistent | server.js:113-140 | from a state whose client is the one `getS3Config` builds from the settings, set-bucket, a save as written and the corrected save all lead to such a state |
| Config.SaveEnvVersionsAgreeOnFullBody | server.js:120-127 | with endpoint and region present, the code as written and the corrected version give the same reply and client and store the same credentials, bucket and prefix |
| Api.Resolve | server.js:31-32 | the request's value when non-empty, else the configured value when non-empty, else ''; the result is '' only when neither is non-empty |
| Api.ResolveIsFirstNonEmpty | server.js:31 | resolution picks the first non-empty of the request value and the configured value |
| Api.ListFiles | server.js:29-58 | with no bucket, the reply is an empty listing marked `Bucket not specified` and no listing call is made; otherwise one call goes through the current client with the resolved bucket and prefix, and the reply is the normalised page (a missing page counting as empty) with the bucket, or the service's error |
| Api.FilesFailOnlyOnServiceError | server.js:31-56 | the listing reply is 500 exactly when a bucket is resolved and the storage service fails the listing request made for it |
| Api.GetFile | server.js:60-90 | with no bucket, the reply is 500 and no URL is requested; a key that fails to decode gives 500 with no URL requested; otherwise one URL valid for 86400 seconds is requested through the current client for the decoded key, and a grant carries that key, its last `/` segment, `getFileType(key)`, the URL and the bucket; a signer that answers always yields a grant carrying its URL |
| Api.ListAfterSetBucket | server.js:133-140 | after set-bucket accepts a bucket, a listing request without a bucket lists that bucket through the unchanged client |
| Api.ListAfterSaveEnv | server.js:120-127 | after a successful save, a listing request without bucket or prefix goes through the rebuilt client to the saved bucket and prefix |
| Api.GrantAgreesWithListing | server.js:79-85 | with a bucket resolved, the key decoded to a listed object's key and the signer answering, the reply is a grant whose name and type are those the listing gives that object |

## Left out

- Express plumbing is not modelled: routing, static files, `app.listen`,
  the `PORT` setting, JSON serialisation and console logging. Replies are
  datatypes, and statuses are given by `FilesStatus`, `SetBucketStatus`
  and `SaveEnvStatus`.
- The storage SDK is replaced by function parameters: `list` for
  `ListObjectsV2Command` and `sign` for `getSignedUrl`. They return a value
  or a failure message. Signing and the network are not modelled.
- Only the first page of a listing is seen. That page limit comes from the
  SDK call, so the model has no pagination.
- `decodeURIComponent` is the parameter `decode`, applied once. Express
  already decodes route parameters before the handler sees them, so the
  handler decodes a second time. The router is not part of this model.
- `fs.writeFile` is the flag `writeOk`. The text it would write is modelled
  (`EnvFileText`).
- Loading `.env` at start-up (`dotenv`) is not modelled: `Startup` takes
  the loaded settings as its input. The `.env` text is modelled only down
  to its lines, so there is no round trip of the text back to settings.
- Timestamps are integers. The comparator's `Date` parsing and subtraction
  are not modelled, nor is an unparseable date (`NaN`).
- Query values and JSON body fields are strings or `undefined`. Arrays
  (a repeated query parameter) and numbers or booleans in the body are not
  modelled.
- Objects without `Key`, `Size` or `LastModified` are not modelled. Sizes
  are natural numbers.
- Strings.Lower: lower-cases only ASCII `A`-`Z`. `toLowerCase` also maps
  other letters, for example the Kelvin sign (U+212A) to `k`. So a key
  ending in `.m`, a Kelvin sign and `v` classifies as video in the server
  but as other here. The full mapping can also lengthen a key (`İ`, U+0130,
  becomes `i` followed by the combining dot U+0307) and depends on context
  (`Σ` becomes `σ` or `ς`), so the length and character facts of
  `Strings.LowerFacts` and `Strings.LowerKeepsNonLetters` hold for the ASCII
  lowering only. Neither effect changes a classification: apart from the
  Kelvin sign, no character outside `A`-`Z` lowers to text made only of ASCII
  letters, so no other key gains a table extension.
- Requests running at the same time, and the replacement of the client
  while other requests are in flight, are not modelled. Each request here
  runs against one state value.
- The `error.message` of an exception thrown while building a reply is
  modelled only for the storage, signing and decoding failures.

## Findings

| source | as written | input that shows it | evidently intended | confidence | as-written member | corrected member |
|---|---|---|---|---|---|---|
| server.js:123-124 | `process.env.AWS_ENDPOINT = endpoint` and `process.env.AWS_REGION = region` store the body values raw. Node stores an omitted (`undefined`) value as the text "undefined", which is truthy, so the rebuilt client gets endpoint "undefined" and region "undefined". Meanwhile the `.env` text (lines 108-109) writes `endpoint \|\| ''` and `region \|\| 'us-east-1'`. | a save body `{bucket: "media", accessKey: "id", secretKey: "secret"}` with no endpoint or region | store the same defaulted values the `.env` text holds, so the running client equals the one a restart builds | medium, not executed | Config.SaveEnvOmittedFieldsDiverge | Config.SaveEnvIntended |
