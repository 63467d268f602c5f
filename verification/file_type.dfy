/**
 The media-type classifier `getFileType`: a key's extension, lower-cased, is
 looked up in five fixed tables in a fixed order, and a key whose extension is
 in none of them is `other`.
 */
module FileType {
  import opened Strings

  /** The six categories the server reports. */
  datatype Category = Image | Video | Audio | Document | Model3d | Other

  /** The text the server sends for a category. */
  function Label(c: Category): string {
    match c
    case Image => "image"
    case Video => "video"
    case Audio => "audio"
    case Document => "document"
    case Model3d => "model3d"
    case Other => "other"
  }

  /** Different categories are reported as different texts, so a reply's type names exactly one category. */
  lemma LabelInjective(c: Category, d: Category)
    requires Label(c) == Label(d)
    ensures c == d
  {
  }

  const ImageExts: seq<string> := ["jpg", "jpeg", "png", "gif", "bmp", "webp", "svg", "ico", "avif"]
  const VideoExts: seq<string> := ["mp4", "webm", "ogg", "mov", "avi", "mkv", "flv", "wmv", "m3u8"]
  const AudioExts: seq<string> := ["mp3", "wav", "ogg", "flac", "aac", "m4a", "wma", "opus"]
  const DocumentExts: seq<string> := ["pdf", "doc", "docx", "xls", "xlsx", "ppt", "pptx", "txt", "json", "xml", "html", "htm", "md"]
  const Model3dExts: seq<string> := ["glb", "gltf", "fbx", "obj", "dae", "3ds", "ply"]

  /** The table of a category; `other` has none. */
  function ExtsOf(c: Category): seq<string> {
    match c
    case Image => ImageExts
    case Video => VideoExts
    case Audio => AudioExts
    case Document => DocumentExts
    case Model3d => Model3dExts
    case Other => []
  }

  /** `ext` is listed in the table of `c`. */
  predicate InTable(c: Category, ext: string) {
    ext in ExtsOf(c)
  }

  /** Position of a category in the lookup order; `other` comes last. */
  function Rank(c: Category): nat {
    match c
    case Image => 0
    case Video => 1
    case Audio => 2
    case Document => 3
    case Model3d => 4
    case Other => 5
  }

  /**
   The extension the classifier looks up: the lower-cased key's text after its
   last `.`, or the whole lower-cased key when it has no `.`.
   */
  function Extension(key: string): string {
    LastSegment(Lower(key), '.')
  }

  /** The extension is lower-case and holds no `.`. */
  lemma ExtensionShape(key: string)
    ensures IsLower(Extension(key))
    ensures '.' !in Extension(key)
  {
    LowerFacts(key);
    LastSegmentShape(Lower(key), '.');
  }

  /** A key without `.` is looked up whole, lower-cased. */
  lemma ExtensionWithoutDot(key: string)
    requires '.' !in key
    ensures Extension(key) == Lower(key)
  {
    LowerKeepsNonLetters(key, '.');
    LastSegmentWithoutSeparator(Lower(key), '.');
  }

  /** The five table tests of `getFileType`, in its order. */
  function Lookup(ext: string): (r: Category)
    ensures r == Other || InTable(r, ext)
  {
    if InTable(Image, ext) then Image
    else if InTable(Video, ext) then Video
    else if InTable(Audio, ext) then Audio
    else if InTable(Document, ext) then Document
    else if InTable(Model3d, ext) then Model3d
    else Other
  }

  /** `getFileType(key)`: the category the key's extension is listed under. */
  function Classify(key: string): Category {
    Lookup(Extension(key))
  }

  /**
   The lookup returns the first category in lookup order whose table holds
   the extension, and `other` only when no table holds it.
   */
  lemma LookupPicksFirstTable(ext: string)
    ensures Lookup(ext) == Other || InTable(Lookup(ext), ext)
    ensures forall c :: Rank(c) < Rank(Lookup(ext)) ==> !InTable(c, ext)
  {
    forall c | Rank(c) < Rank(Lookup(ext))
      ensures !InTable(c, ext)
    {
      match c
      case Image =>
      case Video =>
      case Audio =>
      case Document =>
      case Model3d =>
      case Other =>
    }
  }

  /** The lookup order as data: the categories whose tables are consulted, first to last. */
  const LookupOrder: seq<Category> := [Image, Video, Audio, Document, Model3d]

  /** Reference lookup: the first category in `order` whose table lists `ext`. */
  function FirstMatch(order: seq<Category>, ext: string): Category {
    if |order| == 0 then Other
    else if InTable(order[0], ext) then order[0]
    else FirstMatch(order[1..], ext)
  }

  /** The lookup agrees with a first-match scan over the ordered table list. */
  lemma LookupIsFirstMatch(ext: string)
    ensures Lookup(ext) == FirstMatch(LookupOrder, ext)
  {
    var t := LookupOrder;
    assert t[1..][1..][1..][1..] == [Model3d];
    assert t[1..][1..][1..][1..][1..] == [];
    assert FirstMatch(t[1..][1..][1..][1..], ext) == (if InTable(Model3d, ext) then Model3d else Other);
    assert t[1..][1..][1..] == [Document, Model3d];
    assert FirstMatch(t[1..][1..][1..], ext) == (if InTable(Document, ext) then Document else FirstMatch(t[1..][1..][1..][1..], ext));
    assert t[1..][1..] == [Audio, Document, Model3d];
    assert FirstMatch(t[1..][1..], ext) == (if InTable(Audio, ext) then Audio else FirstMatch(t[1..][1..][1..], ext));
    assert t[1..] == [Video, Audio, Document, Model3d];
    assert FirstMatch(t[1..], ext) == (if InTable(Video, ext) then Video else FirstMatch(t[1..][1..], ext));
  }

  /** For a key whose last `.` is at `n`, the extension is the lower-cased text that follows it. */
  lemma ExtensionAfterDot(key: string, n: nat)
    requires n < |key| && key[n] == '.' && '.' !in key[n + 1..]
    ensures Extension(key) == Lower(key)[n + 1..]
  {
    LowerFacts(key);
    LowerFacts(key[n + 1..]);
    assert Lower(key[n + 1..]) == Lower(key)[n + 1..];
    LowerKeepsNonLetters(key[n + 1..], '.');
    LastSegmentUnique(Lower(key), '.', Lower(key)[n + 1..]);
  }

  /** A lower-case key without `.` is its own extension. */
  lemma LowerDotlessExtension(key: string)
    requires '.' !in key && IsLower(key)
    ensures Extension(key) == key
  {
    ExtensionWithoutDot(key);
    LowerFacts(key);
  }

  /** Classification ignores case. */
  lemma ClassifyIgnoresCase(key: string)
    ensures Classify(key) == Classify(Lower(key))
  {
    LowerIdempotent(key);
    assert Extension(Lower(key)) == Extension(key);
  }

}
