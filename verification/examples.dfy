/**
 A worked listing: a page holding an image, a folder placeholder and a newer
 video becomes the video then the image, the placeholder dropped.
 */
module Examples {
  import opened Strings
  import opened FileType
  import opened Listing

  const ImageObject: RawObject := RawObject("pics/a.jpg", 10, 1)
  const FolderObject: RawObject := RawObject("pics/", 0, 2)
  const VideoObject: RawObject := RawObject("pics/b.mp4", 20, 3)

  const ImageEntry: Entry := Entry("pics/a.jpg", "a.jpg", 10, 1, Image)
  const VideoEntry: Entry := Entry("pics/b.mp4", "b.mp4", 20, 3, Video)

  /** The names of `pics/a.jpg` and `pics/b.mp4` are `a.jpg` and `b.mp4`. */
  lemma ExampleNames()
    ensures LastSegment("pics/a.jpg", '/') == "a.jpg"
    ensures LastSegment("pics/b.mp4", '/') == "b.mp4"
  {
    LastSegmentUnique("pics/a.jpg", '/', "a.jpg");
    LastSegmentUnique("pics/b.mp4", '/', "b.mp4");
  }

  /** `pics/a.jpg` is an image. */
  lemma ImageCategory()
    ensures Classify("pics/a.jpg") == Image
  {
    ExtensionAfterDot("pics/a.jpg", 6);
    LowerFacts("pics/a.jpg");
    assert "pics/a.jpg"[7..] == "jpg";
  }

  /** `pics/b.mp4` is a video. */
  lemma VideoCategory()
    ensures Classify("pics/b.mp4") == Video
  {
    ExtensionAfterDot("pics/b.mp4", 6);
    LowerFacts("pics/b.mp4");
    assert "pics/b.mp4"[7..] == "mp4";
  }

  /** The entry built for the image object. */
  lemma ImageObjectEntry()
    ensures ToEntry(ImageObject) == ImageEntry
  {
    ExampleNames();
    ImageCategory();
  }

  /** The entry built for the video object. */
  lemma VideoObjectEntry()
    ensures ToEntry(VideoObject) == VideoEntry
  {
    ExampleNames();
    VideoCategory();
  }

  /** The folder placeholder has no name, so the `filter` step drops it. */
  lemma FolderObjectNameless()
    ensures ToEntry(FolderObject).name == ""
  {
  }

  /** The `map` step on a page of three objects. */
  lemma EntriesOfThree(x: RawObject, y: RawObject, z: RawObject)
    ensures Entries([x, y, z]) == [ToEntry(x), ToEntry(y), ToEntry(z)]
  {
  }

  /** The `filter` step drops a nameless middle entry. */
  lemma NamedDropsMiddle(a: Entry, b: Entry, c: Entry)
    requires a.name != "" && b.name == "" && c.name != ""
    ensures Named([a, b, c]) == [a, c]
  {
    assert [a, b, c][1..] == [b, c];
    assert [b, c][1..] == [c];
    assert [c][1..] == [];
  }

  /** The `sort` step puts the newer of two entries first. */
  lemma SortTwo(a: Entry, b: Entry)
    requires a.lastModified < b.lastModified
    ensures SortNewestFirst([a, b]) == [b, a]
  {
    assert [a, b][1..] == [b];
    assert [b][1..] == [];
    assert SortNewestFirst([b]) == [b];
  }

  /**
   A page of three objects whose middle one is a folder placeholder and
   whose last is newer than its first lists the last, then the first.
   */
  lemma ListingOfThree(x: RawObject, y: RawObject, z: RawObject)
    requires ToEntry(x).name != "" && ToEntry(y).name == "" && ToEntry(z).name != ""
    requires x.lastModified < z.lastModified
    ensures Normalise([x, y, z]) == [ToEntry(z), ToEntry(x)]
  {
    EntriesOfThree(x, y, z);
    NamedDropsMiddle(ToEntry(x), ToEntry(y), ToEntry(z));
    SortTwo(ToEntry(x), ToEntry(z));
  }

  /**
   The page `pics/a.jpg` (10 bytes, time 1), `pics/` (time 2), `pics/b.mp4`
   (20 bytes, time 3) is listed as `b.mp4`, a video, then `a.jpg`, an image.
   */
  lemma ExampleListing()
    ensures Normalise([ImageObject, FolderObject, VideoObject]) == [VideoEntry, ImageEntry]
  {
    ImageObjectEntry();
    VideoObjectEntry();
    FolderObjectNameless();
    ListingOfThree(ImageObject, FolderObject, VideoObject);
  }
}
