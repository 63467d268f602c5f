/**
 Facts about the classifier's fixed tables, and worked examples of
 `getFileType` on particular keys.
 */
module FileTypeFacts {
  import opened Strings
  import opened FileType

  /** A table entry is a bare extension: lower-case and free of `.`. */
  predicate Plain(e: string) {
    IsLower(e) && '.' !in e
  }

  lemma ImageEntriesPlain()
    ensures forall e :: e in ImageExts ==> Plain(e)
  {
  }

  lemma VideoEntriesPlain()
    ensures forall e :: e in VideoExts ==> Plain(e)
  {
  }

  lemma AudioEntriesPlain()
    ensures forall e :: e in AudioExts ==> Plain(e)
  {
  }

  lemma DocumentEntriesPlain()
    ensures forall e :: e in DocumentExts ==> Plain(e)
  {
  }

  lemma Model3dEntriesPlain()
    ensures forall e :: e in Model3dExts ==> Plain(e)
  {
  }

  /** Every table entry is its own extension. */
  lemma TableEntryIsExtension(c: Category, e: string)
    requires InTable(c, e)
    ensures Extension(e) == e
  {
    ImageEntriesPlain();
    VideoEntriesPlain();
    AudioEntriesPlain();
    DocumentEntriesPlain();
    Model3dEntriesPlain();
    LowerDotlessExtension(e);
  }

  /** No image extension is listed in another table. */
  lemma ImageTableDisjoint()
    ensures forall x :: x in ImageExts ==> x !in VideoExts && x !in AudioExts && x !in DocumentExts && x !in Model3dExts
  {
  }

  /** No video extension is listed in a later table other than audio. */
  lemma VideoTableDisjoint()
    ensures forall x :: x in VideoExts ==> x !in DocumentExts && x !in Model3dExts
  {
  }

  /** No audio extension is listed in a later table. */
  lemma AudioTableDisjoint()
    ensures forall x :: x in AudioExts ==> x !in DocumentExts && x !in Model3dExts
  {
  }

  /** No document extension is a 3D-model extension. */
  lemma DocumentTableDisjoint()
    ensures forall x :: x in DocumentExts ==> x !in Model3dExts
  {
  }

  /** `ogg` is the one extension the video and audio tables share. */
  lemma VideoAudioShareOnlyOgg()
    ensures forall x :: x in VideoExts && x in AudioExts <==> x == "ogg"
  {
  }

  /** The category the lookup gives a table entry: its own, except `ogg`, which is video. */
  lemma LookupTableEntry(c: Category, e: string)
    requires InTable(c, e)
    ensures Lookup(e) == (if e == "ogg" then Video else c)
  {
    ImageTableDisjoint();
    VideoTableDisjoint();
    AudioTableDisjoint();
    DocumentTableDisjoint();
    VideoAudioShareOnlyOgg();
  }

  /**
   Every extension of a table classifies as that table's category, except
   that `ogg`, listed for both video and audio, classifies as video.
   */
  lemma TablesClassify(c: Category, e: string)
    requires InTable(c, e)
    ensures Classify(e) == (if e == "ogg" then Video else c)
  {
    TableEntryIsExtension(c, e);
    LookupTableEntry(c, e);
  }

  lemma OggKeyExtension()
    ensures Extension("x.ogg") == "ogg"
  {
    ExtensionAfterDot("x.ogg", 1);
    LowerFacts("x.ogg");
    assert "x.ogg"[2..] == "ogg";
  }

  lemma DotlessKeyExtensions()
    ensures Extension("png") == "png"
    ensures Extension("photos/png") == "photos/png"
  {
    LowerDotlessExtension("png");
    LowerDotlessExtension("photos/png");
  }

  lemma DoubleDotKeyExtension()
    ensures Extension("archive.png.zip") == "zip"
  {
    ExtensionAfterDot("archive.png.zip", 11);
    LowerFacts("archive.png.zip");
    assert "archive.png.zip"[12..] == "zip";
  }

  lemma UpperCaseKeyExtension()
    ensures Extension("Holiday.JPG") == "jpg"
  {
    LowerFacts("Holiday.JPG");
    assert Lower("Holiday.JPG") == "holiday.jpg";
    ExtensionAfterDot("Holiday.JPG", 7);
    assert "holiday.jpg"[8..] == "jpg";
  }

  lemma ExampleLookups()
    ensures Lookup("ogg") == Video && Lookup("png") == Image && Lookup("jpg") == Image
  {
  }

  lemma PathMiss()
    ensures Lookup("photos/png") == Other
  {
  }

  lemma ZipMiss()
    ensures Lookup("zip") == Other
  {
  }

  /**
   Worked examples: `ogg`, though an audio extension, makes a key video; a
   key without `.` is its own extension, so `png` is an image but
   `photos/png` is not; only the text after the last `.` counts; and case
   does not matter.
   */
  lemma ClassifyExamples()
    ensures "ogg" in AudioExts && Classify("x.ogg") == Video
    ensures Classify("png") == Image
    ensures Classify("photos/png") == Other
    ensures Classify("archive.png.zip") == Other
    ensures Classify("Holiday.JPG") == Image
  {
    OggKeyExtension();
    DotlessKeyExtensions();
    DoubleDotKeyExtension();
    UpperCaseKeyExtension();
    ExampleLookups();
    PathMiss();
    ZipMiss();
  }
}
