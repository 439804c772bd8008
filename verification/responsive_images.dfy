/** The responsive-image script: which files of the image folder it takes,
    the 1x/2x display widths configured per image, the three variants it
    writes for a configured image, and the markup helper that refers to
    them. The image encoder and the file system are left out: a variant is
    the path it is written to, its maximum width and its format. */
module ResponsiveImages {
  import opened Wrappers
  import opened Text
  import opened ImagePaths

  /** The display widths of one image, at 1x and 2x pixel density. */
  datatype SizeEntry = SizeEntry(name: string, size1x: nat, size2x: nat)

  const ImageSizes: seq<SizeEntry> := [
    SizeEntry("regular3-2", 380, 760),
    SizeEntry("fotografico", 444, 888),
    SizeEntry("privado1", 380, 760),
    SizeEntry("ejecutivo", 380, 760),
    SizeEntry("_DSC1725", 380, 760),
    SizeEntry("eVscope2-20250418-015040", 253, 506),
    SizeEntry("eVscope2-20250520-005028", 253, 506),
    SizeEntry("eVscope2-20250525-021351", 253, 506),
    SizeEntry("eVscope2-20250629-012206", 253, 506),
    SizeEntry("eVscope2-20250629-013307", 253, 506),
    SizeEntry("eVscope2-20250629-013312", 253, 506),
    SizeEntry("eVscope2-20250719-001348", 253, 506),
    SizeEntry("eVscope2-20250803-004143", 253, 506),
    SizeEntry("eVscope2-20250803-004145", 253, 506),
    SizeEntry("eVscope2-20250803-032904", 253, 506),
    SizeEntry("eVscope2-20250803-034840", 253, 506),
    SizeEntry("Nightskylogo", 40, 80),
    SizeEntry("me2", 400, 800)]

  /** Every configured 2x width is twice the 1x width. */
  lemma SizesAreDoubled()
    ensures |ImageSizes| == 18
    ensures forall i :: 0 <= i < |ImageSizes| ==> ImageSizes[i].size2x == 2 * ImageSizes[i].size1x
  {
  }

  function Lookup(table: seq<SizeEntry>, base: string): (r: Option<SizeEntry>)
    ensures r.Some? ==> r.value in table && r.value.name == base
    ensures r.None? <==> forall i :: 0 <= i < |table| ==> table[i].name != base
  {
    if |table| == 0 then None
    else if table[0].name == base then Some(table[0])
    else Lookup(table[1..], base)
  }

  /** `IMAGE_SIZES[baseName]`. */
  function SizesFor(base: string): (r: Option<SizeEntry>)
    ensures r.Some? ==> r.value.name == base && r.value.size2x == 2 * r.value.size1x
    ensures r.None? <==> forall i :: 0 <= i < |ImageSizes| ==> ImageSizes[i].name != base
  {
    SizesAreDoubled();
    Lookup(ImageSizes, base)
  }

  /** `getImageFiles`' test: an image extension, and neither `backup` nor
      `hero` anywhere in the name (those two compared with case). */
  predicate Selected(file: string) {
    HasImageExtension(file) && !Contains(file, "backup") && !Contains(file, "hero")
  }

  /** `getImageFiles`: the selected names, in directory order. */
  function ImageFiles(files: seq<string>): (r: seq<string>)
    ensures forall f :: f in r <==> f in files && Selected(f)
    ensures |r| <= |files|
  {
    if |files| == 0 then []
    else (if Selected(files[0]) then [files[0]] else []) + ImageFiles(files[1..])
  }

  const OutputDir: string := "images/responsive/"

  /** The path a variant of `base` with the given suffix is written to. */
  function OutPath(base: string, suffix: string): string {
    OutputDir + base + suffix
  }

  /** The last characters of a variant's path are its suffix. */
  lemma OutPathTail(base: string, suffix: string, k: nat)
    requires k < |suffix|
    ensures var p := OutPath(base, suffix);
      |p| >= |suffix| && p[|p| - |suffix| + k] == suffix[k]
  {
  }

  /** `createResponsiveVariants`: nothing for an image without a size entry;
      otherwise a 1x and a 2x WebP and a 1x JPEG. */
  function Variants(file: string): (r: seq<Output>)
    ensures SizesFor(ParsePath(file).name).None? <==> r == []
    ensures SizesFor(ParsePath(file).name).Some? ==>
      var base := ParsePath(file).name;
      var s := SizesFor(base).value;
      && |r| == 3
      && r[0].path == OutPath(base, "-1x.webp") && r[0].format == Webp
      && r[1].path == OutPath(base, "-2x.webp") && r[1].format == Webp
      && r[2].path == OutPath(base, "-1x.jpg") && r[2].format == Jpeg
      && r[0].maxWidth == Some(s.size1x) && r[1].maxWidth == Some(2 * s.size1x) && r[2].maxWidth == Some(s.size1x)
  {
    var base := ParsePath(file).name;
    match SizesFor(base)
    case None => []
    case Some(s) =>
      [Output(OutPath(base, "-1x.webp"), Some(s.size1x), Webp),
       Output(OutPath(base, "-2x.webp"), Some(s.size2x), Webp),
       Output(OutPath(base, "-1x.jpg"), Some(s.size1x), Jpeg)]
  }

  /** `generateResponsiveImages`: the variants of every selected file, in
      order. */
  function Plan(files: seq<string>): (r: seq<Output>)
    ensures forall o :: o in r ==> exists f :: f in files && Selected(f) && o in Variants(f)
    ensures forall f, o :: f in files && Selected(f) && o in Variants(f) ==> o in r
  {
    if |files| == 0 then []
    else
      var here := if Selected(files[0]) then Variants(files[0]) else [];
      assert forall o :: o in here ==> files[0] in files && Selected(files[0]) && o in Variants(files[0]);
      assert forall f :: f in files ==> f == files[0] || f in files[1..];
      here + Plan(files[1..])
  }

  /** The files the `<picture>` markup of an image refers to. */
  function PictureReferences(base: string): seq<string> {
    [OutPath(base, "-1x.webp"), OutPath(base, "-2x.webp"),
     OutPath(base, "-1x.jpg"), OutPath(base, "-2x.jpg")]
  }

  /** The literal text of the `<picture>` template, around its values. */
  const PictureTexts: seq<string> := [
    "<picture class=\"",
    "\">\n  <source srcset=\"",
    " 1x, ",
    " 2x\" type=\"image/webp\">\n  <img src=\"",
    "\" \n       srcset=\"",
    " 1x, ",
    " 2x\"\n       alt=\"Responsive image\" \n       loading=\"",
    "\"\n       width=\"",
    "\"\n       height=\"auto\">\n</picture>"]

  lemma PictureTextsShape()
    ensures |PictureTexts| == 9
    ensures PictureTexts[0] == "<picture class=\""
    ensures var last := PictureTexts[8]; |last| > 0 && last[|last| - 1] == '>'
  {
  }

  /** The values of the template, in order: the class, the 1x and 2x WebP,
      the 1x JPEG (twice), the 2x JPEG, the loading mode and the 1x width. */
  function PictureValues(base: string, className: string, loading: string, size1x: nat): (r: seq<string>)
    ensures |r| == 8 && r[0] == className && r[6] == loading && r[7] == NatToString(size1x)
    ensures var refs := PictureReferences(base);
      r[1] == refs[0] && r[2] == refs[1] && r[3] == refs[2] && r[5] == refs[3]
  {
    var refs := PictureReferences(base);
    [className, refs[0], refs[1], refs[2], refs[2], refs[3], loading, NatToString(size1x)]
  }

  /** The literal text of the plain `<img>`, around its attributes. */
  const PlainTexts: seq<string> := ["<img ", " ", " ", " ", ">"]

  /** `name="value"`. */
  function Attr(name: string, value: string): string {
    name + "=\"" + value + "\""
  }

  function PlainValues(imageName: string, className: string, loading: string): seq<string> {
    [Attr("src", "images/" + imageName), Attr("alt", "Image"), Attr("loading", loading), Attr("class", className)]
  }

  /** `generateSrcSet`: a plain `<img>` for an image without a size entry,
      otherwise the trimmed `<picture>` template. */
  function GenerateSrcSet(imageName: string, className: string, loading: string): string {
    var base := ParsePath(imageName).name;
    match SizesFor(base)
    case None => Fill(PlainTexts, PlainValues(imageName, className, loading))
    case Some(s) =>
      PictureTextsShape();
      Trim("\n" + Fill(PictureTexts, PictureValues(base, className, loading, s.size1x)))
  }

  /** An image without a size entry gets a plain `<img>` of the original file
      carrying the given loading mode and class. */
  lemma UnconfiguredIsPlainImg(imageName: string, className: string, loading: string)
    requires SizesFor(ParsePath(imageName).name).None?
    ensures var r := GenerateSrcSet(imageName, className, loading);
      && StartsWith(r, "<img ")
      && Contains(r, Attr("src", "images/" + imageName))
      && Contains(r, Attr("loading", loading))
      && Contains(r, Attr("class", className))
  {
    var values := PlainValues(imageName, className, loading);
    FillEnds(PlainTexts, values);
    FillContains(PlainTexts, values, 0);
    FillContains(PlainTexts, values, 2);
    FillContains(PlainTexts, values, 3);
  }

  /** The `<picture>` template for a base name and 1x width, trimmed: it
      starts at its opening tag, refers to all four files and gives the
      width. */
  lemma PictureMarkup(base: string, className: string, loading: string, size1x: nat)
    ensures |PictureTexts| == 9
    ensures var r := Trim("\n" + Fill(PictureTexts, PictureValues(base, className, loading, size1x)));
      && StartsWith(r, "<picture class=\"")
      && (forall k :: 0 <= k < 4 ==> Contains(r, PictureReferences(base)[k]))
      && Contains(r, NatToString(size1x))
  {
    var values := PictureValues(base, className, loading, size1x);
    PictureTextsShape();
    FillTrimmed(PictureTexts, values);
    FillEnds(PictureTexts, values);
    FillContains(PictureTexts, values, 1);
    FillContains(PictureTexts, values, 2);
    FillContains(PictureTexts, values, 3);
    FillContains(PictureTexts, values, 5);
    FillContains(PictureTexts, values, 7);
  }

  /** A configured image gets the `<picture>` markup, trimmed to start at its
      opening tag, referring to all four of its files and giving its 1x
      width. */
  lemma ConfiguredIsPicture(imageName: string, className: string, loading: string)
    requires SizesFor(ParsePath(imageName).name).Some?
    ensures var base := ParsePath(imageName).name;
      var r := GenerateSrcSet(imageName, className, loading);
      && StartsWith(r, "<picture class=\"")
      && (forall k :: 0 <= k < 4 ==> Contains(r, PictureReferences(base)[k]))
      && Contains(r, NatToString(SizesFor(base).value.size1x))
  {
    var base := ParsePath(imageName).name;
    PictureMarkup(base, className, loading, SizesFor(base).value.size1x);
  }

  /** As written: the `<picture>` of a configured image offers a 2x JPEG
      that no run of the script writes, for any input file. */
  lemma PictureRefersToMissingJpeg(imageName: string, className: string, loading: string)
    requires SizesFor(ParsePath(imageName).name).Some?
    ensures var missing := OutPath(ParsePath(imageName).name, "-2x.jpg");
      && Contains(GenerateSrcSet(imageName, className, loading), missing)
      && forall f, o :: o in Variants(f) ==> o.path != missing
  {
    var base := ParsePath(imageName).name;
    var missing := OutPath(base, "-2x.jpg");
    ConfiguredIsPicture(imageName, className, loading);
    assert PictureReferences(base)[3] == missing;
    forall f, o | o in Variants(f) ensures o.path != missing {
      NoVariantIsDoubleJpeg(base, f, o);
    }
  }

  /** No output of any file is a 2x JPEG. */
  lemma NoVariantIsDoubleJpeg(base: string, f: string, o: Output)
    requires o in Variants(f)
    ensures o.path != OutPath(base, "-2x.jpg")
  {
    var r := Variants(f);
    var b := ParsePath(f).name;
    assert o == r[0] || o == r[1] || o == r[2];
    if o == r[2] {
      SingleIsNotDouble(b, base);
    } else if o == r[0] {
      WebpIsNotJpeg(b, base, "-1x.webp");
    } else {
      WebpIsNotJpeg(b, base, "-2x.webp");
    }
  }

  lemma SingleIsNotDouble(b: string, base: string)
    ensures OutPath(b, "-1x.jpg") != OutPath(base, "-2x.jpg")
  {
    OutPathTail(base, "-2x.jpg", 1);
    OutPathTail(b, "-1x.jpg", 1);
  }

  lemma WebpIsNotJpeg(b: string, base: string, suffix: string)
    requires suffix == "-1x.webp" || suffix == "-2x.webp"
    ensures OutPath(b, suffix) != OutPath(base, "-2x.jpg")
  {
    OutPathTail(base, "-2x.jpg", 6);
    OutPathTail(b, suffix, 7);
  }

  /** Corrected: a configured image also gets its 2x JPEG. */
  function CorrectedVariants(file: string): (r: seq<Output>)
    ensures SizesFor(ParsePath(file).name).None? <==> r == []
    ensures r != [] ==> |r| == 4 && r[0] == Variants(file)[0] && r[1] == Variants(file)[1] && r[2] == Variants(file)[2]
    ensures r != [] ==> r[3] == Output(OutPath(ParsePath(file).name, "-2x.jpg"), Some(2 * SizesFor(ParsePath(file).name).value.size1x), Jpeg)
  {
    var base := ParsePath(file).name;
    match SizesFor(base)
    case None => []
    case Some(s) => Variants(file) + [Output(OutPath(base, "-2x.jpg"), Some(s.size2x), Jpeg)]
  }

  /** Corrected: every file the `<picture>` markup of a configured image
      refers to is written when that image is processed. */
  lemma CorrectedPictureResolves(file: string, className: string, loading: string)
    requires SizesFor(ParsePath(file).name).Some?
    ensures forall i :: 0 <= i < 4 ==> PictureReferences(ParsePath(file).name)[i] in Paths(CorrectedVariants(file))
  {
    var base := ParsePath(file).name;
    var r := CorrectedVariants(file);
    assert r[0].path == PictureReferences(base)[0];
    assert r[1].path == PictureReferences(base)[1];
    assert r[2].path == PictureReferences(base)[2];
    assert r[3].path == PictureReferences(base)[3];
    assert r[0] in r && r[1] in r && r[2] in r && r[3] in r;
  }
}
