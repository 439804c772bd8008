/** The image optimisation script: every image of the folder is written as
    a JPEG and a WebP at each breakpoint width it reaches, and once more at
    its own width; a markup helper builds the `<picture>` element that
    chooses among those files by viewport width. The image encoder, the file
    system and the reading of an image's width are left out: the width is a
    parameter. */
module OptimizeImages {
  import opened Wrappers
  import opened Text
  import opened ImagePaths

  /** A named viewport width. */
  datatype Breakpoint = Breakpoint(tag: string, width: nat)

  /** The breakpoints, in the order the script visits them. */
  const Breakpoints: seq<Breakpoint> := [
    Breakpoint("mobile", 480),
    Breakpoint("tablet", 768),
    Breakpoint("desktop", 1200),
    Breakpoint("large", 1920)]

  /** The widest breakpoint: an original this wide reaches all of them. */
  const Widest: nat := 1920

  /** The breakpoint widths strictly increase up to `Widest`, no tag starts
      like `original`, and the tags start with four different letters. */
  lemma BreakpointsIncreasing()
    ensures |Breakpoints| == 4
    ensures forall i, j :: 0 <= i < j < |Breakpoints| ==> Breakpoints[i].width < Breakpoints[j].width
    ensures forall b :: b in Breakpoints ==> |b.tag| > 0 && b.tag[0] != 'o' && b.width <= Widest
    ensures forall b, c :: b in Breakpoints && c in Breakpoints && b.tag[0] == c.tag[0] ==> b == c
  {
  }

  /** `getImageFiles`: the names with an image extension, in directory
      order. */
  function ImageFiles(files: seq<string>): (r: seq<string>)
    ensures forall f :: f in r <==> f in files && HasImageExtension(f)
    ensures |r| <= |files|
  {
    if |files| == 0 then []
    else (if HasImageExtension(files[0]) then [files[0]] else []) + ImageFiles(files[1..])
  }

  const OptimizedDir: string := "images/optimized/"

  /** The path an output of `base` with the given suffix is written to. */
  function OptPath(base: string, suffix: string): string {
    OptimizedDir + base + suffix
  }

  /** The characters after the directory and the base name are the suffix. */
  lemma OptPathAt(base: string, suffix: string, k: nat)
    requires k < |suffix|
    ensures |OptPath(base, suffix)| == |OptimizedDir| + |base| + |suffix|
    ensures OptPath(base, suffix)[|OptimizedDir| + |base| + k] == suffix[k]
  {
  }

  /** Two suffixes give the same path exactly when they are equal. */
  lemma OptPathInjective(base: string, s: string, t: string)
    ensures OptPath(base, s) == OptPath(base, t) <==> s == t
  {
    var n := |OptimizedDir| + |base|;
    assert OptPath(base, s)[n..] == s;
    assert OptPath(base, t)[n..] == t;
  }

  /** The JPEG written for breakpoint `b`: named with the source's extension. */
  function JpegVariant(base: string, ext: string, b: Breakpoint): Output {
    Output(OptPath(base, "-" + b.tag + ext), Some(b.width), Jpeg)
  }

  /** The WebP written for breakpoint `b`. */
  function WebpVariant(base: string, b: Breakpoint): Output {
    Output(OptPath(base, "-" + b.tag + ".webp"), Some(b.width), Webp)
  }

  /** The resized pair for each breakpoint the original reaches, in the
      breakpoints' order. */
  function BreakpointVariants(bps: seq<Breakpoint>, base: string, ext: string, width: int): (r: seq<Output>)
    ensures forall o :: o in r ==>
      exists b :: b in bps && b.width <= width && (o == JpegVariant(base, ext, b) || o == WebpVariant(base, b))
    ensures forall b :: b in bps && b.width <= width ==>
      JpegVariant(base, ext, b) in r && WebpVariant(base, b) in r
  {
    if |bps| == 0 then []
    else
      var b := bps[0];
      var here := if width < b.width then [] else [JpegVariant(base, ext, b), WebpVariant(base, b)];
      var rest := BreakpointVariants(bps[1..], base, ext, width);
      assert forall c :: c in bps[1..] ==> c in bps;
      assert forall c :: c in bps ==> c == b || c in bps[1..];
      here + rest
  }

  /** What one image yields: the breakpoint pairs, then the pair at the
      original width, the JPEGs named with `jpegExt`. */
  function OutputsOf(base: string, jpegExt: string, width: int): (r: seq<Output>)
    ensures |r| >= 2
    ensures r[|r| - 2] == Output(OptPath(base, "-original" + jpegExt), None, Jpeg)
    ensures r[|r| - 1] == Output(OptPath(base, "-original.webp"), None, Webp)
    ensures forall o :: o in r <==> o in BreakpointVariants(Breakpoints, base, jpegExt, width) || o == r[|r| - 2] || o == r[|r| - 1]
  {
    BreakpointVariants(Breakpoints, base, jpegExt, width)
      + [Output(OptPath(base, "-original" + jpegExt), None, Jpeg),
         Output(OptPath(base, "-original.webp"), None, Webp)]
  }

  /** One iteration of `processImages`: the JPEG outputs carry the source's
      extension whatever their encoding. */
  function ProcessImage(file: string, width: int): seq<Output> {
    OutputsOf(ParsePath(file).name, ParsePath(file).ext, width)
  }

  /** Resized variants exist exactly for the breakpoints no wider than the
      original, and then in both formats. */
  lemma VariantsUpToWidth(base: string, jpegExt: string, width: int, b: Breakpoint)
    requires b in Breakpoints
    ensures (exists o :: o in OutputsOf(base, jpegExt, width) && o.maxWidth == Some(b.width)) <==> b.width <= width
    ensures b.width <= width ==>
      JpegVariant(base, jpegExt, b) in OutputsOf(base, jpegExt, width) && WebpVariant(base, b) in OutputsOf(base, jpegExt, width)
  {
    BreakpointsIncreasing();
    var r := OutputsOf(base, jpegExt, width);
    var bv := BreakpointVariants(Breakpoints, base, jpegExt, width);
    if b.width <= width {
      assert WebpVariant(base, b) in bv;
    } else {
      forall o | o in r ensures o.maxWidth != Some(b.width) {
        if o in bv {
          var c :| c in Breakpoints && c.width <= width && (o == JpegVariant(base, jpegExt, c) || o == WebpVariant(base, c));
        }
      }
    }
  }

  /** The file the markup names for a breakpoint's WebP source. */
  function WebpRef(base: string, b: Breakpoint): string {
    OptPath(base, "-" + b.tag + ".webp")
  }

  /** The file the markup names for a breakpoint's JPEG source. */
  function JpegRef(base: string, b: Breakpoint): string {
    OptPath(base, "-" + b.tag + ".jpg")
  }

  /** The files the template names, in order: the four WebP sources, the
      three JPEG sources, the fallback image. */
  function PictureReferences(base: string): (r: seq<string>)
    ensures |r| == 8
    ensures forall i :: 0 <= i < 4 ==> r[i] == WebpRef(base, Breakpoints[i])
    ensures forall i :: 0 <= i < 3 ==> r[4 + i] == JpegRef(base, Breakpoints[i])
    ensures r[7] == OptPath(base, "-original.jpg")
  {
    [WebpRef(base, Breakpoints[0]), WebpRef(base, Breakpoints[1]), WebpRef(base, Breakpoints[2]), WebpRef(base, Breakpoints[3]),
     JpegRef(base, Breakpoints[0]), JpegRef(base, Breakpoints[1]), JpegRef(base, Breakpoints[2]),
     OptPath(base, "-original.jpg")]
  }

  /** The literal text of the `<picture>` template, around its values. */
  const PictureTexts: seq<string> := [
    "<picture class=\"",
    "\">\n  <!-- WebP sources -->\n  <source media=\"(max-width: 480px)\" srcset=\"",
    "\" type=\"image/webp\">\n  <source media=\"(max-width: 768px)\" srcset=\"",
    "\" type=\"image/webp\">\n  <source media=\"(max-width: 1200px)\" srcset=\"",
    "\" type=\"image/webp\">\n  <source srcset=\"",
    "\" type=\"image/webp\">\n  \n  <!-- JPEG fallbacks -->\n  <source media=\"(max-width: 480px)\" srcset=\"",
    "\">\n  <source media=\"(max-width: 768px)\" srcset=\"",
    "\">\n  <source media=\"(max-width: 1200px)\" srcset=\"",
    "\">\n  \n  <!-- Fallback img -->\n  <img src=\"",
    "\" alt=\"",
    "\" loading=\"",
    "\">\n</picture>"]

  lemma PictureTextsShape()
    ensures |PictureTexts| == 12
    ensures PictureTexts[0] == "<picture class=\""
    ensures var last := PictureTexts[11]; |last| > 0 && last[|last| - 1] == '>'
  {
  }

  /** The values of the template, in order: the class, the eight file
      references, the alternative text and the loading mode. */
  function PictureValues(base: string, alt: string, className: string, loading: string): (r: seq<string>)
    ensures |r| == 11 && r[0] == className && r[9] == alt && r[10] == loading
    ensures forall k :: 0 <= k < 8 ==> r[1 + k] == PictureReferences(base)[k]
  {
    [className] + PictureReferences(base) + [alt, loading]
  }

  /** `generatePictureElement`: the trimmed template. */
  function GeneratePictureElement(imageName: string, alt: string, className: string, loading: string): string {
    PictureTextsShape();
    Trim("\n" + Fill(PictureTexts, PictureValues(ParsePath(imageName).name, alt, className, loading)))
  }

  /** Trimming removes only the template's leading line break: the markup
      starts at its opening tag. */
  lemma PictureIsTrimmed(imageName: string, alt: string, className: string, loading: string)
    ensures |PictureTexts| == 12
    ensures GeneratePictureElement(imageName, alt, className, loading)
      == Fill(PictureTexts, PictureValues(ParsePath(imageName).name, alt, className, loading))
    ensures StartsWith(GeneratePictureElement(imageName, alt, className, loading), "<picture class=\"")
  {
    PictureTextsShape();
    var values := PictureValues(ParsePath(imageName).name, alt, className, loading);
    FillTrimmed(PictureTexts, values);
    FillEnds(PictureTexts, values);
  }

  /** The markup carries the class, the alternative text and the loading
      mode. */
  lemma PictureElementShape(imageName: string, alt: string, className: string, loading: string)
    ensures var r := GeneratePictureElement(imageName, alt, className, loading);
      Contains(r, className) && Contains(r, alt) && Contains(r, loading)
  {
    var values := PictureValues(ParsePath(imageName).name, alt, className, loading);
    PictureIsTrimmed(imageName, alt, className, loading);
    FillContains(PictureTexts, values, 0);
    FillContains(PictureTexts, values, 9);
    FillContains(PictureTexts, values, 10);
  }

  /** The markup names every file of the reference list: the WebP file of
      every breakpoint, the JPEG file of every breakpoint but the widest, and
      the fallback image. */
  lemma PictureReferencesAppear(imageName: string, alt: string, className: string, loading: string)
    ensures forall k :: 0 <= k < 8 ==>
      Contains(GeneratePictureElement(imageName, alt, className, loading), PictureReferences(ParsePath(imageName).name)[k])
  {
    var base := ParsePath(imageName).name;
    var values := PictureValues(base, alt, className, loading);
    PictureIsTrimmed(imageName, alt, className, loading);
    forall k | 0 <= k < 8
      ensures Contains(Fill(PictureTexts, values), PictureReferences(base)[k])
    {
      FillContains(PictureTexts, values, 1 + k);
    }
  }

  /** A resized output's name continues after the dash with its
      breakpoint's tag, so none is written where an original-width one would
      be. */
  lemma NoBreakpointOutputIsOriginal(base: string, ext: string, width: int, suffix: string)
    requires |suffix| > 1 && suffix[1] == 'o'
    ensures forall o :: o in BreakpointVariants(Breakpoints, base, ext, width) ==> o.path != OptPath(base, suffix)
  {
    forall o | o in BreakpointVariants(Breakpoints, base, ext, width) ensures o.path != OptPath(base, suffix) {
      var b :| b in Breakpoints && b.width <= width && (o == JpegVariant(base, ext, b) || o == WebpVariant(base, b));
      var tail := if o == JpegVariant(base, ext, b) then ext else ".webp";
      assert o.path == OptPath(base, "-" + b.tag + tail);
      BreakpointNotOriginal(base, b, tail, suffix);
    }
  }

  /** A breakpoint's file is not a file whose suffix continues with `o`. */
  lemma BreakpointNotOriginal(base: string, b: Breakpoint, tail: string, suffix: string)
    requires b in Breakpoints && |suffix| > 1 && suffix[1] == 'o'
    ensures OptPath(base, "-" + b.tag + tail) != OptPath(base, suffix)
  {
    BreakpointsIncreasing();
    DashTagAt(b.tag, tail);
    DifferAfterDash(base, "-" + b.tag + tail, suffix);
  }

  /** The original-width JPEG is named `-original.jpg` only for a `.jpg`
      source. */
  lemma OriginalJpegName(base: string, ext: string)
    requires ext != ".jpg"
    ensures OptPath(base, "-original" + ext) != OptPath(base, "-original.jpg")
    ensures OptPath(base, "-original.webp") != OptPath(base, "-original.jpg")
  {
    AppendCancel("-original", ext, ".jpg");
    assert "-original" + ".jpg" == "-original.jpg";
    OptPathInjective(base, "-original" + ext, "-original.jpg");
    OptPathAt(base, "-original.webp", 10);
    OptPathAt(base, "-original.jpg", 10);
  }

  /** With any extension but `.jpg`, no output is `-original.jpg`. */
  lemma OriginalJpegNeverWritten(base: string, ext: string, width: int)
    requires ext != ".jpg"
    ensures OptPath(base, "-original.jpg") !in Paths(OutputsOf(base, ext, width))
  {
    OriginalJpegName(base, ext);
    NoBreakpointOutputIsOriginal(base, ext, width, "-original.jpg");
  }

  /** As written: for a source whose extension is not `.jpg` (a PNG, say)
      the fallback image of the markup is a file the script never writes,
      whatever the original's width. */
  lemma FallbackMissingForOtherExtensions(file: string, width: int, alt: string, className: string, loading: string)
    requires ParsePath(file).ext != ".jpg"
    ensures Contains(GeneratePictureElement(file, alt, className, loading), OptPath(ParsePath(file).name, "-original.jpg"))
    ensures OptPath(ParsePath(file).name, "-original.jpg") !in Paths(ProcessImage(file, width))
  {
    PictureReferencesAppear(file, alt, className, loading);
    assert PictureReferences(ParsePath(file).name)[7] == OptPath(ParsePath(file).name, "-original.jpg");
    OriginalJpegNeverWritten(ParsePath(file).name, ParsePath(file).ext, width);
  }

  /** The input that shows it: `sky.png` parses with extension `.png`. */
  lemma PngSourceExample()
    ensures ParsePath("sky.png").ext == ".png"
  {
    var name, ext := "sky", ".png";
    ParsePathOfParts(name, ext);
    assert name + ext == "sky.png";
  }

  /** The character after the dash of a tagged suffix is the tag's first. */
  lemma DashTagAt(tag: string, rest: string)
    requires |tag| > 0
    ensures |"-" + tag + rest| > 1 && ("-" + tag + rest)[1] == tag[0]
  {
  }

  /** Suffixes that differ right after the dash name different files. */
  lemma DifferAfterDash(base: string, s: string, t: string)
    requires |s| > 1 && |t| > 1 && s[1] != t[1]
    ensures OptPath(base, s) != OptPath(base, t)
  {
    OptPathAt(base, s, 1);
    OptPathAt(base, t, 1);
  }

  /** A file of a breakpoint the original reaches is not a file of one it
      does not reach. */
  lemma ReachedIsNotUnreached(base: string, c: Breakpoint, tail: string, b: Breakpoint, rest: string)
    requires b in Breakpoints && c in Breakpoints && c.width < b.width
    ensures OptPath(base, "-" + c.tag + tail) != OptPath(base, "-" + b.tag + rest)
  {
    BreakpointsIncreasing();
    DashTagAt(c.tag, tail);
    DashTagAt(b.tag, rest);
    DifferAfterDash(base, "-" + c.tag + tail, "-" + b.tag + rest);
  }

  /** An original-width file is not a file of any breakpoint. */
  lemma OriginalIsNotBreakpoint(base: string, tail: string, b: Breakpoint, rest: string)
    requires b in Breakpoints
    ensures OptPath(base, "-original" + tail) != OptPath(base, "-" + b.tag + rest)
  {
    BreakpointsIncreasing();
    assert "-original" + tail == "-" + "original" + tail;
    DashTagAt("original", tail);
    DashTagAt(b.tag, rest);
    DifferAfterDash(base, "-" + "original" + tail, "-" + b.tag + rest);
  }

  /** One output of an original narrower than `b` is not a file of `b`. */
  lemma NotUnreachedFile(base: string, ext: string, width: int, b: Breakpoint, rest: string, o: Output)
    requires b in Breakpoints && width < b.width
    requires o in OutputsOf(base, ext, width)
    ensures o.path != OptPath(base, "-" + b.tag + rest)
  {
    var r := OutputsOf(base, ext, width);
    if o in BreakpointVariants(Breakpoints, base, ext, width) {
      var c :| c in Breakpoints && c.width <= width && (o == JpegVariant(base, ext, c) || o == WebpVariant(base, c));
      var tail := if o == JpegVariant(base, ext, c) then ext else ".webp";
      assert o.path == OptPath(base, "-" + c.tag + tail);
      ReachedIsNotUnreached(base, c, tail, b, rest);
    } else {
      var tail := if o == r[|r| - 2] then ext else ".webp";
      assert o.path == OptPath(base, "-original" + tail);
      OriginalIsNotBreakpoint(base, tail, b, rest);
    }
  }

  /** A file named after a breakpoint the original does not reach is never
      written: after the dash, every output's name starts with another
      letter. */
  lemma NoOutputForUnreachedBreakpoint(base: string, ext: string, width: int, b: Breakpoint, rest: string)
    requires b in Breakpoints && width < b.width
    ensures OptPath(base, "-" + b.tag + rest) !in Paths(OutputsOf(base, ext, width))
  {
    forall o | o in OutputsOf(base, ext, width)
      ensures o.path != OptPath(base, "-" + b.tag + rest)
    {
      NotUnreachedFile(base, ext, width, b, rest, o);
    }
  }

  /** As written: the markup names the WebP of every breakpoint and the JPEG
      of the three narrower ones, but an original narrower than a breakpoint
      gets none of that breakpoint's files (a 1000-pixel original has no
      `-desktop` or `-large` file). */
  lemma UnreachedBreakpointReferenced(file: string, width: int, alt: string, className: string, loading: string, i: nat)
    requires i < |Breakpoints| && width < Breakpoints[i].width
    ensures var base := ParsePath(file).name;
      && Contains(GeneratePictureElement(file, alt, className, loading), WebpRef(base, Breakpoints[i]))
      && WebpRef(base, Breakpoints[i]) !in Paths(ProcessImage(file, width))
    ensures var base := ParsePath(file).name;
      i < 3 ==>
        && Contains(GeneratePictureElement(file, alt, className, loading), JpegRef(base, Breakpoints[i]))
        && JpegRef(base, Breakpoints[i]) !in Paths(ProcessImage(file, width))
  {
    var base := ParsePath(file).name;
    var b := Breakpoints[i];
    PictureReferencesAppear(file, alt, className, loading);
    assert PictureReferences(base)[i] == WebpRef(base, b);
    NoOutputForUnreachedBreakpoint(base, ParsePath(file).ext, width, b, ".webp");
    if i < 3 {
      assert PictureReferences(base)[4 + i] == JpegRef(base, b);
      NoOutputForUnreachedBreakpoint(base, ParsePath(file).ext, width, b, ".jpg");
    }
  }

  /** Once the original reaches every breakpoint its width no longer matters. */
  lemma {:induction false} AllReached(bps: seq<Breakpoint>, base: string, ext: string, w1: int, w2: int)
    requires forall b :: b in bps ==> b.width <= w1 && b.width <= w2
    ensures BreakpointVariants(bps, base, ext, w1) == BreakpointVariants(bps, base, ext, w2)
    decreases |bps|
  {
    if |bps| > 0 {
      assert forall b :: b in bps[1..] ==> b in bps;
      AllReached(bps[1..], base, ext, w1, w2);
    }
  }

  /** Corrected: the pair of every breakpoint is written whatever the
      original's width, since the resize never enlarges and a narrow original
      is simply written at its own width; and JPEG outputs are named `.jpg`,
      as the encoder writes JPEG whatever the source format. */
  function CorrectedProcessImage(file: string): seq<Output> {
    OutputsOf(ParsePath(file).name, ".jpg", Widest)
  }

  /** For a `.jpg` source the correction only adds files, and changes nothing
      once the original reaches every breakpoint. */
  lemma CorrectionKeepsJpegSources(file: string, width: int)
    requires ParsePath(file).ext == ".jpg"
    ensures forall o :: o in ProcessImage(file, width) ==> o in CorrectedProcessImage(file)
    ensures width >= Widest ==> CorrectedProcessImage(file) == ProcessImage(file, width)
  {
    var base := ParsePath(file).name;
    BreakpointsIncreasing();
    forall o | o in ProcessImage(file, width)
      ensures o in CorrectedProcessImage(file)
    {
      var r := CorrectedProcessImage(file);
      if o in BreakpointVariants(Breakpoints, base, ".jpg", width) {
        var c :| c in Breakpoints && c.width <= width && (o == JpegVariant(base, ".jpg", c) || o == WebpVariant(base, c));
        assert o in BreakpointVariants(Breakpoints, base, ".jpg", Widest);
      } else {
        assert o == r[|r| - 2] || o == r[|r| - 1];
      }
    }
    if width >= Widest {
      AllReached(Breakpoints, base, ".jpg", width, Widest);
    }
  }

  /** At the widest breakpoint both files of every breakpoint are written. */
  lemma WrittenAtWidest(base: string, b: Breakpoint)
    requires b in Breakpoints
    ensures WebpRef(base, b) in Paths(OutputsOf(base, ".jpg", Widest))
    ensures JpegRef(base, b) in Paths(OutputsOf(base, ".jpg", Widest))
  {
    var r := OutputsOf(base, ".jpg", Widest);
    BreakpointsIncreasing();
    VariantsUpToWidth(base, ".jpg", Widest, b);
    assert WebpVariant(base, b) in r && WebpVariant(base, b).path == WebpRef(base, b);
    assert JpegVariant(base, ".jpg", b) in r && JpegVariant(base, ".jpg", b).path == JpegRef(base, b);
  }

  /** The fallback image is written by the corrected script. */
  lemma FallbackWritten(base: string)
    ensures OptPath(base, "-original.jpg") in Paths(OutputsOf(base, ".jpg", Widest))
  {
    var r := OutputsOf(base, ".jpg", Widest);
    var o := r[|r| - 2];
    assert "-original" + ".jpg" == "-original.jpg";
    assert o.path == OptPath(base, "-original.jpg");
    PathOfMember(r, o);
  }

  /** Corrected: every file the markup names is written, whatever the
      original's width and extension. */
  lemma CorrectedPictureResolves(file: string)
    ensures forall k :: 0 <= k < 8 ==>
      PictureReferences(ParsePath(file).name)[k] in Paths(CorrectedProcessImage(file))
  {
    var base := ParsePath(file).name;
    var refs := PictureReferences(base);
    FallbackWritten(base);
    forall k | 0 <= k < 7
      ensures refs[k] in Paths(OutputsOf(base, ".jpg", Widest))
    {
      var j := if k < 4 then k else k - 4;
      WrittenAtWidest(base, Breakpoints[j]);
    }
  }
}
