/** What the two image scripts share: splitting a file name into name and
    extension as `path.parse` does, the image-extension test, and markup
    built by concatenating literal pieces with the file paths it refers
    to. */
module ImagePaths {
  import opened Wrappers
  import opened Text

  /** The position of the last `c` in `s`, if any. */
  function LastIndex(s: string, c: char): (r: Option<nat>)
    ensures r.Some? ==> r.value < |s| && s[r.value] == c
    ensures r.Some? ==> forall j :: r.value < j < |s| ==> s[j] != c
    ensures r.None? <==> forall j :: 0 <= j < |s| ==> s[j] != c
  {
    if |s| == 0 then None
    else if s[|s| - 1] == c then Some(|s| - 1)
    else LastIndex(s[..|s| - 1], c)
  }

  /** The last component of a path: everything after its last `/`. */
  function BaseName(file: string): (r: string)
    ensures forall j :: 0 <= j < |r| ==> r[j] != '/'
    ensures (forall j :: 0 <= j < |file| ==> file[j] != '/') ==> r == file
  {
    match LastIndex(file, '/')
    case None => file
    case Some(k) => file[k + 1..]
  }

  datatype PathParts = PathParts(name: string, ext: string)

  /** `path.parse(file)`'s `name` and `ext`: the extension runs from the last
      `.` of the base name to its end, except when that dot is its first
      character or the base name is `..`. */
  function ParsePath(file: string): (p: PathParts)
    ensures p.name + p.ext == BaseName(file)
    ensures p.ext == "" || (p.ext[0] == '.' && forall j :: 0 < j < |p.ext| ==> p.ext[j] != '.')
  {
    var base := BaseName(file);
    match LastIndex(base, '.')
    case None => PathParts(base, "")
    case Some(k) =>
      if k == 0 || base == ".." then PathParts(base, "")
      else
        assert base[..k] + base[k..] == base;
        PathParts(base[..k], base[k..])
  }

  /** A file name put together from a name and a one-dot extension parses
      back into them; the name may itself contain dots. */
  lemma ParsePathOfParts(name: string, ext: string)
    requires |name| > 0 && name != "."
    requires |ext| > 0 && ext[0] == '.'
    requires forall j :: 0 < j < |ext| ==> ext[j] != '.'
    requires forall j :: 0 <= j < |name + ext| ==> (name + ext)[j] != '/'
    ensures ParsePath(name + ext) == PathParts(name, ext)
  {
    var base := name + ext;
    assert BaseName(base) == base;
    var r := LastIndex(base, '.');
    assert base[|name|] == '.';
    assert forall j :: |name| < j < |base| ==> base[j] == ext[j - |name|];
    assert r.Some? && r.value == |name|;
    assert |name| == 1 ==> name[0] != '.' by {
      if |name| == 1 {
        assert name == [name[0]];
      }
    }
    assert base[0] == name[0];
    assert base[..|name|] == name && base[|name|..] == ext;
  }

  /** `/\.(jpg|jpeg|png)$/i`: the name ends in one of the three extensions,
      letters compared without regard to case. */
  predicate HasImageExtension(file: string) {
    var lower := ToLower(file);
    EndsWith(lower, ".jpg") || EndsWith(lower, ".jpeg") || EndsWith(lower, ".png")
  }

  datatype Format = Webp | Jpeg

  /** A file a script writes: where, how wide at most (`None` when it keeps
      the original width), in which format. */
  datatype Output = Output(path: string, maxWidth: Option<nat>, format: Format)

  /** The paths of a list of outputs. */
  function Paths(outputs: seq<Output>): set<string> {
    set o | o in outputs :: o.path
  }

  /** Every output's path is among the paths. */
  lemma PathOfMember(outputs: seq<Output>, o: Output)
    requires o in outputs
    ensures o.path in Paths(outputs)
  {
  }

  /** A template literal: the literal texts with the substituted values
      between them, `texts[0] + values[0] + texts[1] + ...`. */
  function Fill(texts: seq<string>, values: seq<string>): string
    requires |texts| == |values| + 1
    decreases |values|
  {
    if |values| == 0 then texts[0] else texts[0] + values[0] + Fill(texts[1..], values[1..])
  }

  /** Every substituted value occurs in the filled template. */
  lemma {:induction false} FillContains(texts: seq<string>, values: seq<string>, i: nat)
    requires |texts| == |values| + 1 && i < |values|
    ensures Contains(Fill(texts, values), values[i])
    decreases |values|
  {
    var rest := Fill(texts[1..], values[1..]);
    if i == 0 {
      ContainsSplice(texts[0], values[0], rest);
    } else {
      FillContains(texts[1..], values[1..], i - 1);
      assert Fill(texts, values) == texts[0] + values[0] + rest + "";
      ContainsInPart(texts[0] + values[0], rest, "", values[i]);
    }
  }

  /** The filled template begins with the first text and ends with the last
      text's last character. */
  lemma {:induction false} FillEnds(texts: seq<string>, values: seq<string>)
    requires |texts| == |values| + 1 && |texts[|texts| - 1]| > 0
    ensures StartsWith(Fill(texts, values), texts[0])
    ensures var r := Fill(texts, values); var last := texts[|texts| - 1];
      |r| > 0 && r[|r| - 1] == last[|last| - 1]
    decreases |values|
  {
    if |values| > 0 {
      FillEnds(texts[1..], values[1..]);
      var r := Fill(texts, values);
      assert r[..|texts[0]|] == texts[0];
    }
  }

  /** A template that opens with a line break before its first tag and ends
      with the closing `>`: `.trim()` removes exactly that line break. */
  lemma TrimTemplate(body: string)
    requires |body| > 0 && body[0] == '<' && body[|body| - 1] == '>'
    ensures Trim("\n" + body) == body
  {
    var s := "\n" + body;
    var t := TrimStart(s);
    assert s[1] == '<';
    assert t == body;
  }

  /** A template whose text opens with its first tag and closes with `>`,
      written after a line break: `.trim()` removes exactly that break. */
  lemma FillTrimmed(texts: seq<string>, values: seq<string>)
    requires |texts| == |values| + 1
    requires |texts[0]| > 0 && texts[0][0] == '<'
    requires var last := texts[|texts| - 1]; |last| > 0 && last[|last| - 1] == '>'
    ensures Trim("\n" + Fill(texts, values)) == Fill(texts, values)
  {
    FillEnds(texts, values);
    var r := Fill(texts, values);
    assert r[..|texts[0]|] == texts[0];
    TrimTemplate(r);
  }
}
