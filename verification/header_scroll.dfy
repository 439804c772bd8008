/** The header's reaction to scrolling and the navigation highlight. Each
    scroll event sees the page's vertical offset: the header is marked
    `scrolled` past 100 pixels and slides out of view while the page moves
    down past 200 pixels; the navigation link of the last section that
    contains the point 200 pixels below the top of the view is highlighted.
    The DOM and the event loop are left out; a scroll is its offset. */
module HeaderScroll {
  import opened Wrappers

  const ScrolledAfter: int := 100
  const HideAfter: int := 200
  const HighlightOffset: int := 200

  /** What the header shows, and the offset the next event compares with. */
  datatype Header = Header(scrolled: bool, hidden: bool, lastY: int)

  /** The header as the page loads: nothing applied yet, the current offset
      remembered. */
  function InitialHeader(y: int): Header {
    Header(false, false, y)
  }

  /** One scroll event at offset `y`. */
  function OnScroll(h: Header, y: int): (r: Header)
    ensures r.scrolled <==> y > ScrolledAfter
    ensures r.hidden <==> y > h.lastY && y > HideAfter
    ensures r.lastY == y
  {
    Header(y > ScrolledAfter, y > h.lastY && y > HideAfter, y)
  }

  /** A hidden header is always also marked scrolled; scrolling up, or staying
      put, always shows it. */
  lemma HiddenOnlyWhenScrollingDown(h: Header, y: int)
    ensures OnScroll(h, y).hidden ==> OnScroll(h, y).scrolled
    ensures y <= h.lastY ==> !OnScroll(h, y).hidden
    ensures y <= HideAfter ==> !OnScroll(h, y).hidden
  {
  }

  /** The header after each of a run of scroll events, from the offset at
      load: event `k` hides the header exactly when it moved further down than
      event `k - 1` (or than the offset at load) and is past 200 pixels. */
  method ReplayScroll(startY: int, ys: seq<int>) returns (states: seq<Header>)
    ensures |states| == |ys|
    ensures forall k :: 0 <= k < |ys| ==> (states[k].scrolled <==> ys[k] > ScrolledAfter)
    ensures forall k :: 0 <= k < |ys| ==>
      (states[k].hidden <==> ys[k] > (if k == 0 then startY else ys[k - 1]) && ys[k] > HideAfter)
    ensures forall k :: 0 <= k < |ys| ==> states[k].lastY == ys[k]
  {
    var h := InitialHeader(startY);
    states := [];
    var k := 0;
    while k < |ys|
      invariant 0 <= k <= |ys| && |states| == k
      invariant h.lastY == if k == 0 then startY else ys[k - 1]
      invariant forall j :: 0 <= j < k ==> (states[j].scrolled <==> ys[j] > ScrolledAfter)
      invariant forall j :: 0 <= j < k ==>
        (states[j].hidden <==> ys[j] > (if j == 0 then startY else ys[j - 1]) && ys[j] > HideAfter)
      invariant forall j :: 0 <= j < k ==> states[j].lastY == ys[j]
    {
      h := OnScroll(h, ys[k]);
      states := states + [h];
      k := k + 1;
    }
  }

  /** A page section: its id, its vertical extent, and whether a navigation
      link points at it. */
  datatype Section = Section(id: string, top: int, height: int, hasLink: bool)

  predicate Covers(s: Section, pos: int) {
    s.top <= pos < s.top + s.height
  }

  /** The index of the last section containing `pos`, if any. */
  function LastCovering(sections: seq<Section>, pos: int): (r: Option<nat>)
    ensures r.Some? ==> r.value < |sections| && Covers(sections[r.value], pos)
    ensures r.Some? ==> forall j :: r.value < j < |sections| ==> !Covers(sections[j], pos)
    ensures r.None? <==> forall j :: 0 <= j < |sections| ==> !Covers(sections[j], pos)
  {
    if |sections| == 0 then None
    else if Covers(sections[|sections| - 1], pos) then Some(|sections| - 1)
    else LastCovering(sections[..|sections| - 1], pos)
  }

  /** The link a section lights up: its own, if it has one. */
  function LinkOf(s: Section): set<string> {
    if s.hasLink then {s.id} else {}
  }

  /** The highlighted links after a scroll event, stated by its outcome: the
      last containing section decides; with none, nothing changes. */
  function HighlightAfter(active: set<string>, sections: seq<Section>, pos: int): set<string> {
    match LastCovering(sections, pos)
    case None => active
    case Some(i) => LinkOf(sections[i])
  }

  /** The highlight pass over the sections in document order: every section
      containing the point clears all links and lights up its own. */
  method Highlight(active: set<string>, sections: seq<Section>, scrollY: int) returns (r: set<string>)
    ensures r == HighlightAfter(active, sections, scrollY + HighlightOffset)
    ensures |r| <= 1 || r == active
    ensures (forall j :: 0 <= j < |sections| ==> !Covers(sections[j], scrollY + HighlightOffset)) ==> r == active
  {
    var pos := scrollY + HighlightOffset;
    r := active;
    var k := 0;
    while k < |sections|
      invariant 0 <= k <= |sections|
      invariant r == HighlightAfter(active, sections[..k], pos)
    {
      assert sections[..k + 1][..k] == sections[..k];
      if Covers(sections[k], pos) {
        r := LinkOf(sections[k]);
      }
      k := k + 1;
    }
    assert sections[..k] == sections;
  }
}
