/** The testimonial slider: an index over `n` cards (and as many dots), moved
    forward by the timer or a left swipe and back by a right swipe. Timers,
    hover pausing and the DOM are left out; a swipe is the pair of touch
    x-coordinates. */
module Carousel {
  import opened Wrappers

  /** The current slide: an integer, or `NaN`, which is what `% 0` yields
      when there are no cards. */
  datatype SlideIndex = Index(i: int) | NotANumber

  /** JavaScript's `%` on integers: the remainder takes the sign of the
      dividend; `NaN` for a zero divisor. */
  function JsRemainder(a: int, b: nat): (r: SlideIndex)
    ensures b == 0 <==> r == NotANumber
    ensures b > 0 && a >= 0 ==> r == Index(a % b)
  {
    if b == 0 then NotANumber
    else if a >= 0 then Index(a % b)
    else Index(-((-a) % b))
  }

  /** `nextSlide`: `(currentSlide + 1) % n`. */
  function Next(current: SlideIndex, n: nat): SlideIndex {
    match current
    case NotANumber => NotANumber
    case Index(i) => JsRemainder(i + 1, n)
  }

  /** The swipe-right target: the last card from the first one, otherwise
      one back. */
  function Prev(current: SlideIndex, n: nat): SlideIndex {
    match current
    case NotANumber => NotANumber
    case Index(i) => if i == 0 then Index(n - 1) else Index(i - 1)
  }

  predicate InRange(s: SlideIndex, n: nat) {
    s.Index? && 0 <= s.i < n
  }

  /** Both moves keep a valid index valid. */
  lemma MovesStayInRange(s: SlideIndex, n: nat)
    requires InRange(s, n)
    ensures InRange(Next(s, n), n) && InRange(Prev(s, n), n)
    ensures Next(s, n) == Index(if s.i == n - 1 then 0 else s.i + 1)
  {
    var i := s.i;
    if i == n - 1 {
      assert Next(s, n) == Index(n % n);
    } else {
      RemainderOfSmaller(i + 1, n);
    }
  }

  lemma RemainderOfSmaller(a: int, n: int)
    requires 0 <= a < n
    ensures a % n == a
  {
  }

  /** Going back undoes going forward and vice versa. */
  lemma PrevUndoesNext(s: SlideIndex, n: nat)
    requires InRange(s, n)
    ensures Prev(Next(s, n), n) == s
    ensures Next(Prev(s, n), n) == s
  {
    MovesStayInRange(s, n);
    MovesStayInRange(Prev(s, n), n);
  }

  /** With no cards the index becomes `NaN` on the first forward move and
      stays there. */
  lemma EmptyCarouselIsNaN(s: SlideIndex)
    ensures Next(s, 0) == NotANumber
    ensures Next(NotANumber, 0) == NotANumber && Prev(NotANumber, 0) == NotANumber
  {
  }

  /** `k` forward moves. */
  function Advance(s: SlideIndex, n: nat, k: nat): SlideIndex {
    if k == 0 then s else Next(Advance(s, n, k - 1), n)
  }

  /** From a valid index, `k` forward moves land on `(i + k) mod n`: the
      timer visits every card in turn and a full round of `n` moves comes
      back to the start. */
  lemma {:induction false} AdvanceIsRotation(s: SlideIndex, n: nat, k: nat)
    requires InRange(s, n)
    ensures Advance(s, n, k) == Index((s.i + k) % n)
  {
    if k > 0 {
      AdvanceIsRotation(s, n, k - 1);
      var j := (s.i + k - 1) % n;
      assert Next(Index(j), n) == Index((j + 1) % n);
      ModSuccessor(s.i + k - 1, n);
    }
  }

  lemma ModSuccessor(a: nat, n: nat)
    requires n > 0
    ensures (a % n + 1) % n == (a + 1) % n
  {
    var q, r := a / n, a % n;
    assert a == q * n + r;
    if r + 1 < n {
      ModOfDecomposition(a + 1, n, q, r + 1);
      ModOfDecomposition(r + 1, n, 0, r + 1);
    } else {
      assert a + 1 == (q + 1) * n;
      ModOfDecomposition(a + 1, n, q + 1, 0);
      ModOfDecomposition(r + 1, n, 1, 0);
    }
  }

  lemma ModOfDecomposition(a: int, n: nat, q: int, r: int)
    requires 0 <= r < n && a == q * n + r
    ensures a % n == r
  {
    var d := q - a / n;
    assert a == (a / n) * n + a % n;
    assert d * n == q * n - (a / n) * n;
    MultipleBounds(d, n);
  }

  /** A nonzero multiple of `n` is at least `n` away from zero. */
  lemma {:induction false} MultipleBounds(d: int, n: int)
    requires n >= 0
    ensures d > 0 ==> d * n >= n
    ensures d < 0 ==> d * n <= -n
    decreases if d < 0 then -d else d
  {
    if d > 1 {
      MultipleBounds(d - 1, n);
      Distribute(d - 1, n);
    } else if d < -1 {
      MultipleBounds(d + 1, n);
      Distribute(d, n);
    }
  }

  lemma Distribute(d: int, n: int)
    ensures (d + 1) * n == d * n + n
  {
  }

  /** The visible state after `showSlide(index)`: which cards and dots carry
      the `active` class, and the new current index. */
  datatype View = View(activeCards: set<int>, activeDots: set<int>, current: SlideIndex)

  /** `showSlide`. Every card and dot is cleared; a card that exists at the
      index is activated together with its dot. With fewer dots than cards
      the dot lookup throws (`None`). */
  function ShowSlide(index: SlideIndex, cards: nat, dots: nat): (v: Option<View>)
    ensures InRange(index, cards) && index.i < dots ==>
      v == Some(View({index.i}, {index.i}, index))
    ensures !InRange(index, cards) ==> v == Some(View({}, {}, index))
    ensures v == None <==> InRange(index, cards) && index.i >= dots
  {
    if InRange(index, cards) then
      if index.i < dots then Some(View({index.i}, {index.i}, index)) else None
    else Some(View({}, {}, index))
  }

  /** The slideshow from a valid card after `k` timer ticks: with a dot for
      every card, no tick throws and exactly card `(i + k) mod n` and its dot
      are active, so the view always agrees with the rotation of the index. */
  lemma ShowSlideAfterTicks(s: SlideIndex, n: nat, dots: nat, k: nat)
    requires InRange(s, n) && n <= dots
    ensures var j := (s.i + k) % n;
      && 0 <= j < n
      && ShowSlide(Advance(s, n, k), n, dots) == Some(View({j}, {j}, Index(j)))
  {
    AdvanceIsRotation(s, n, k);
  }

  /** A swipe on a valid card shows exactly its neighbour: the next card for
      a leftward swipe, the previous one for a rightward swipe. */
  lemma ShowSlideAfterSwipe(s: SlideIndex, n: nat, dots: nat, startX: int, endX: int)
    requires InRange(s, n) && n <= dots
    ensures var t := AfterSwipe(s, n, startX, endX);
      && InRange(t, n)
      && ShowSlide(t, n, dots) == Some(View({t.i}, {t.i}, t))
      && (startX - endX > SwipeThreshold ==> t.i == (if s.i == n - 1 then 0 else s.i + 1))
      && (startX - endX < -SwipeThreshold ==> t.i == (if s.i == 0 then n - 1 else s.i - 1))
  {
    SwipeMovesOne(s, n, startX, endX);
    MovesStayInRange(s, n);
  }

  /** Pixels a touch must travel before it counts as a swipe. */
  const SwipeThreshold: int := 50

  datatype Swipe = NoSwipe | SwipeLeft | SwipeRight

  /** `handleSwipe`: a move of more than the threshold; leftward (start right
      of end) is forward. */
  function ClassifySwipe(startX: int, endX: int): (w: Swipe)
    ensures w == NoSwipe <==> -SwipeThreshold <= startX - endX <= SwipeThreshold
    ensures w == SwipeLeft <==> startX - endX > SwipeThreshold
    ensures w == SwipeRight <==> startX - endX < -SwipeThreshold
  {
    var diff := startX - endX;
    var magnitude := if diff < 0 then -diff else diff;
    if magnitude > SwipeThreshold then (if diff > 0 then SwipeLeft else SwipeRight) else NoSwipe
  }

  /** The index after a touch gesture. */
  function AfterSwipe(current: SlideIndex, n: nat, startX: int, endX: int): SlideIndex {
    match ClassifySwipe(startX, endX)
    case NoSwipe => current
    case SwipeLeft => Next(current, n)
    case SwipeRight => Prev(current, n)
  }

  /** A swipe moves by exactly one card in its direction, a short touch moves
      nothing, and a left swipe followed by an equally long right swipe comes
      back to the same card. */
  lemma SwipeMovesOne(s: SlideIndex, n: nat, startX: int, endX: int)
    requires InRange(s, n)
    ensures var t := AfterSwipe(s, n, startX, endX);
      && InRange(t, n)
      && (startX - endX > SwipeThreshold ==> t == Next(s, n))
      && (startX - endX < -SwipeThreshold ==> t == Prev(s, n))
      && (-SwipeThreshold <= startX - endX <= SwipeThreshold ==> t == s)
    ensures AfterSwipe(AfterSwipe(s, n, startX, endX), n, endX, startX) == s
  {
    MovesStayInRange(s, n);
    PrevUndoesNext(s, n);
  }
}
