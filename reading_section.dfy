/**
 * src/components/ReadingSection.tsx: the book carousel. Its state is the
 * `currentIndex` state variable and the `prevBooksLengthRef` ref; the books
 * themselves only matter through their number.
 */
module ReadingSection {

  /** `prev === books.length - 1 ? 0 : prev + 1` */
  function NextIndex(prev: nat, bookCount: nat): (r: nat)
    requires bookCount > 0
    ensures prev < bookCount ==> r < bookCount
  {
    if prev == bookCount - 1 then 0 else prev + 1
  }

  /** `prev === 0 ? books.length - 1 : prev - 1` */
  function PreviousIndex(prev: nat, bookCount: nat): (r: nat)
    requires bookCount > 0
    ensures prev <= bookCount ==> r < bookCount
  {
    if prev == 0 then bookCount - 1 else prev - 1
  }

  /** Next then previous, or previous then next, restores an index in range. */
  lemma NextPreviousInverse(i: nat, bookCount: nat)
    requires i < bookCount
    ensures PreviousIndex(NextIndex(i, bookCount), bookCount) == i
    ensures NextIndex(PreviousIndex(i, bookCount), bookCount) == i
  {
  }

  /** `steps` presses of the next arrow. */
  function NextTimes(i: nat, bookCount: nat, steps: nat): nat
    requires bookCount > 0
  {
    if steps == 0 then i else NextIndex(NextTimes(i, bookCount, steps - 1), bookCount)
  }

  lemma {:induction false} NextTimesClimbs(i: nat, bookCount: nat, steps: nat)
    requires i + steps < bookCount
    ensures NextTimes(i, bookCount, steps) == i + steps
  {
    if steps > 0 {
      NextTimesClimbs(i, bookCount, steps - 1);
    }
  }

  lemma {:induction false} NextTimesCompose(i: nat, bookCount: nat, a: nat, b: nat)
    requires bookCount > 0
    ensures NextTimes(i, bookCount, a + b) == NextTimes(NextTimes(i, bookCount, a), bookCount, b)
  {
    if b > 0 {
      NextTimesCompose(i, bookCount, a, b - 1);
    }
  }

  /** Pressing next once per book comes back to the starting book. */
  lemma NextAroundTheRing(i: nat, bookCount: nat)
    requires i < bookCount
    ensures NextTimes(i, bookCount, bookCount) == i
  {
    var toLast := bookCount - 1 - i;
    NextTimesClimbs(i, bookCount, toLast);
    assert NextTimes(i, bookCount, toLast + 1) == 0;
    NextTimesClimbs(0, bookCount, i);
    NextTimesCompose(i, bookCount, toLast + 1, i);
  }

  /** What one render shows. */
  datatype CarouselView =
    | Hidden
    | Shown(safeIndex: nat, arrows: bool, dots: seq<bool>)

  /** The render: nothing for no books, else `Math.min(currentIndex, books.length - 1)` with arrows and dots for two or more. */
  function View(currentIndex: nat, bookCount: nat): (v: CarouselView)
    ensures v.Hidden? <==> bookCount == 0
    ensures v.Shown? ==> v.safeIndex < bookCount && v.safeIndex <= currentIndex
    ensures v.Shown? && currentIndex < bookCount ==> v.safeIndex == currentIndex
    ensures v.Shown? ==> (v.arrows <==> bookCount > 1)
    ensures v.Shown? ==> |v.dots| == (if bookCount > 1 then bookCount else 0)
    ensures v.Shown? ==> forall i :: 0 <= i < |v.dots| ==> (v.dots[i] <==> i == v.safeIndex)
  {
    if bookCount == 0 then Hidden
    else
      var safeIndex := if currentIndex < bookCount - 1 then currentIndex else bookCount - 1;
      var dots := if bookCount > 1 then seq(bookCount, i => i == safeIndex) else [];
      Shown(safeIndex, bookCount > 1, dots)
  }

  class ReadingCarousel {
    var bookCount: nat
    var currentIndex: nat
    var prevBookCount: nat

    /** Between renders the index is in range and the ref holds the current length. */
    predicate Valid()
      reads this
    {
      prevBookCount == bookCount && (currentIndex < bookCount || currentIndex == 0)
    }

    /** `useState(0)` and `useRef(books.length)` on mount. */
    constructor(initialCount: nat)
      ensures Valid()
      ensures bookCount == initialCount && prevBookCount == initialCount && currentIndex == 0
    {
      bookCount := initialCount;
      prevBookCount := initialCount;
      currentIndex := 0;
    }

    /**
     * A render with `count` books, followed by the effect on `books.length`:
     * the render still sees the old index, and a changed length resets it to 0.
     */
    method Render(count: nat) returns (view: CarouselView)
      modifies this
      ensures view == View(old(currentIndex), count)
      ensures bookCount == count && prevBookCount == count
      ensures currentIndex == if count != old(prevBookCount) then 0 else old(currentIndex)
      ensures old(Valid()) ==> Valid()
      ensures count != old(prevBookCount) ==> Valid()
    {
      view := View(currentIndex, count);
      bookCount := count;
      if count != prevBookCount {
        currentIndex := 0;
        prevBookCount := count;
      }
    }

    /** The index highlighted and shown. */
    function SafeIndex(): (r: nat)
      reads this
      requires bookCount > 0
      ensures r < bookCount
      ensures Valid() ==> r == currentIndex
    {
      View(currentIndex, bookCount).safeIndex
    }

    /** `handlePrevious` */
    method Previous()
      requires bookCount > 0
      modifies this
      ensures bookCount == old(bookCount) && prevBookCount == old(prevBookCount)
      ensures currentIndex == PreviousIndex(old(currentIndex), bookCount)
      ensures old(Valid()) ==> Valid()
    {
      currentIndex := PreviousIndex(currentIndex, bookCount);
    }

    /** `handleNext` */
    method Next()
      requires bookCount > 0
      modifies this
      ensures bookCount == old(bookCount) && prevBookCount == old(prevBookCount)
      ensures currentIndex == NextIndex(old(currentIndex), bookCount)
      ensures old(Valid()) ==> Valid()
    {
      currentIndex := NextIndex(currentIndex, bookCount);
    }

    /** `handleDotClick(index)`: only rendered dots can be clicked. */
    method DotClick(index: nat)
      requires index < bookCount
      modifies this
      ensures currentIndex == index
      ensures bookCount == old(bookCount) && prevBookCount == old(prevBookCount)
      ensures old(Valid()) ==> Valid()
      ensures View(currentIndex, bookCount).Shown? && View(currentIndex, bookCount).safeIndex == index
    {
      currentIndex := index;
    }
  }
}
