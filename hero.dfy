/** The home page's hero carousel: one index into the four slides, moved by
    the five-second timer and the next arrow, the previous arrow, and the
    indicator dots. */
module Hero {

  const SlideCount: nat := 4

  /** nextSlide: the last slide wraps to the first, any other moves on by one. */
  function NextIndex(i: int): (n: int)
    ensures 0 <= i < SlideCount ==> 0 <= n < SlideCount
    ensures 0 <= i < SlideCount ==> n == (i + 1) % SlideCount
  {
    if i == SlideCount - 1 then 0 else i + 1
  }

  /** prevSlide: the first slide wraps to the last, any other moves back by one. */
  function PrevIndex(i: int): (p: int)
    ensures 0 <= i < SlideCount ==> 0 <= p < SlideCount
    ensures 0 <= i < SlideCount ==> p == (i + SlideCount - 1) % SlideCount
  {
    if i == 0 then SlideCount - 1 else i - 1
  }

  /** The arrows undo each other. */
  lemma ArrowsUndo(i: int)
    requires 0 <= i < SlideCount
    ensures PrevIndex(NextIndex(i)) == i && NextIndex(PrevIndex(i)) == i
  {
  }

  /** The index after n timer ticks from i. */
  function Ticks(i: int, n: nat): int {
    if n == 0 then i else NextIndex(Ticks(i, n - 1))
  }

  /** n ticks move the index n slides on, wrapping around, so every slide comes
      round again after four ticks. */
  lemma {:induction false} TicksWrap(i: int, n: nat)
    requires 0 <= i < SlideCount
    ensures Ticks(i, n) == (i + n) % SlideCount
  {
    if n > 0 {
      TicksWrap(i, n - 1);
      ModStep(i + n - 1);
    }
  }

  lemma ModStep(a: nat)
    ensures (a + 1) % SlideCount == (a % SlideCount + 1) % SlideCount
  {
    var q := a / SlideCount;
    var r := a % SlideCount;
    assert a == q * SlideCount + r;
    if r == SlideCount - 1 {
      assert a + 1 == (q + 1) * SlideCount;
    } else {
      assert a + 1 == q * SlideCount + (r + 1);
    }
  }

  /** The carousel's state. */
  class Carousel {
    var current: int

    /** The index always names a slide. */
    predicate Valid()
      reads this
    {
      0 <= current < SlideCount
    }

    /** The carousel starts on the first slide. */
    constructor ()
      ensures current == 0 && Valid()
    {
      current := 0;
    }

    /** The timer or the next arrow. */
    method Next()
      requires Valid()
      modifies this
      ensures current == NextIndex(old(current)) && Valid()
    {
      if current == SlideCount - 1 {
        current := 0;
      } else {
        current := current + 1;
      }
    }

    /** The previous arrow. */
    method Prev()
      requires Valid()
      modifies this
      ensures current == PrevIndex(old(current)) && Valid()
    {
      if current == 0 {
        current := SlideCount - 1;
      } else {
        current := current - 1;
      }
    }

    /** An indicator dot: one per slide, each setting the index to its own. */
    method Select(index: int)
      requires 0 <= index < SlideCount
      modifies this
      ensures current == index && Valid()
    {
      current := index;
    }
  }
}
