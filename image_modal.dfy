/**
 * src/components/ImageModal.tsx: the image carousel's current index, moved
 * by the arrow buttons and keys with wrap-around and reset whenever the
 * modal is opened or closed or given another starting image.
 */
module ImageModal {
  import opened Wrappers

  datatype ImageInfo = ImageInfo(src: string, alt: string, caption: Option<string>)

  /** The `initialIndex` prop when the parent gives none. */
  const DefaultInitialIndex: int := 0

  // ---------------------------------------------------------------------------
  // The index updates handed to setCurrentIndex

  /** navigatePrevious's update: back one image, from the first to the last; nothing with at most one image. */
  function PreviousIndex(index: int, count: int): int {
    if count <= 1 then index
    else if index == 0 then count - 1 else index - 1
  }

  /** navigateNext's update: on one image, from the last to the first; nothing with at most one image. */
  function NextIndex(index: int, count: int): int {
    if count <= 1 then index
    else if index == count - 1 then 0 else index + 1
  }

  /** With more than one image the two updates are the predecessor and successor modulo the image count. */
  lemma NavigationIsModular(index: int, count: int)
    requires 0 <= index < count
    ensures count > 1 ==> NextIndex(index, count) == (index + 1) % count
    ensures count > 1 ==> PreviousIndex(index, count) == (index - 1) % count
    ensures count <= 1 ==> NextIndex(index, count) == index && PreviousIndex(index, count) == index
  {
    if count > 1 {
      if index == count - 1 {
        assert (index + 1) % count == count % count == 0;
      } else {
        assert (index + 1) % count == index + 1;
      }
      if index == 0 {
        assert (index - 1) % count == count - 1;
      } else {
        assert (index - 1) % count == index - 1;
      }
    }
  }

  /** Next undoes Previous and Previous undoes Next. */
  lemma NavigationInverse(index: int, count: int)
    requires 0 <= index < count
    ensures PreviousIndex(NextIndex(index, count), count) == index
    ensures NextIndex(PreviousIndex(index, count), count) == index
  {
  }

  /** A step of the carousel. */
  datatype Move = Backward | Forward

  /** The index after a sequence of moves. */
  function Navigate(index: int, count: int, moves: seq<Move>): int
    decreases |moves|
  {
    if moves == [] then index
    else
      var next := if moves[0] == Backward then PreviousIndex(index, count) else NextIndex(index, count);
      Navigate(next, count, moves[1..])
  }

  /** An index inside the image list stays inside it whatever the moves. */
  lemma {:induction false} NavigateStaysInRange(index: int, count: int, moves: seq<Move>)
    requires 0 <= index < count
    ensures 0 <= Navigate(index, count, moves) < count
    decreases |moves|
  {
    if moves != [] {
      var next := if moves[0] == Backward then PreviousIndex(index, count) else NextIndex(index, count);
      NavigateStaysInRange(next, count, moves[1..]);
    }
  }

  /** k moves forward. */
  function Forwards(k: nat): (moves: seq<Move>) {
    seq(k, _ => Forward)
  }

  /** k moves forward land k places further on, modulo the image count. */
  lemma {:induction false} ForwardsIsModular(index: int, count: int, k: nat)
    requires 0 <= index < count
    ensures count > 1 ==> Navigate(index, count, Forwards(k)) == (index + k) % count
    ensures count <= 1 ==> Navigate(index, count, Forwards(k)) == index
    decreases k
  {
    if k > 0 {
      NavigationIsModular(index, count);
      var next := NextIndex(index, count);
      assert Forwards(k)[1..] == Forwards(k - 1);
      ForwardsIsModular(next, count, k - 1);
      if count > 1 {
        ModAddOne(index, count, k - 1);
      }
    }
  }

  /** ((i + 1) % n + j) % n == (i + 1 + j) % n, for 0 <= i < n. */
  lemma ModAddOne(i: int, n: int, j: nat)
    requires 0 <= i < n
    ensures ((i + 1) % n + j) % n == (i + 1 + j) % n
  {
    if i + 1 == n {
      assert (i + 1) % n == 0;
      ModShift(j, n);
    } else {
      assert (i + 1) % n == i + 1;
    }
  }

  /** (n + j) % n == j % n, from the quotient-remainder identity of both sides. */
  lemma ModShift(j: int, n: int)
    requires n > 0
    ensures (n + j) % n == j % n
  {
    var q1, r1 := (n + j) / n, (n + j) % n;
    var q2, r2 := j / n, j % n;
    assert n + j == n * q1 + r1;
    assert j == n * q2 + r2;
    assert n * (q1 - q2 - 1) == r2 - r1;
    MulBound(n, q1 - q2 - 1);
  }

  /** A multiple of n strictly between -n and n is 0. */
  lemma MulBound(n: int, d: int)
    requires n > 0 && -n < n * d < n
    ensures d == 0
  {
    if d >= 1 {
      assert n * d == n + n * (d - 1);
      MulNonneg(n, d - 1);
    } else if d <= -1 {
      assert n * d == -n + n * (d + 1);
      MulNonneg(n, -(d + 1));
      assert n * (d + 1) == -(n * (-(d + 1)));
    }
  }

  lemma MulNonneg(a: int, b: int)
    requires a >= 0 && b >= 0
    ensures a * b >= 0
  {
  }

  /** As many moves forward as there are images come back to the starting image. */
  lemma FullCycle(index: int, count: int)
    requires 0 <= index < count
    ensures Navigate(index, count, Forwards(count)) == index
  {
    ForwardsIsModular(index, count, count);
    if count > 1 {
      assert (index + count) % count == index % count == index;
    }
  }

  // ---------------------------------------------------------------------------
  // The key dispatcher

  /** What handleKeyDown does for a key. */
  datatype KeyEffect = GoPrevious | GoNext | RequestClose | Ignore

  /** While closed every key is ignored; open, ArrowLeft, ArrowRight and Escape act and all other keys are ignored. */
  function KeyDownEffect(open: bool, key: string): KeyEffect {
    if !open then Ignore
    else if key == "ArrowLeft" then GoPrevious
    else if key == "ArrowRight" then GoNext
    else if key == "Escape" then RequestClose
    else Ignore
  }

  // ---------------------------------------------------------------------------
  // The component's state

  /**
   * What is rendered: whether the Dialog is shown, the counter
   * "index+1 / total", the image, the arrow buttons and the caption.
   */
  datatype ModalView = ModalView(
    visible: bool,
    counter: int,
    total: nat,
    image: Option<ImageInfo>,
    showArrows: bool,
    caption: Option<string>)

  /**
   * The component's props (`images`, `initialIndex`, `open`) as of the last
   * render, and its `currentIndex` state.
   */
  class ModalState {
    var images: seq<ImageInfo>
    var initialIndex: int
    var open: bool
    var currentIndex: int

    /** The index names an image of the list. */
    predicate InRange()
      reads this
    {
      0 <= currentIndex < |images|
    }

    /** The first render: `useState(initialIndex)`. */
    constructor (images: seq<ImageInfo>, initialIndex: int, open: bool)
      ensures this.images == images && this.initialIndex == initialIndex && this.open == open
      ensures currentIndex == initialIndex
    {
      this.images := images;
      this.initialIndex := initialIndex;
      this.open := open;
      currentIndex := initialIndex;
    }

    /** The first render without an `initialIndex` prop, which defaults to 0. */
    constructor WithDefaultIndex(images: seq<ImageInfo>, open: bool)
      ensures this.images == images && this.initialIndex == DefaultInitialIndex && this.open == open
      ensures currentIndex == 0
      ensures |images| > 0 ==> InRange()
    {
      this.images := images;
      this.initialIndex := DefaultInitialIndex;
      this.open := open;
      currentIndex := DefaultInitialIndex;
    }

    /**
     * A later render with new props. The effect on `[initialIndex, open]`
     * resets the index when one of these two changed; a new image list
     * alone keeps the old index.
     */
    method Rerender(images: seq<ImageInfo>, initialIndex: int, open: bool)
      modifies this
      ensures this.images == images && this.initialIndex == initialIndex && this.open == open
      ensures currentIndex ==
        if initialIndex != old(this.initialIndex) || open != old(this.open) then initialIndex
        else old(currentIndex)
    {
      var reset := initialIndex != this.initialIndex || open != this.open;
      this.images := images;
      this.initialIndex := initialIndex;
      this.open := open;
      if reset {
        currentIndex := initialIndex;
      }
    }

    method NavigatePrevious()
      modifies this`currentIndex
      ensures currentIndex == PreviousIndex(old(currentIndex), |images|)
      ensures old(InRange()) ==> InRange()
    {
      if |images| <= 1 {
        return;
      }
      currentIndex := if currentIndex == 0 then |images| - 1 else currentIndex - 1;
    }

    method NavigateNext()
      modifies this`currentIndex
      ensures currentIndex == NextIndex(old(currentIndex), |images|)
      ensures old(InRange()) ==> InRange()
    {
      if |images| <= 1 {
        return;
      }
      currentIndex := if currentIndex == |images| - 1 then 0 else currentIndex + 1;
    }

    /** handleKeyDown; `closeRequested` is the call `onOpenChange(false)`. */
    method HandleKeyDown(key: string) returns (closeRequested: bool)
      modifies this`currentIndex
      ensures closeRequested <==> KeyDownEffect(open, key) == RequestClose
      ensures currentIndex ==
        match KeyDownEffect(open, key)
        case GoPrevious => PreviousIndex(old(currentIndex), |images|)
        case GoNext => NextIndex(old(currentIndex), |images|)
        case _ => old(currentIndex)
      ensures old(InRange()) ==> InRange()
    {
      closeRequested := false;
      if !open {
        return;
      }
      if key == "ArrowLeft" {
        NavigatePrevious();
      } else if key == "ArrowRight" {
        NavigateNext();
      } else if key == "Escape" {
        closeRequested := true;
      }
    }

    /** What the component renders; nothing for an empty image list. */
    function View(): (v: Option<ModalView>)
      reads this
      ensures v.None? <==> |images| == 0
      ensures v.Some? ==> (v.value.visible <==> open)
      ensures v.Some? ==> v.value.total == |images| && v.value.counter == currentIndex + 1
      ensures v.Some? ==> (v.value.showArrows <==> |images| > 1)
      ensures v.Some? && InRange() ==> 1 <= v.value.counter <= v.value.total && v.value.image == Some(images[currentIndex])
      ensures v.Some? && !InRange() ==> v.value.image.None?
      ensures v.Some? ==>
        v.value.caption ==
          if v.value.image.Some? && v.value.image.value.caption.Some? && v.value.image.value.caption.value != ""
          then v.value.image.value.caption else None
    {
      if |images| == 0 then None
      else
        var image := if 0 <= currentIndex < |images| then Some(images[currentIndex]) else None;
        var caption :=
          if image.Some? && image.value.caption.Some? && image.value.caption.value != "" then image.value.caption
          else None;
        Some(ModalView(open, currentIndex + 1, |images|, image, |images| > 1, caption))
    }
  }
}
