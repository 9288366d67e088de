/**
 * The media carousel: one image index that the previous and next buttons move
 * with wrap-around, that the thumbnails and dots set directly, and that the
 * left and right arrow keys move like the buttons.
 */
module MediaCarousel {
  import opened Wrappers

  // ---------------------------------------------------------------------------
  // Data
  // ---------------------------------------------------------------------------

  datatype MediaKind = Image | Video

  /** One entry of the `images` prop. */
  datatype MediaItem = MediaItem(id: string, url: string, kind: MediaKind, thumbnail: Option<string>)

  // ---------------------------------------------------------------------------
  // The index updaters, for a list of n images
  // ---------------------------------------------------------------------------

  /** `goToPrevious`'s updater: from 0 to the last image, otherwise one back. */
  function Previous(i: int, n: int): (j: int)
    ensures 0 <= i < n ==> 0 <= j < n && j == (i - 1) % n
  {
    if i == 0 then n - 1 else i - 1
  }

  /** `goToNext`'s updater: from the last image to 0, otherwise one on. */
  function Next(i: int, n: int): (j: int)
    ensures 0 <= i < n ==> 0 <= j < n && j == (i + 1) % n
  {
    if i == n - 1 then 0 else i + 1
  }

  /** Previous undoes Next. */
  lemma PreviousUndoesNext(i: int, n: int)
    requires 0 <= i < n
    ensures Previous(Next(i, n), n) == i
  {
  }

  /** Next undoes Previous. */
  lemma NextUndoesPrevious(i: int, n: int)
    requires 0 <= i < n
    ensures Next(Previous(i, n), n) == i
  {
  }

  /** With a single image both buttons leave the index at 0. */
  lemma SingleImageStaysPut()
    ensures Previous(0, 1) == 0 && Next(0, 1) == 0
  {
  }

  /** The index after pressing next `k` times from `i`. */
  function Advance(i: int, n: int, k: nat): int
  {
    if k == 0 then i else Next(Advance(i, n, k - 1), n)
  }

  /** The index after pressing previous `k` times from `i`. */
  function Retreat(i: int, n: int, k: nat): int
  {
    if k == 0 then i else Previous(Retreat(i, n, k - 1), n)
  }

  lemma MulMono(a: int, n: int)
    requires 0 < n
    ensures a >= 1 ==> a * n >= n
    ensures a <= -1 ==> a * n <= -n
  {
  }

  /** The remainder is determined by any quotient-remainder split of x. */
  lemma ModUnique(x: int, n: int, q: int, r: int)
    requires 0 < n && 0 <= r < n && x == q * n + r
    ensures x % n == r
  {
    var q', r' := x / n, x % n;
    assert (q - q') * n == r' - r;
    MulMono(q - q', n);
  }

  /** Stepping one place on commutes with taking the remainder. */
  lemma ModStepUp(x: int, n: int)
    requires 0 < n
    ensures (x % n + 1) % n == (x + 1) % n
  {
    var q, r := x / n, x % n;
    assert x == q * n + r;
    if r + 1 < n {
      ModUnique(x + 1, n, q, r + 1);
      ModUnique(r + 1, n, 0, r + 1);
    } else {
      assert x + 1 == (q + 1) * n + 0;
      ModUnique(x + 1, n, q + 1, 0);
      ModUnique(r + 1, n, 1, 0);
    }
  }

  /** Stepping one place back commutes with taking the remainder. */
  lemma ModStepDown(x: int, n: int)
    requires 0 < n
    ensures (x % n - 1) % n == (x - 1) % n
  {
    var q, r := x / n, x % n;
    assert x == q * n + r;
    if r >= 1 {
      ModUnique(x - 1, n, q, r - 1);
      ModUnique(r - 1, n, 0, r - 1);
    } else {
      assert x - 1 == (q - 1) * n + (n - 1);
      ModUnique(x - 1, n, q - 1, n - 1);
      ModUnique(r - 1, n, -1, n - 1);
    }
  }

  /** Pressing next k times from an in-range index moves it k places, cyclically. */
  lemma {:induction false} AdvanceIsModular(i: int, n: int, k: nat)
    requires 0 <= i < n
    ensures Advance(i, n, k) == (i + k) % n
  {
    if k > 0 {
      AdvanceIsModular(i, n, k - 1);
      var p := Advance(i, n, k - 1);
      assert p == (i + k - 1) % n && 0 <= p < n;
      ModStepUp(i + k - 1, n);
      assert Advance(i, n, k) == Next(p, n) == (p + 1) % n;
    }
  }

  /** Pressing previous k times from an in-range index moves it back k places, cyclically. */
  lemma {:induction false} RetreatIsModular(i: int, n: int, k: nat)
    requires 0 <= i < n
    ensures Retreat(i, n, k) == (i - k) % n
  {
    if k > 0 {
      RetreatIsModular(i, n, k - 1);
      var p := Retreat(i, n, k - 1);
      assert p == (i - k + 1) % n && 0 <= p < n;
      ModStepDown(i - k + 1, n);
      assert Retreat(i, n, k) == Previous(p, n) == (p - 1) % n;
    }
  }

  /** Pressing next, or previous, n times brings the carousel back to where it was. */
  lemma FullCycle(i: int, n: int)
    requires 0 <= i < n
    ensures Advance(i, n, n) == i
    ensures Retreat(i, n, n) == i
  {
    AdvanceIsModular(i, n, n);
    RetreatIsModular(i, n, n);
    ModUnique(i + n, n, 1, i);
    ModUnique(i - n, n, -1, i);
  }

  // ---------------------------------------------------------------------------
  // The component's state
  // ---------------------------------------------------------------------------

  /** One mounted `MediaCarousel`: its (fixed) image list and its `currentIndex` state. */
  class Carousel {
    const images: seq<MediaItem>
    var currentIndex: int

    /**
     * Mounting with the `images` prop; `currentIndex` starts at 0. An absent
     * prop renders exactly like an empty list.
     */
    constructor (images: Option<seq<MediaItem>>)
      ensures this.images == images.GetOr([])
      ensures currentIndex == 0
      ensures Valid()
    {
      this.images := images.GetOr([]);
      currentIndex := 0;
    }

    /** The component renders something (it returns null for an absent or empty list). */
    predicate Rendered() {
      |images| > 0
    }

    /** Whenever the carousel is shown, `images[currentIndex]` is defined. */
    predicate Valid()
      reads this
    {
      Rendered() ==> 0 <= currentIndex < |images|
    }

    /** The image in the main display, None when the component renders null. */
    function CurrentImage(): (shown: Option<MediaItem>)
      reads this
      requires Valid()
      ensures shown.None? <==> !Rendered()
      ensures shown.Some? ==> shown.value in images && shown.value == images[currentIndex]
    {
      if |images| == 0 then None else Some(images[currentIndex])
    }

    /** The index each thumbnail button passes to `goToIndex`; none are shown for a single image. */
    function ThumbnailTargets(): (targets: seq<int>)
      ensures |targets| == if |images| > 1 then |images| else 0
      ensures forall t :: t in targets ==> 0 <= t < |images|
      ensures forall k :: 0 <= k < |targets| ==> targets[k] == k
    {
      if |images| > 1 then seq(|images|, k => k) else []
    }

    /** The index each mobile dot passes to `goToIndex`; dots are shown for 2 to 5 images. */
    function DotTargets(): (targets: seq<int>)
      ensures |targets| == if 1 < |images| <= 5 then |images| else 0
      ensures forall t :: t in targets ==> 0 <= t < |images|
      ensures forall k :: 0 <= k < |targets| ==> targets[k] == k
    {
      if 1 < |images| <= 5 then seq(|images|, k => k) else []
    }

    /** `goToPrevious`. */
    method GoToPrevious()
      requires Rendered()
      modifies this
      ensures currentIndex == Previous(old(currentIndex), |images|)
      ensures old(Valid()) ==> Valid()
    {
      currentIndex := Previous(currentIndex, |images|);
    }

    /** `goToNext`. */
    method GoToNext()
      requires Rendered()
      modifies this
      ensures currentIndex == Next(old(currentIndex), |images|)
      ensures old(Valid()) ==> Valid()
    {
      currentIndex := Next(currentIndex, |images|);
    }

    /** `goToIndex`: takes its argument as it is, so the invariant holds afterwards only for an index in range. */
    method GoToIndex(index: int)
      requires Rendered()
      modifies this
      ensures currentIndex == index
      ensures Valid() <==> 0 <= index < |images|
    {
      currentIndex := index;
    }

    /** `handleKeyDown`: ArrowLeft acts as previous, ArrowRight as next, any other key does nothing. */
    method HandleKeyDown(key: string)
      requires Rendered()
      modifies this
      ensures key == "ArrowLeft" ==> currentIndex == Previous(old(currentIndex), |images|)
      ensures key == "ArrowRight" ==> currentIndex == Next(old(currentIndex), |images|)
      ensures key != "ArrowLeft" && key != "ArrowRight" ==> currentIndex == old(currentIndex)
      ensures old(Valid()) ==> Valid()
    {
      if key == "ArrowLeft" {
        GoToPrevious();
      } else if key == "ArrowRight" {
        GoToNext();
      }
    }

    /** Clicking the k-th thumbnail selects image k and keeps the invariant. */
    method ClickThumbnail(k: int)
      requires 0 <= k < |ThumbnailTargets()|
      modifies this
      ensures currentIndex == k
      ensures Valid()
    {
      GoToIndex(ThumbnailTargets()[k]);
    }

    /** Clicking the k-th dot selects image k and keeps the invariant. */
    method ClickDot(k: int)
      requires 0 <= k < |DotTargets()|
      modifies this
      ensures currentIndex == k
      ensures Valid()
    {
      GoToIndex(DotTargets()[k]);
    }
  }

  /**
   * A client: mounted with at least two images, a press of next, a press of
   * previous, a thumbnail click and a key press leave `images[currentIndex]`
   * defined, and previous undoes next.
   */
  method Session(images: seq<MediaItem>, thumbnail: int, key: string) returns (shown: MediaItem)
    requires |images| > 1 && 0 <= thumbnail < |images|
    ensures shown in images
  {
    var c := new Carousel(Some(images));
    c.GoToNext();
    c.GoToPrevious();
    PreviousUndoesNext(0, |images|);
    assert c.currentIndex == 0;
    c.ClickThumbnail(thumbnail);
    c.HandleKeyDown(key);
    shown := c.CurrentImage().value;
  }
}
