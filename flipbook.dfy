/** The frame cursor of src/components/FlipBook/FlipBook.tsx. */
module FlipBook {
  import opened JsCore

  class FlipBookPlayer {
    /** The `images` prop. */
    var images: seq<string>
    var currentIndex: int
    var isPlaying: bool

    /**
     * The cursor is never below -1: only skipping forward on an empty list
     * puts it there, as `images.length - 1`.
     */
    predicate Valid()
      reads this
    {
      currentIndex >= -1
    }

    /** The initial state (lines 9-10): the first frame, paused. */
    constructor (frames: seq<string>)
      ensures Valid()
      ensures images == frames && currentIndex == 0 && !isPlaying
    {
      images := frames;
      currentIndex := 0;
      isPlaying := false;
    }

    /** The parent passes a new `images` list; the cursor stays where it was. */
    method SetImages(frames: seq<string>)
      modifies this`images
      ensures images == frames
    {
      images := frames;
    }

    /**
     * One interval tick (line 16).  The interval only exists while playing
     * with frames to show (line 14); the cursor wraps around to the first frame.
     */
    method Tick()
      requires Valid() && isPlaying && |images| > 0
      modifies this`currentIndex
      ensures Valid()
      ensures 0 <= currentIndex < |images|
      ensures currentIndex == (old(currentIndex) + 1) % |images|
      ensures old(currentIndex) < |images| - 1 ==> currentIndex == old(currentIndex) + 1
      ensures old(currentIndex) == |images| - 1 ==> currentIndex == 0
    {
      var next: nat := currentIndex + 1;
      JsRemOfNatural(next, |images|);
      if next < |images| {
        assert next % |images| == next;
      } else if next == |images| {
        assert next % |images| == 0;
      }
      currentIndex := JsRem(next, |images|);
    }

    /** The skip-back button (line 36). */
    method SkipBack()
      modifies this`currentIndex
      ensures Valid() && currentIndex == 0
    {
      currentIndex := 0;
    }

    /** The play/pause button (line 42). */
    method TogglePlaying()
      modifies this`isPlaying
      ensures isPlaying == !old(isPlaying)
    {
      isPlaying := !isPlaying;
    }

    /** The skip-forward button (line 48): the last frame, which is -1 for an empty list. */
    method SkipForward()
      modifies this`currentIndex
      ensures Valid() && currentIndex == |images| - 1
      ensures images == [] ==> currentIndex == -1
    {
      currentIndex := |images| - 1;
    }

    /**
     * The slider (lines 56-61).  A range input only reports values between
     * its bounds, 0 and `images.length - 1`; with no frames the browser
     * raises the maximum to the minimum, so only 0 is possible.
     */
    method Slide(value: int)
      requires 0 <= value && (value <= |images| - 1 || value == 0)
      modifies this`currentIndex
      ensures Valid() && currentIndex == value
      ensures images != [] ==> 0 <= currentIndex < |images|
    {
      currentIndex := value;
    }

    /** The caption under the player (line 67): one-based frame number and frame count. */
    function FrameLabel(): (frame: (int, nat))
      reads this
      ensures frame.0 == currentIndex + 1 && frame.1 == |images|
      ensures Valid() ==> frame.0 >= 0
    {
      (currentIndex + 1, |images|)
    }
  }

  /** Playing through a list of `n` frames from the first returns to the first after exactly `n` ticks. */
  method PlayThrough(frames: seq<string>) returns (index: int)
    requires frames != []
    ensures index == 0
  {
    var player := new FlipBookPlayer(frames);
    player.TogglePlaying();
    var ticks := 0;
    while ticks < |frames|
      invariant 0 <= ticks <= |frames|
      invariant player.Valid() && player.isPlaying && player.images == frames
      invariant ticks < |frames| ==> player.currentIndex == ticks
      invariant ticks == |frames| ==> player.currentIndex == 0
    {
      player.Tick();
      ticks := ticks + 1;
    }
    index := player.currentIndex;
  }
}
