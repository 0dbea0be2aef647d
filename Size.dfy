/** Size.php: one entry of a `sizes` attribute, a media condition and the
    width of the image slot under it. */
module Sizes {
  import opened Php

  datatype Size = Size(media: string, widthOfSlot: string)

  /** The constructor's guard: the slot width is never falsy. */
  type ValidSize = s: Size | Truthy(s.widthOfSlot) witness Size("", "1")

  const EmptySlotMessage: string := "Size: Empty $widthOfSlot"

  /** `Size::make` (and the constructor): refuses a falsy slot width. */
  function Make(media: string, widthOfSlot: string): (r: Result<ValidSize, Error>)
    ensures r.Success? <==> Truthy(widthOfSlot)
    ensures r.Success? ==> r.value.media == media && r.value.widthOfSlot == widthOfSlot
    ensures r.Failure? ==> r.error == InvalidArgument(EmptySlotMessage)
  {
    if Truthy(widthOfSlot) then Success(Size(media, widthOfSlot))
    else Failure(InvalidArgument(EmptySlotMessage))
  }

  /** `render()` and `__toString()`: the media condition, a space and the
      slot width, or the slot width alone without a media condition. */
  function Render(s: Size): string {
    if Truthy(s.media) then s.media + " " + s.widthOfSlot else s.widthOfSlot
  }

  /** The `sizes` attribute: `implode(', ', $sizes)`. */
  function SizesText(sizes: seq<ValidSize>): string {
    Join(Renders(sizes), ", ")
  }

  function Renders(sizes: seq<ValidSize>): (r: seq<string>)
    ensures |r| == |sizes|
    ensures forall i :: 0 <= i < |sizes| ==> r[i] == Render(sizes[i])
  {
    seq(|sizes|, i requires 0 <= i < |sizes| => Render(sizes[i]))
  }

  /** A rendered size is never falsy and always ends with its slot width,
      preceded by the media condition exactly when there is one. */
  lemma RenderShape(s: ValidSize)
    ensures Truthy(Render(s))
    ensures EndsWith(Render(s), s.widthOfSlot)
    ensures Truthy(s.media) ==> StartsWith(Render(s), s.media + " ")
    ensures !Truthy(s.media) ==> Render(s) == s.widthOfSlot
  {
    var r := Render(s);
    if Truthy(s.media) {
      assert |r| >= 2;
      assert r[|r| - |s.widthOfSlot|..] == s.widthOfSlot;
      assert r[..|s.media + " "|] == s.media + " ";
    } else {
      assert r[|r| - |s.widthOfSlot|..] == s.widthOfSlot;
    }
  }

  /** With a slot width free of spaces, the slot is what follows the last
      space of the rendered text, and the media condition what precedes it:
      rendering loses nothing. */
  lemma {:induction false} RenderRoundTrip(s: ValidSize)
    requires forall i :: 0 <= i < |s.widthOfSlot| ==> s.widthOfSlot[i] != ' '
    ensures Truthy(s.media) ==> AfterLast(Render(s), ' ') == Some(s.widthOfSlot)
    ensures Truthy(s.media) ==> Render(s)[..|Render(s)| - |s.widthOfSlot| - 1] == s.media
    ensures !Truthy(s.media) ==> AfterLast(Render(s), ' ') == None
  {
    if Truthy(s.media) {
      AfterLastOfSuffix(s.media, ' ', s.widthOfSlot);
      assert Render(s) == s.media + [' '] + s.widthOfSlot;
    }
  }

  /** The `sizes` text holds one rendered entry per size, in order, and is
      empty exactly when there are none. */
  lemma SizesTextShape(sizes: seq<ValidSize>)
    ensures SizesText(sizes) == "" <==> sizes == []
    ensures |sizes| == 1 ==> SizesText(sizes) == Render(sizes[0])
  {
    if sizes != [] {
      RenderShape(sizes[0]);
      JoinFirst(Renders(sizes), ", ");
    }
  }
}
