/** SrcsetItem.php: one image candidate of a `srcset` list, a URL with a
    width ("480w") or pixel-density ("2x") descriptor and the pixel size of
    the file behind it. */
module SrcsetItems {
  import opened Php
  import opened Resizers
  import opened ImgUtils
  import Markup

  /** `width` and `height` are None for an SVG, whose constructor leaves the
      typed properties uninitialised; reading them is then an `\Error`. */
  datatype SrcsetItem = SrcsetItem(url: string, descriptor: string, width: Option<int>, height: Option<int>, lazy: bool)

  predicate ValidDescriptor(d: string) {
    EndsWith(d, "w") || EndsWith(d, "x")
  }

  /** The constructor's guard: a truthy URL and a descriptor ending in "w" or "x". */
  type Item = i: SrcsetItem | Truthy(i.url) && ValidDescriptor(i.descriptor)
    witness SrcsetItem("a", "w", None, None, false)

  const EmptyUrlMessage: string := "Srcset item: empty $url"
  const DescriptorMessage: string := "Srcset item: $descriptor must ends with \"w\" or \"x\""
  const NullOriginMessage: string := "ImgUtils::isSvgByAttachmentUrl(): Argument #1 ($url) must be of type string, null given"
  const UnsetWidthMessage: string := "Typed property SrcsetItem::$width must not be accessed before initialization"
  const UnsetHeightMessage: string := "Typed property SrcsetItem::$height must not be accessed before initialization"
  const NullUrlMessage: string := "SrcsetItem::__construct(): Argument #1 ($url) must be of type string, null given"

  /** `resolveImageInfo` (the same code in SrcsetItem.php and Img.php): a
      width and height that are both non-zero are kept, otherwise both are
      read from the file the URL points at. */
  function ResolveDims(env: Env, url: string, width: Option<int>, height: Option<int>): (r: Result<Dims, Error>)
    ensures IntTruthy(width) && IntTruthy(height) ==> r == Success(Dims(width.value, height.value))
    ensures !(IntTruthy(width) && IntTruthy(height)) ==> r == ProbeUrl(env, url)
    ensures r.Success? ==> r.value.width != 0 && r.value.height != 0
  {
    var w := NullIfFalsy(width);
    var h := NullIfFalsy(height);
    if w.None? || h.None? then ProbeUrl(env, url) else Success(Dims(w.value, h.value))
  }

  /** `SrcsetItem::make` (and the constructor). */
  function Make(env: Env, url: string, descriptor: string := "", width: Option<int> := None,
                height: Option<int> := None, lazy: bool := false): (r: Result<Item, Error>)
    ensures !Truthy(url) ==> r == Failure(InvalidArgument(EmptyUrlMessage))
    ensures Truthy(url) && !ValidDescriptor(descriptor) ==> r == Failure(InvalidArgument(DescriptorMessage))
    ensures Truthy(url) && ValidDescriptor(descriptor) ==>
      (r.Success? <==> IsSvgByAttachmentUrl(env, url) || ResolveDims(env, url, width, height).Success?)
    ensures r.Success? ==> r.value.url == url && r.value.descriptor == descriptor && r.value.lazy == lazy
    ensures r.Success? && IsSvgByAttachmentUrl(env, url) ==> r.value.width.None? && r.value.height.None?
    ensures r.Success? && !IsSvgByAttachmentUrl(env, url) ==>
      var d := ResolveDims(env, url, width, height).value;
      r.value.width == Some(d.width) && r.value.height == Some(d.height)
  {
    if !Truthy(url) then Failure(InvalidArgument(EmptyUrlMessage))
    else if !ValidDescriptor(descriptor) then Failure(InvalidArgument(DescriptorMessage))
    else if IsSvgByAttachmentUrl(env, url) then Success(SrcsetItem(url, descriptor, None, None, lazy))
    else match ResolveDims(env, url, width, height)
      case Failure(e) => Failure(e)
      case Success(d) => Success(SrcsetItem(url, descriptor, Some(d.width), Some(d.height), lazy))
  }

  /** `getWidth()`: the width, or the `\Error` of reading a property the
      constructor never assigned. */
  function GetWidth(item: Item): (r: Result<Option<int>, Error>)
    ensures r.Success? <==> item.width.Some?
    ensures r.Success? ==> r.value == item.width
    ensures r.Failure? ==> r.error == FatalError(UnsetWidthMessage) && !IsException(r.error)
  {
    if item.width.Some? then Success(item.width) else Failure(FatalError(UnsetWidthMessage))
  }

  /** `getHeight()`, likewise. */
  function GetHeight(item: Item): (r: Result<Option<int>, Error>)
    ensures r.Success? <==> item.height.Some?
    ensures r.Success? ==> r.value == item.height
    ensures r.Failure? ==> r.error == FatalError(UnsetHeightMessage) && !IsException(r.error)
  {
    if item.height.Some? then Success(item.height) else Failure(FatalError(UnsetHeightMessage))
  }

  /** On a made item, the dimension getters raise an `\Error` exactly for an
      SVG, and otherwise give the resolved, non-zero dimensions. */
  lemma GettersOfMadeItem(env: Env, url: string, descriptor: string, width: Option<int>, height: Option<int>, lazy: bool)
    requires Make(env, url, descriptor, width, height, lazy).Success?
    ensures var item := Make(env, url, descriptor, width, height, lazy).value;
      (IsSvgByAttachmentUrl(env, url) ==>
        GetWidth(item) == Failure(FatalError(UnsetWidthMessage)) && GetHeight(item) == Failure(FatalError(UnsetHeightMessage))) &&
      (!IsSvgByAttachmentUrl(env, url) ==>
        var d := ResolveDims(env, url, width, height).value;
        GetWidth(item) == Success(Some(d.width)) && GetHeight(item) == Success(Some(d.height)) &&
        d.width != 0 && d.height != 0)
  {
  }

  /** The default descriptor "" fails the constructor's own guard, so an item
      can only be made with an explicit descriptor. */
  lemma DefaultDescriptorRejected(env: Env, url: string)
    ensures Make(env, url).Failure?
    ensures Truthy(url) ==> Make(env, url) == Failure(InvalidArgument(DescriptorMessage))
  {
  }

  /** `makeWithResize` on one state of the Resizer: an SVG origin is used as
      it is, anything else goes through the engine, and the engine's URL and
      dimensions (0 read as missing) make the item. */
  function WithResize(env: Env, req: Request, descriptor: string, lazy: bool): (r: Result<Item, Error>)
    ensures req.originUrl.None? ==> r == Failure(TypeError(NullOriginMessage))
    ensures req.originUrl.Some? && IsSvgByAttachmentUrl(env, req.originUrl.value) ==>
      r == Make(env, req.originUrl.value, descriptor, None, None, lazy)
    ensures req.originUrl.Some? && !IsSvgByAttachmentUrl(env, req.originUrl.value) && ResizeOutcome(env.engine, req).Failure? ==>
      r == Failure(ResizeOutcome(env.engine, req).error)
    ensures req.originUrl.Some? && !IsSvgByAttachmentUrl(env, req.originUrl.value) && ResizeOutcome(env.engine, req).Success? ==>
      var image := ResizeOutcome(env.engine, req).value;
      if !Truthy(image.url) then r == Failure(TypeError(NullUrlMessage))
      else r == Make(env, image.url, descriptor, Some(image.width), Some(image.height), lazy)
    ensures req.originUrl.Some? && !IsSvgByAttachmentUrl(env, req.originUrl.value) && ResizeOutcome(env.engine, req).Success? ==>
      var image := ResizeOutcome(env.engine, req).value;
      r.Success? && !IsSvgByAttachmentUrl(env, image.url) && image.width != 0 && image.height != 0 ==>
        r.value.url == image.url && r.value.width == Some(image.width) && r.value.height == Some(image.height)
    ensures r.Success? ==> r.value.descriptor == descriptor && r.value.lazy == lazy
  {
    match req.originUrl
    case None => Failure(TypeError(NullOriginMessage))
    case Some(origin) =>
      if IsSvgByAttachmentUrl(env, origin) then Make(env, origin, descriptor, None, None, lazy)
      else match ResizeOutcome(env.engine, req)
        case Failure(e) => Failure(e)
        case Success(image) =>
          if !Truthy(image.url) then Failure(TypeError(NullUrlMessage))
          else
            MakeOfFalsyDims(env, image.url, descriptor, Some(image.width), Some(image.height), lazy);
            Make(env, image.url, descriptor, NullIfFalsy(Some(image.width)), NullIfFalsy(Some(image.height)), lazy)
  }

  /** A zero width or height handed to `make` is the same as none. */
  lemma MakeOfFalsyDims(env: Env, url: string, descriptor: string, width: Option<int>, height: Option<int>, lazy: bool)
    ensures Make(env, url, descriptor, NullIfFalsy(width), NullIfFalsy(height), lazy) == Make(env, url, descriptor, width, height, lazy)
  {
    assert ResolveDims(env, url, NullIfFalsy(width), NullIfFalsy(height)) == ResolveDims(env, url, width, height);
  }

  /** `SrcsetItem::makeWithResize($resizer, $descriptor, $lazy)`. */
  method MakeWithResize(env: Env, resizer: Resizer, descriptor: string := "", lazy: bool := false) returns (r: Result<Item, Error>)
    ensures r == WithResize(env, resizer.Snapshot(), descriptor, lazy)
  {
    var origin := resizer.GetOriginUrl();
    if origin.None? {
      return Failure(TypeError(NullOriginMessage));
    }
    if IsSvgByAttachmentUrl(env, origin.value) {
      return Make(env, origin.value, descriptor, None, None, lazy);
    }
    var resized := resizer.Resize(env.engine);
    match resized
    case Failure(e) => r := Failure(e);
    case Success(image) =>
      var url := if Truthy(image.url) then Some(image.url) else None;
      var width := if image.width != 0 then Some(image.width) else None;
      var height := if image.height != 0 then Some(image.height) else None;
      if url.None? {
        r := Failure(TypeError(NullUrlMessage));
      } else {
        r := Make(env, url.value, descriptor, width, height, lazy);
      }
  }

  /** An SVG origin is never sent to the engine: the result is the same
      whatever the engine does. */
  lemma SvgOriginSkipsEngine(env: Env, req: Request, descriptor: string, lazy: bool, other: Engine)
    requires req.originUrl.Some? && IsSvgByAttachmentUrl(env, req.originUrl.value)
    ensures WithResize(env, req, descriptor, lazy) == WithResize(env.(engine := other), req, descriptor, lazy)
  {
    var env' := env.(engine := other);
    assert IsSvgByAttachmentUrl(env', req.originUrl.value);
  }

  /** A raster origin the engine resizes to a raster file with both
      dimensions gives the item of that file and those dimensions, without
      reading the file. */
  lemma ResizedItem(env: Env, req: Request, descriptor: string, lazy: bool, image: Image)
    requires req.originUrl.Some? && Truthy(req.originUrl.value) && !IsSvgByAttachmentUrl(env, req.originUrl.value)
    requires IntTruthy(req.width)
    requires env.engine(req.originUrl.value, req.width.value, req.height, req.crop, req.upscale) == Done(image)
    requires Truthy(image.url) && image.width != 0 && image.height != 0 && !IsSvgByAttachmentUrl(env, image.url)
    requires ValidDescriptor(descriptor)
    ensures WithResize(env, req, descriptor, lazy) == Success(SrcsetItem(image.url, descriptor, Some(image.width), Some(image.height), lazy))
  {
  }

  /** A resize the engine refuses (returns false) is not an exception: it
      breaks the return type of `resize()`. */
  lemma DeclinedResizeIsError(env: Env, req: Request, descriptor: string, lazy: bool)
    requires req.originUrl.Some? && Truthy(req.originUrl.value) && !IsSvgByAttachmentUrl(env, req.originUrl.value)
    requires IntTruthy(req.width)
    requires env.engine(req.originUrl.value, req.width.value, req.height, req.crop, req.upscale) == Declined
    ensures WithResize(env, req, descriptor, lazy).Failure?
    ensures !IsException(WithResize(env, req, descriptor, lazy).error)
  {
  }

  // ------------------------------------------------ srcset candidates

  /** `"{$url} {$descriptor}"`, or the URL alone for a falsy descriptor. */
  function Candidate(item: SrcsetItem): string {
    if Truthy(item.descriptor) then item.url + " " + item.descriptor else item.url
  }

  function Candidates(items: seq<Item>): (r: seq<string>)
    ensures |r| == |items|
    ensures forall i :: 0 <= i < |items| ==> r[i] == Candidate(items[i])
  {
    seq(|items|, i requires 0 <= i < |items| => Candidate(items[i]))
  }

  /** A valid item's candidate is its URL, a space and its descriptor, and
      ends in 'w' or 'x'. */
  lemma CandidateOfItem(item: Item)
    ensures Candidate(item) == item.url + " " + item.descriptor
    ensures var c := Candidate(item); c != [] && (c[|c| - 1] == 'w' || c[|c| - 1] == 'x')
  {
    var d := item.descriptor;
    assert d[|d| - 1] == 'w' || d[|d| - 1] == 'x' by {
      if EndsWith(d, "w") { assert d[|d| - 1..] == "w"; } else { assert d[|d| - 1..] == "x"; }
    }
    assert Truthy(d) by { assert d[|d| - 1] != '0'; }
  }

  /** The trimmed candidate list is the candidates joined by ", ", and it is
      truthy exactly when there is at least one item. */
  lemma {:induction false} CandidateListIsJoin(items: seq<Item>)
    ensures RTrimChars(Spaced(Candidates(items), ", "), Markup.ListTrim) == Join(Candidates(items), ", ")
    ensures Truthy(Join(Candidates(items), ", ")) <==> items != []
  {
    var cs := Candidates(items);
    if items != [] {
      CandidateOfItem(items[|items| - 1]);
      JoinLast(cs, ", ");
      var j := Join(cs, ", ");
      assert j[|j| - 1] != '0';
    }
    Markup.TrimmedCandidatesAreJoin(cs);
  }
}
