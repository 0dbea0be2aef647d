/** Resizer.php: one resize request (origin URL, target width and height,
    crop and upscale policy) that the builders mutate through fluent setters
    and hand, one state at a time, to the external resize engine. */
module Resizers {
  import opened Php

  /** What the engine produced: `[url, width, height]`. */
  datatype Image = Image(url: string, width: int, height: int)

  /** The three ways a call of `aq_resize` can end: it returns the resized
      image, it returns `false`, or it throws an `\Aq_Exception`. */
  datatype EngineResult = Done(image: Image) | Declined | Raised

  /** The resize engine, taken as a parameter: `(url, width, height, crop, upscale)`. */
  type Engine = (string, int, Option<int>, bool, bool) -> EngineResult

  /** The five fields of a Resizer at one moment. */
  datatype Request = Request(originUrl: Option<string>, width: Option<int>, height: Option<int>, crop: bool, upscale: bool)

  /** The guards of `resize()` and what follows them. A `false` from the
      engine violates the method's `array` return type, which PHP reports
      as a `\TypeError`. */
  function ResizeOutcome(engine: Engine, req: Request): (r: Result<Image, Error>)
    ensures req.originUrl.None? || !Truthy(req.originUrl.value) ==> r == Failure(InvalidArgument("Resizer: originUrl is empty"))
    ensures req.originUrl.Some? && Truthy(req.originUrl.value) && !IntTruthy(req.width) ==>
      r == Failure(InvalidArgument("Resizer: width is empty"))
    ensures req.originUrl.Some? && Truthy(req.originUrl.value) && IntTruthy(req.width) ==>
      var outcome := engine(req.originUrl.value, req.width.value, req.height, req.crop, req.upscale);
      (r.Success? <==> outcome.Done?) &&
      (r.Success? ==> r.value == outcome.image) &&
      (outcome.Raised? ==> r == Failure(AqException)) &&
      (outcome.Declined? ==> r.Failure? && !IsException(r.error))
    ensures r.Failure? && IsException(r.error) ==> r.error.InvalidArgument? || r.error == AqException
  {
    if req.originUrl.None? || !Truthy(req.originUrl.value) then
      Failure(InvalidArgument("Resizer: originUrl is empty"))
    else if !IntTruthy(req.width) then
      Failure(InvalidArgument("Resizer: width is empty"))
    else
      match engine(req.originUrl.value, req.width.value, req.height, req.crop, req.upscale)
      case Done(image) => Success(image)
      case Declined => Failure(TypeError("Resizer::resize(): Return value must be of type array, bool returned"))
      case Raised => Failure(AqException)
  }

  class Resizer {
    var originUrl: Option<string>
    var width: Option<int>
    var height: Option<int>
    var crop: bool
    var upscale: bool

    function Snapshot(): Request
      reads this
    {
      Request(originUrl, width, height, crop, upscale)
    }

    /** Stores the five arguments as given; crop and upscale default to true. */
    constructor (originUrl: Option<string> := None, width: Option<int> := None, height: Option<int> := None,
                 crop: bool := true, upscale: bool := true)
      ensures Snapshot() == Request(originUrl, width, height, crop, upscale)
    {
      this.originUrl := originUrl;
      this.width := width;
      this.height := height;
      this.crop := crop;
      this.upscale := upscale;
    }

    static method MakeWithUrl(originUrl: string, width: Option<int> := None, height: Option<int> := None,
                              crop: bool := true, upscale: bool := true) returns (r: Resizer)
      ensures fresh(r)
      ensures r.Snapshot() == Request(Some(originUrl), width, height, crop, upscale)
    {
      r := new Resizer(Some(originUrl), width, height, crop, upscale);
    }

    /** Checks the origin URL, then the width, and only then calls the engine
        on the current state. */
    method Resize(engine: Engine) returns (r: Result<Image, Error>)
      ensures originUrl.None? || !Truthy(originUrl.value) ==> r == Failure(InvalidArgument("Resizer: originUrl is empty"))
      ensures originUrl.Some? && Truthy(originUrl.value) && !IntTruthy(width) ==> r == Failure(InvalidArgument("Resizer: width is empty"))
      ensures originUrl.Some? && Truthy(originUrl.value) && IntTruthy(width) ==>
        (r.Success? <==> engine(originUrl.value, width.value, height, crop, upscale).Done?) &&
        (r.Success? ==> r.value == engine(originUrl.value, width.value, height, crop, upscale).image)
      ensures r == ResizeOutcome(engine, Snapshot())
    {
      if originUrl.None? || !Truthy(originUrl.value) {
        return Failure(InvalidArgument("Resizer: originUrl is empty"));
      }
      if !IntTruthy(width) {
        return Failure(InvalidArgument("Resizer: width is empty"));
      }
      var result := engine(originUrl.value, width.value, height, crop, upscale);
      match result
      case Done(image) => r := Success(image);
      case Declined => r := Failure(TypeError("Resizer::resize(): Return value must be of type array, bool returned"));
      case Raised => r := Failure(AqException);
    }

    /** The getters read back the field of the current request. */
    function GetOriginUrl(): (r: Option<string>) reads this ensures r == Snapshot().originUrl { originUrl }
    function GetWidth(): (r: Option<int>) reads this ensures r == Snapshot().width { width }
    function GetHeight(): (r: Option<int>) reads this ensures r == Snapshot().height { height }
    function GetCrop(): (r: bool) reads this ensures r == Snapshot().crop { crop }
    function GetUpscale(): (r: bool) reads this ensures r == Snapshot().upscale { upscale }

    method SetOriginUrl(originUrl: Option<string>) returns (self: Resizer)
      modifies this
      ensures self == this && GetOriginUrl() == originUrl
      ensures Snapshot() == old(Snapshot()).(originUrl := originUrl)
    {
      this.originUrl := originUrl;
      self := this;
    }

    method SetWidth(width: Option<int>) returns (self: Resizer)
      modifies this
      ensures self == this && GetWidth() == width
      ensures Snapshot() == old(Snapshot()).(width := width)
    {
      this.width := width;
      self := this;
    }

    method SetHeight(height: Option<int>) returns (self: Resizer)
      modifies this
      ensures self == this && GetHeight() == height
      ensures Snapshot() == old(Snapshot()).(height := height)
    {
      this.height := height;
      self := this;
    }

    method SetCrop(crop: bool) returns (self: Resizer)
      modifies this
      ensures self == this && GetCrop() == crop
      ensures Snapshot() == old(Snapshot()).(crop := crop)
    {
      this.crop := crop;
      self := this;
    }

    method SetUpscale(upscale: bool) returns (self: Resizer)
      modifies this
      ensures self == this && GetUpscale() == upscale
      ensures Snapshot() == old(Snapshot()).(upscale := upscale)
    {
      this.upscale := upscale;
      self := this;
    }
  }
}
