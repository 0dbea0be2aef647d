/** Picture.php: a `<picture>` element, its `<source>` children and the
    `<img>` inside it, each with attributes in an insertion-ordered array. */
module Pictures {
  import opened Php
  import opened Markup
  import opened ImgUtils
  import opened Sources
  import opened Imgs

  const EmptyPictureSrcMessage: string := "Picture: Empty $imgSrc"

  /** The SVG marker the constructor adds after the head of an SVG image. */
  function SvgMark(isSvg: bool): AttrMap {
    if isSvg then [Attr("data-is_svg", Int(1))] else []
  }

  /** `resolveImageInfo` of Picture.php: a width and height that are both
      non-zero are kept, whatever the image; otherwise a raster image reads
      both from its file, and an SVG gets none. */
  function PictureDims(env: Env, src: string, isSvg: bool, width: Option<int>, height: Option<int>): (r: Result<Option<Dims>, Error>)
    ensures IntTruthy(width) && IntTruthy(height) ==> r == Success(Some(Dims(width.value, height.value)))
    ensures !(IntTruthy(width) && IntTruthy(height)) && isSvg ==> r == Success(None)
    ensures !(IntTruthy(width) && IntTruthy(height)) && !isSvg ==>
      (r.Success? <==> ProbeUrl(env, src).Success?) &&
      (r.Success? ==> r.value == Some(ProbeUrl(env, src).value)) &&
      (r.Failure? ==> r.error == ProbeUrl(env, src).error)
  {
    if IntTruthy(width) && IntTruthy(height) then Success(Some(Dims(width.value, height.value)))
    else if isSvg then Success(None)
    else match ProbeUrl(env, src)
      case Failure(e) => Failure(e)
      case Success(d) => Success(Some(d))
  }

  /** The attributes with width and height appended when there are dimensions. */
  function WithDims(m: AttrMap, dims: Option<Dims>): AttrMap {
    if dims.Some? then m + [Attr("width", Int(dims.value.width)), Attr("height", Int(dims.value.height))] else m
  }

  /** The `<img>` attributes the constructor leaves: the head, the SVG
      marker, then the dimensions. */
  function PictureImgAttrs(env: Env, src: string, alt: string, width: Option<int>, height: Option<int>, lazy: bool)
    : (r: Result<AttrMap, Error>)
    ensures !Truthy(src) ==> r == Failure(InvalidArgument(EmptyPictureSrcMessage))
    ensures Truthy(src) ==>
      (r.Failure? <==> !IsSvgByAttachmentUrl(env, src) && !(IntTruthy(width) && IntTruthy(height)) && ProbeUrl(env, src).Failure?)
    ensures r.Success? ==> Head(src, alt, lazy) <= r.value
    ensures Truthy(src) && IntTruthy(width) && IntTruthy(height) ==>
      r.Success? && Get(r.value, "width") == Some(Int(width.value)) && Get(r.value, "height") == Some(Int(height.value))
  {
    if !Truthy(src) then Failure(InvalidArgument(EmptyPictureSrcMessage))
    else
      var isSvg := IsSvgByAttachmentUrl(env, src);
      match PictureDims(env, src, isSvg, width, height)
      case Failure(e) => Failure(e)
      case Success(dims) =>
        DimsFound(src, alt, lazy, isSvg, dims);
        Success(WithDims(Head(src, alt, lazy) + SvgMark(isSvg), dims))
  }

  /** The dimensions of the `<img>` attributes are found under width and height. */
  lemma DimsFound(src: string, alt: string, lazy: bool, isSvg: bool, dims: Option<Dims>)
    ensures var m := WithDims(Head(src, alt, lazy) + SvgMark(isSvg), dims);
      dims.Some? ==> Get(m, "width") == Some(Int(dims.value.width)) && Get(m, "height") == Some(Int(dims.value.height))
  {
    PictureMapGets(src, alt, lazy, isSvg, dims, "width");
    PictureMapGets(src, alt, lazy, isSvg, dims, "height");
  }

  /** The rendered `<source>` tags, in order. */
  function SourceTags(sources: seq<Source>): seq<string>
    reads sources
  {
    if sources == [] then [] else SourceTags(sources[..|sources| - 1]) + [sources[|sources| - 1].Html()]
  }

  /** `implode("\n\t", $sources)` followed by "\n\t" when it is truthy. */
  function SourcesBlock(tags: seq<string>): (r: string)
    ensures r == "" || EndsWith(r, "\n\t")
    ensures tags == [] ==> r == ""
    ensures |tags| == 1 ==> r == if Truthy(tags[0]) then tags[0] + "\n\t" else ""
  {
    var joined := Join(tags, "\n\t");
    if Truthy(joined) then joined + "\n\t" else ""
  }

  /** `"<picture {$tagContent}>\n\t{$sources}{$img}\n</picture>"`, given the opening tag. */
  function Layout(open: string, block: string, img: string): string {
    open + "\n\t" + block + img + "\n</picture>"
  }

  class Picture {
    var sources: seq<Source>
    var pictureAttrs: AttrMap
    var imgAttrs: AttrMap
    var lazy: bool
    var isSvg: bool

    /** The constructor past its guard, before `resolveImageInfo`: an SVG
        drops its sources and gets the marker instead. */
    constructor (env: Env, src: string, alt: string, sources: seq<Source>, lazy: bool)
      ensures isSvg == IsSvgByAttachmentUrl(env, src) && this.lazy == lazy && pictureAttrs == []
      ensures imgAttrs == Head(src, alt, lazy) + SvgMark(isSvg)
      ensures this.sources == if isSvg then [] else sources
    {
      var head := [Attr("src", Str(src)), Attr("alt", Str(alt))];
      if lazy {
        head := head + [Attr("loading", Str("lazy"))];
      }
      assert head == Head(src, alt, lazy);
      var svg := IsSvgByAttachmentUrl(env, src);
      if !svg {
        this.sources := sources;
      } else {
        this.sources := [];
        SvgMarkedHead(src, alt, lazy);
        head := Set(head, "data-is_svg", Int(1));
      }
      pictureAttrs := [];
      imgAttrs := head;
      this.lazy := lazy;
      isSvg := svg;
    }

    /** `Picture::make`: refuses a falsy src, then builds the element. */
    static method Make(env: Env, src: string, alt: string := "", width: Option<int> := None, height: Option<int> := None,
                       sources: seq<Source> := [], lazy: bool := false)
      returns (r: Result<Picture, Error>)
      ensures var expected := PictureImgAttrs(env, src, alt, width, height, lazy);
        (r.Success? <==> expected.Success?) && (r.Failure? ==> r.error == expected.error)
      ensures r.Success? ==>
        fresh(r.value) && r.value.lazy == lazy && r.value.pictureAttrs == [] &&
        r.value.isSvg == IsSvgByAttachmentUrl(env, src) &&
        r.value.sources == (if r.value.isSvg then [] else sources) &&
        r.value.imgAttrs == PictureImgAttrs(env, src, alt, width, height, lazy).value
    {
      if !Truthy(src) {
        return Failure(InvalidArgument(EmptyPictureSrcMessage));
      }
      var picture := new Picture(env, src, alt, sources, lazy);
      MarkedHead(src, alt, lazy, picture.isSvg);
      var err := picture.ResolveImageInfo(env, width, height);
      if err.Some? {
        return Failure(err.value);
      }
      r := Success(picture);
    }

    /** `resolveImageInfo`: appends width and height as `PictureDims` says. */
    method ResolveImageInfo(env: Env, width: Option<int>, height: Option<int>) returns (err: Option<Error>)
      requires Get(imgAttrs, "src").Some? && Get(imgAttrs, "src").value.Str?
      requires "width" !in Names(imgAttrs) && "height" !in Names(imgAttrs)
      modifies this
      ensures sources == old(sources) && pictureAttrs == old(pictureAttrs) && lazy == old(lazy) && isSvg == old(isSvg)
      ensures var pd := PictureDims(env, old(Get(imgAttrs, "src")).value.s, isSvg, width, height);
        (err.None? <==> pd.Success?) &&
        (err.Some? ==> err.value == pd.error) &&
        (err.None? ==> imgAttrs == WithDims(old(imgAttrs), pd.value))
    {
      var base := imgAttrs;
      var w, h;
      if IntTruthy(width) && IntTruthy(height) {
        w, h := width.value, height.value;
      } else if !isSvg {
        var probe := ProbeUrl(env, Get(imgAttrs, "src").value.s);
        if probe.Failure? {
          return Some(probe.error);
        }
        w, h := probe.value.width, probe.value.height;
      } else {
        return None;
      }
      SetTwoNewKeys(base, "width", Int(w), "height", Int(h));
      imgAttrs := Set(Set(imgAttrs, "width", Int(w)), "height", Int(h));
      err := None;
    }

    /** `setPictureAttr`: any attribute of the `<picture>` tag, under its lowered name. */
    method SetPictureAttr(name: string, value: Value) returns (self: Picture)
      modifies this
      ensures self == this
      ensures sources == old(sources) && imgAttrs == old(imgAttrs) && lazy == old(lazy) && isSvg == old(isSvg)
      ensures pictureAttrs == SetLowered(old(pictureAttrs), name, value)
    {
      pictureAttrs := SetLowered(pictureAttrs, name, value);
      self := this;
    }

    /** `setImgAttr`: any attribute of the inner `<img>` but src, srcset and sizes. */
    method SetImgAttr(name: string, value: Value) returns (self: Picture)
      modifies this
      ensures self == this
      ensures sources == old(sources) && pictureAttrs == old(pictureAttrs) && lazy == old(lazy) && isSvg == old(isSvg)
      ensures imgAttrs == SetUnprotected(old(imgAttrs), name, value)
    {
      imgAttrs := SetUnprotected(imgAttrs, name, value);
      self := this;
    }

    /** The tag `renderImg()` returns. */
    function ImgHtml(): string
      reads this
    {
      Tag("img", imgAttrs, ImgSkip, Bare)
    }

    /** The element `render()` returns: the `<picture>` tag with all of its
        attributes, then the source tags and the image tag, each on a line
        of its own indented by a tab. */
    function Html(): string
      reads this, sources
    {
      Layout(Tag("picture", pictureAttrs, PictureSkip, Bare), SourcesBlock(SourceTags(sources)), ImgHtml())
    }

    method RenderImg() returns (html: string)
      ensures html == ImgHtml()
    {
      var content := RenderAttributes(imgAttrs, ImgSkip, Bare);
      html := "<img " + content + ">";
    }

    /** The source tags `implode` gathers, each source rendered in turn. */
    method RenderSources() returns (tags: seq<string>)
      ensures tags == SourceTags(sources)
    {
      tags := [];
      var i := 0;
      while i < |sources|
        invariant 0 <= i <= |sources|
        invariant tags == SourceTags(sources[..i])
      {
        var tag := sources[i].Render();
        assert sources[..i + 1][..i] == sources[..i];
        tags := tags + [tag];
        i := i + 1;
      }
      assert sources[..|sources|] == sources;
    }

    method Render() returns (html: string)
      ensures html == Html()
    {
      var tags := RenderSources();
      var joined := Join(tags, "\n\t");
      var block := if Truthy(joined) then joined + "\n\t" else "";
      assert block == SourcesBlock(tags);
      var img := RenderImg();
      var content := RenderAttributes(pictureAttrs, PictureSkip, Bare);
      var open := "<" + "picture" + " " + content + ">";
      html := Layout(open, block, img);
    }
  }

  /** Setting the SVG marker on the head appends it. */
  lemma SvgMarkedHead(src: string, alt: string, lazy: bool)
    ensures Set(Head(src, alt, lazy), "data-is_svg", Int(1)) == Head(src, alt, lazy) + SvgMark(true)
  {
    HeadNames(src, alt, lazy);
    SetNewKey(Head(src, alt, lazy), "data-is_svg", Int(1));
  }

  /** The head with the SVG marker still finds src and has no width or height. */
  lemma MarkedHead(src: string, alt: string, lazy: bool, isSvg: bool)
    ensures var m := Head(src, alt, lazy) + SvgMark(isSvg);
      Get(m, "src") == Some(Str(src)) && "width" !in Names(m) && "height" !in Names(m)
  {
    var head := Head(src, alt, lazy);
    HeadNames(src, alt, lazy);
    GetAppend(head, SvgMark(isSvg), "src");
    GetHead(src, alt, lazy, "src");
    if isSvg {
      NamesAppend(head, Attr("data-is_svg", Int(1)));
    } else {
      assert head + SvgMark(isSvg) == head;
    }
  }

  // ------------------------------------------------------ the sources block

  /** Every source tag starts with "<source ". */
  lemma SourceTagStart(s: Source)
    ensures StartsWith(s.Html(), "<source ")
  {
    var t := s.Html();
    assert t[..8] == "<source ";
  }

  /** One tag per source, in order. */
  lemma SourceTagsOrder(sources: seq<Source>)
    ensures |SourceTags(sources)| == |sources|
    ensures forall i :: 0 <= i < |sources| ==> SourceTags(sources)[i] == sources[i].Html()
  {
    SourceTagsSize(sources);
    forall i | 0 <= i < |sources| ensures SourceTags(sources)[i] == sources[i].Html() {
      SourceTagAt(sources, i);
    }
  }

  lemma {:induction false} SourceTagsSize(sources: seq<Source>)
    ensures |SourceTags(sources)| == |sources|
  {
    if sources != [] {
      SourceTagsSize(sources[..|sources| - 1]);
    }
  }

  lemma {:induction false} SourceTagAt(sources: seq<Source>, i: nat)
    requires i < |sources|
    ensures i < |SourceTags(sources)| && SourceTags(sources)[i] == sources[i].Html()
  {
    var init := sources[..|sources| - 1];
    SourceTagsSize(init);
    if i < |init| {
      SourceTagAt(init, i);
      assert sources[i] == init[i];
    }
  }

  /** The sources block is empty exactly when there are no sources; otherwise
      it is the tags joined by a newline and a tab, followed by one more. */
  lemma SourcesBlockShape(sources: seq<Source>)
    ensures SourcesBlock(SourceTags(sources)) == "" <==> sources == []
    ensures sources != [] ==> SourcesBlock(SourceTags(sources)) == Join(SourceTags(sources), "\n\t") + "\n\t"
  {
    var tags := SourceTags(sources);
    if sources != [] {
      SourceTagsOrder(sources);
      SourceTagStart(sources[0]);
      assert tags[0][0] == '<';
      JoinFirst(tags, "\n\t");
      var joined := Join(tags, "\n\t");
      assert joined[0] == '<';
      assert Truthy(joined);
    }
  }

  // ------------------------------------------------------ attribute lookups

  /** What the `<img>` attributes of a picture hold under each name. */
  function PictureGet(src: string, alt: string, lazy: bool, isSvg: bool, dims: Option<Dims>, k: string): (r: Option<Value>)
    ensures r.Some? <==>
      (k == "src" || k == "alt" || (k == "loading" && lazy) || (k == "data-is_svg" && isSvg)
       || ((k == "width" || k == "height") && dims.Some?))
  {
    if k == "src" || k == "alt" || k == "loading" then HeadGet(src, alt, lazy, k)
    else if k == "data-is_svg" then (if isSvg then Some(Int(1)) else None)
    else if k == "width" then (if dims.Some? then Some(Int(dims.value.width)) else None)
    else if k == "height" then (if dims.Some? then Some(Int(dims.value.height)) else None)
    else None
  }

  lemma PictureMapGets(src: string, alt: string, lazy: bool, isSvg: bool, dims: Option<Dims>, k: string)
    ensures Get(WithDims(Head(src, alt, lazy) + SvgMark(isSvg), dims), k) == PictureGet(src, alt, lazy, isSvg, dims, k)
  {
    var head := Head(src, alt, lazy);
    var marked := head + SvgMark(isSvg);
    GetHead(src, alt, lazy, k);
    GetAppend(head, SvgMark(isSvg), k);
    if isSvg {
      assert SvgMark(isSvg)[1..] == [];
    }
    if dims.Some? {
      var t := [Attr("width", Int(dims.value.width)), Attr("height", Int(dims.value.height))];
      GetAppend(marked, t, k);
      assert t[1..][1..] == [];
    }
  }

  /** A picture's `<img>` keeps a width and height that are both non-zero,
      SVG or not, without reading any file: the result is the same for any
      environment that classifies the source alike. */
  lemma GivenDimsKept(env: Env, other: Env, src: string, alt: string, w: int, h: int, lazy: bool)
    requires Truthy(src) && w != 0 && h != 0
    requires IsSvgByAttachmentUrl(other, src) == IsSvgByAttachmentUrl(env, src)
    ensures PictureImgAttrs(env, src, alt, Some(w), Some(h), lazy).Success?
    ensures PictureImgAttrs(env, src, alt, Some(w), Some(h), lazy) == PictureImgAttrs(other, src, alt, Some(w), Some(h), lazy)
    ensures var m := PictureImgAttrs(env, src, alt, Some(w), Some(h), lazy).value;
      Get(m, "width") == Some(Int(w)) && Get(m, "height") == Some(Int(h))
  {
    var isSvg := IsSvgByAttachmentUrl(env, src);
    PictureMapGets(src, alt, lazy, isSvg, Some(Dims(w, h)), "width");
    PictureMapGets(src, alt, lazy, isSvg, Some(Dims(w, h)), "height");
  }

  /** An SVG picture without both dimensions gets neither, reads no file,
      and is marked as SVG. */
  lemma SvgWithoutDims(env: Env, other: Env, src: string, alt: string, width: Option<int>, height: Option<int>, lazy: bool)
    requires Truthy(src) && IsSvgByAttachmentUrl(env, src) && IsSvgByAttachmentUrl(other, src)
    requires !(IntTruthy(width) && IntTruthy(height))
    ensures PictureImgAttrs(env, src, alt, width, height, lazy) == PictureImgAttrs(other, src, alt, width, height, lazy)
    ensures PictureImgAttrs(env, src, alt, width, height, lazy).Success?
    ensures var m := PictureImgAttrs(env, src, alt, width, height, lazy).value;
      Get(m, "data-is_svg") == Some(Int(1)) && Get(m, "width").None? && Get(m, "height").None?
  {
    PictureMapGets(src, alt, lazy, true, None, "data-is_svg");
    PictureMapGets(src, alt, lazy, true, None, "width");
    PictureMapGets(src, alt, lazy, true, None, "height");
  }

  /** A raster picture without both dimensions is made exactly when its
      file can be probed, and then carries the probed dimensions and no SVG
      marker. */
  lemma RasterWithoutDims(env: Env, src: string, alt: string, width: Option<int>, height: Option<int>, lazy: bool)
    requires Truthy(src) && !IsSvgByAttachmentUrl(env, src)
    requires !(IntTruthy(width) && IntTruthy(height))
    ensures PictureImgAttrs(env, src, alt, width, height, lazy).Success? <==> ProbeUrl(env, src).Success?
    ensures ProbeUrl(env, src).Failure? ==> PictureImgAttrs(env, src, alt, width, height, lazy) == Failure(ProbeUrl(env, src).error)
    ensures ProbeUrl(env, src).Success? ==>
      var m := PictureImgAttrs(env, src, alt, width, height, lazy).value;
      var d := ProbeUrl(env, src).value;
      Get(m, "width") == Some(Int(d.width)) && Get(m, "height") == Some(Int(d.height)) && Get(m, "data-is_svg").None?
  {
    if ProbeUrl(env, src).Success? {
      var d := ProbeUrl(env, src).value;
      PictureMapGets(src, alt, lazy, false, Some(d), "width");
      PictureMapGets(src, alt, lazy, false, Some(d), "height");
      PictureMapGets(src, alt, lazy, false, Some(d), "data-is_svg");
    }
  }

  /** Whatever the dimensions, a made picture's `<img>` has src, alt and the
      lazy marker exactly when asked for. */
  lemma PictureHead(env: Env, src: string, alt: string, width: Option<int>, height: Option<int>, lazy: bool)
    requires PictureImgAttrs(env, src, alt, width, height, lazy).Success?
    ensures Truthy(src)
    ensures var m := PictureImgAttrs(env, src, alt, width, height, lazy).value;
      Get(m, "src") == Some(Str(src)) && Get(m, "alt") == Some(Str(alt)) &&
      (Get(m, "loading") == Some(Str("lazy")) <==> lazy)
  {
    var isSvg := IsSvgByAttachmentUrl(env, src);
    var dims := PictureDims(env, src, isSvg, width, height).value;
    PictureMapGets(src, alt, lazy, isSvg, dims, "src");
    PictureMapGets(src, alt, lazy, isSvg, dims, "alt");
    PictureMapGets(src, alt, lazy, isSvg, dims, "loading");
  }
}
