/** Img.php: an `<img>` element with `srcset` and `sizes`, its attributes in
    an insertion-ordered array. */
module Imgs {
  import opened Php
  import opened Markup
  import opened ImgUtils
  import opened Sizes
  import opened SrcsetItems

  const EmptySrcMessage: string := "Img: Empty $imgSrc"

  /** An `int|null` attribute value. */
  function IntOrNull(x: Option<int>): Value {
    if x.Some? then Int(x.value) else Null
  }

  /** The attributes every image starts with: src, alt, and `loading="lazy"`
      when asked for. */
  function Head(src: string, alt: string, lazy: bool): AttrMap {
    [Attr("src", Str(src)), Attr("alt", Str(alt))] + (if lazy then [Attr("loading", Str("lazy"))] else [])
  }

  lemma HeadNames(src: string, alt: string, lazy: bool)
    ensures Names(Head(src, alt, lazy)) == ["src", "alt"] + (if lazy then ["loading"] else [])
  {
  }

  /** The `srcset` text of an image: every candidate, in order, joined by ", ". */
  function ImgSrcsetText(srcset: seq<Item>): string {
    Join(Candidates(srcset), ", ")
  }

  /** The attributes the constructor leaves. An SVG gets only a
      `data-is_svg` marker after the head; anything else gets sizes, the
      resolved width and height, and a srcset when there are candidates. */
  function ImgAttrs(env: Env, src: string, alt: string, width: Option<int>, height: Option<int>,
                    srcset: seq<Item>, sizes: seq<ValidSize>, lazy: bool): (r: Result<AttrMap, Error>)
    ensures !Truthy(src) ==> r == Failure(InvalidArgument(EmptySrcMessage))
    ensures Truthy(src) ==>
      (r.Failure? <==> !IsSvgByAttachmentUrl(env, src) && ResolveDims(env, src, width, height).Failure?)
    ensures Truthy(src) && r.Failure? ==> r.error == ResolveDims(env, src, width, height).error
    ensures r.Success? ==> Head(src, alt, lazy) <= r.value
  {
    if !Truthy(src) then Failure(InvalidArgument(EmptySrcMessage))
    else if IsSvgByAttachmentUrl(env, src) then Success(Head(src, alt, lazy) + [Attr("data-is_svg", Int(1))])
    else match ResolveDims(env, src, width, height)
      case Failure(e) => Failure(e)
      case Success(d) => Success(Head(src, alt, lazy) + RasterTail(SizesText(sizes), d, ImgSrcsetText(srcset)))
  }

  /** The attributes after the head of a raster image: sizes, width and
      height, then the srcset text when it is truthy. */
  function RasterTail(sizesText: string, d: Dims, srcsetText: string): AttrMap {
    [Attr("sizes", Str(sizesText)), Attr("width", Int(d.width)), Attr("height", Int(d.height))]
    + (if Truthy(srcsetText) then [Attr("srcset", Str(srcsetText))] else [])
  }

  class Img {
    var attrs: AttrMap
    var lazy: bool

    /** The constructor past its guard, before the SVG test. */
    constructor (src: string, alt: string, lazy: bool)
      ensures attrs == Head(src, alt, lazy) && this.lazy == lazy
    {
      attrs := [Attr("src", Str(src)), Attr("alt", Str(alt))];
      this.lazy := lazy;
      if lazy {
        attrs := attrs + [Attr("loading", Str("lazy"))];
      }
    }

    /** `Img::make`: refuses a falsy src, then builds the attributes. */
    static method Make(env: Env, src: string, alt: string := "", width: Option<int> := None, height: Option<int> := None,
                       srcset: seq<Item> := [], sizes: seq<ValidSize> := [], lazy: bool := false)
      returns (r: Result<Img, Error>)
      ensures var expected := ImgAttrs(env, src, alt, width, height, srcset, sizes, lazy);
        (r.Success? <==> expected.Success?) && (r.Failure? ==> r.error == expected.error)
      ensures r.Success? ==>
        fresh(r.value) && r.value.lazy == lazy &&
        r.value.attrs == ImgAttrs(env, src, alt, width, height, srcset, sizes, lazy).value
    {
      if !Truthy(src) {
        return Failure(InvalidArgument(EmptySrcMessage));
      }
      var img := new Img(src, alt, lazy);
      if IsSvgByAttachmentUrl(env, src) {
        img.MarkSvg(src, alt);
        ImgAttrsOfSvg(env, src, alt, width, height, srcset, sizes, lazy);
        return Success(img);
      }
      var err := img.ResolveRaster(env, src, alt, width, height, srcset, sizes);
      if err.Some? {
        return Failure(err.value);
      }
      r := Success(img);
    }

    /** The SVG half of `make`: the `data-is_svg` marker and nothing else. */
    method MarkSvg(src: string, alt: string)
      requires attrs == Head(src, alt, lazy)
      modifies this
      ensures lazy == old(lazy)
      ensures attrs == Head(src, alt, lazy) + [Attr("data-is_svg", Int(1))]
    {
      HeadNames(src, alt, lazy);
      SetNewKey(attrs, "data-is_svg", Int(1));
      attrs := Set(attrs, "data-is_svg", Int(1));
    }

    /** The raster half of `make`: sizes, then `resolveImageInfo`, then
        `resolveSrcset`, on the attributes the constructor wrote. */
    method ResolveRaster(env: Env, src: string, alt: string, width: Option<int>, height: Option<int>,
                         srcset: seq<Item>, sizes: seq<ValidSize>)
      returns (err: Option<Error>)
      requires Truthy(src) && !IsSvgByAttachmentUrl(env, src) && attrs == Head(src, alt, lazy)
      modifies this
      ensures lazy == old(lazy)
      ensures var expected := ImgAttrs(env, src, alt, width, height, srcset, sizes, lazy);
        (err.None? <==> expected.Success?) && (err.Some? ==> err.value == expected.error) &&
        (err.None? ==> attrs == expected.value)
    {
      var head := attrs;
      var sizing := Attr("sizes", Str(SizesText(sizes)));
      SizedHead(src, alt, lazy, SizesText(sizes));
      attrs := Set(attrs, "sizes", Str(SizesText(sizes)));
      err := ResolveImageInfo(env, width, height);
      if err.Some? {
        ImgAttrsOfFailure(env, src, alt, width, height, srcset, sizes, lazy);
        return;
      }
      var d := ResolveDims(env, src, width, height).value;
      assert attrs == head + [sizing] + [Attr("width", Int(d.width)), Attr("height", Int(d.height))];
      ResolveSrcset(srcset);
      CandidateListIsJoin(srcset);
      RasterAssembly(src, alt, lazy, SizesText(sizes), d, ImgSrcsetText(srcset));
      ImgAttrsOfRaster(env, src, alt, width, height, srcset, sizes, lazy);
    }

    /** `resolveImageInfo`: writes width and height (0 read as null), and
        when either is then missing, both from the file behind `src`. */
    method ResolveImageInfo(env: Env, width: Option<int>, height: Option<int>) returns (err: Option<Error>)
      requires Get(attrs, "src").Some? && Get(attrs, "src").value.Str?
      requires "width" !in Names(attrs) && "height" !in Names(attrs)
      modifies this
      ensures lazy == old(lazy)
      ensures var rd := ResolveDims(env, old(Get(attrs, "src")).value.s, width, height);
        (err.None? <==> rd.Success?) &&
        (err.Some? ==> err.value == rd.error) &&
        (err.None? ==> attrs == old(attrs) + [Attr("width", Int(rd.value.width)), Attr("height", Int(rd.value.height))])
    {
      var src := Get(attrs, "src").value.s;
      var w := NullIfFalsy(width);
      var h := NullIfFalsy(height);
      var base := attrs;
      SetTwoNewKeys(base, "width", IntOrNull(w), "height", IntOrNull(h));
      attrs := Set(Set(attrs, "width", IntOrNull(w)), "height", IntOrNull(h));
      if w.None? || h.None? {
        var probe := ProbeUrl(env, src);
        if probe.Failure? {
          return Some(probe.error);
        }
        var pw := NullIfFalsy(Some(probe.value.width));
        var ph := NullIfFalsy(Some(probe.value.height));
        SetTwoKeysAgain(base, "width", IntOrNull(w), "height", IntOrNull(h), IntOrNull(pw), IntOrNull(ph));
        attrs := Set(Set(attrs, "width", IntOrNull(pw)), "height", IntOrNull(ph));
      }
      err := None;
    }

    /** `resolveSrcset`: the candidate loop, trimmed, written when truthy. */
    method ResolveSrcset(srcset: seq<Item>)
      modifies this
      ensures lazy == old(lazy)
      ensures attrs == if srcset == [] then old(attrs) else Set(old(attrs), "srcset", Str(ImgSrcsetText(srcset)))
    {
      var html := JoinCandidates(Candidates(srcset));
      CandidateListIsJoin(srcset);
      if Truthy(html) {
        attrs := Set(attrs, "srcset", Str(html));
      }
    }

    /** `setAttr`: any attribute but src, srcset and sizes, under its lowered name. */
    method SetAttr(name: string, value: Value) returns (self: Img)
      modifies this
      ensures self == this && lazy == old(lazy)
      ensures attrs == SetUnprotected(old(attrs), name, value)
    {
      attrs := SetUnprotected(attrs, name, value);
      self := this;
    }

    /** The tag `render()` returns, with a null-valued attribute written as
        its bare name. */
    function Html(): string
      reads this
    {
      Tag("img", attrs, ImgSkip, Bare)
    }

    method Render() returns (html: string)
      ensures html == Html()
    {
      var content := RenderAttributes(attrs, ImgSkip, Bare);
      html := "<img " + content + ">";
    }
  }

  lemma ImgAttrsOfSvg(env: Env, src: string, alt: string, width: Option<int>, height: Option<int>,
                      srcset: seq<Item>, sizes: seq<ValidSize>, lazy: bool)
    requires Truthy(src) && IsSvgByAttachmentUrl(env, src)
    ensures ImgAttrs(env, src, alt, width, height, srcset, sizes, lazy) == Success(Head(src, alt, lazy) + [Attr("data-is_svg", Int(1))])
  {
  }

  lemma ImgAttrsOfFailure(env: Env, src: string, alt: string, width: Option<int>, height: Option<int>,
                          srcset: seq<Item>, sizes: seq<ValidSize>, lazy: bool)
    requires Truthy(src) && !IsSvgByAttachmentUrl(env, src) && ResolveDims(env, src, width, height).Failure?
    ensures ImgAttrs(env, src, alt, width, height, srcset, sizes, lazy) == Failure(ResolveDims(env, src, width, height).error)
  {
  }

  lemma ImgAttrsOfRaster(env: Env, src: string, alt: string, width: Option<int>, height: Option<int>,
                         srcset: seq<Item>, sizes: seq<ValidSize>, lazy: bool)
    requires Truthy(src) && !IsSvgByAttachmentUrl(env, src) && ResolveDims(env, src, width, height).Success?
    ensures ImgAttrs(env, src, alt, width, height, srcset, sizes, lazy) ==
      Success(Head(src, alt, lazy) + RasterTail(SizesText(sizes), ResolveDims(env, src, width, height).value, ImgSrcsetText(srcset)))
  {
  }

  /** The head with sizes appended: src is still found, width and height
      are still new keys. */
  lemma SizedHead(src: string, alt: string, lazy: bool, sizesText: string)
    ensures var head := Head(src, alt, lazy);
      var sized := head + [Attr("sizes", Str(sizesText))];
      Set(head, "sizes", Str(sizesText)) == sized &&
      Get(sized, "src") == Some(Str(src)) &&
      Names(sized) == Names(head) + ["sizes"] &&
      "src" in Names(head) && "width" !in Names(sized) && "height" !in Names(sized)
  {
    var head := Head(src, alt, lazy);
    var sizing := Attr("sizes", Str(sizesText));
    SizedHeadNames(src, alt, lazy, sizesText);
    GetAppend(head, [sizing], "src");
    GetHead(src, alt, lazy, "src");
  }

  lemma SizedHeadNames(src: string, alt: string, lazy: bool, sizesText: string)
    ensures var head := Head(src, alt, lazy);
      var sized := head + [Attr("sizes", Str(sizesText))];
      Set(head, "sizes", Str(sizesText)) == sized &&
      Names(sized) == Names(head) + ["sizes"] &&
      "src" in Names(head) && "width" !in Names(sized) && "height" !in Names(sized)
  {
    var head := Head(src, alt, lazy);
    HeadNames(src, alt, lazy);
    SetNewKey(head, "sizes", Str(sizesText));
    NamesAppend(head, Attr("sizes", Str(sizesText)));
  }

  /** No srcset among the names once width and height follow sizes. */
  lemma DimmedNames(src: string, alt: string, lazy: bool, sizesText: string, d: Dims)
    ensures "srcset" !in Names(Head(src, alt, lazy) + [Attr("sizes", Str(sizesText))] + [Attr("width", Int(d.width)), Attr("height", Int(d.height))])
  {
    var sized := Head(src, alt, lazy) + [Attr("sizes", Str(sizesText))];
    var wAttr, hAttr := Attr("width", Int(d.width)), Attr("height", Int(d.height));
    SizedHead(src, alt, lazy, sizesText);
    HeadNames(src, alt, lazy);
    NamesAppend(sized, wAttr);
    NamesAppend(sized + [wAttr], hAttr);
    assert sized + [wAttr, hAttr] == sized + [wAttr] + [hAttr];
    var ns := Names(sized + [wAttr, hAttr]);
    var others := ["sizes", "width", "height"];
    assert ns == Names(Head(src, alt, lazy)) + others;
    assert "srcset" !in others;
  }

  /** The steps of the constructor past the SVG test, on plain values: the
      head, then sizes, width and height set as new keys, then the srcset
      text set when it is truthy. */
  lemma RasterAssembly(src: string, alt: string, lazy: bool, sizesText: string, d: Dims, srcsetText: string)
    ensures var dimmed := Head(src, alt, lazy) + [Attr("sizes", Str(sizesText))] + [Attr("width", Int(d.width)), Attr("height", Int(d.height))];
      (if Truthy(srcsetText) then Set(dimmed, "srcset", Str(srcsetText)) else dimmed) ==
        Head(src, alt, lazy) + RasterTail(sizesText, d, srcsetText)
  {
    var head := Head(src, alt, lazy);
    var sizing, wAttr, hAttr := Attr("sizes", Str(sizesText)), Attr("width", Int(d.width)), Attr("height", Int(d.height));
    var dimmed := head + [sizing] + [wAttr, hAttr];
    DimmedNames(src, alt, lazy, sizesText, d);
    SetNewKey(dimmed, "srcset", Str(srcsetText));
    assert dimmed == head + [sizing, wAttr, hAttr];
  }

  /** What the head holds under each name. */
  function HeadGet(src: string, alt: string, lazy: bool, k: string): (r: Option<Value>)
    ensures r.Some? <==> k == "src" || k == "alt" || (k == "loading" && lazy)
    ensures r.Some? ==> r.value.Str?
  {
    if k == "src" then Some(Str(src)) else if k == "alt" then Some(Str(alt))
    else if k == "loading" && lazy then Some(Str("lazy")) else None
  }

  lemma GetHead(src: string, alt: string, lazy: bool, k: string)
    ensures Get(Head(src, alt, lazy), k) == HeadGet(src, alt, lazy, k)
  {
    var h := Head(src, alt, lazy);
    var t := h[1..][1..];
    assert h[0] == Attr("src", Str(src)) && h[1..][0] == Attr("alt", Str(alt));
    assert Get(h, k) == if k == "src" then Some(Str(src)) else Get(h[1..], k);
    assert Get(h[1..], k) == if k == "alt" then Some(Str(alt)) else Get(t, k);
    if lazy {
      assert t == [Attr("loading", Str("lazy"))];
      assert Get(t, k) == if k == "loading" then Some(Str("lazy")) else Get(t[1..], k);
      assert t[1..] == [];
    } else {
      assert t == [];
    }
  }

  lemma GetOfThree(a: AttrMap, b: AttrMap, c: AttrMap, k: string)
    ensures Get(a + b + c, k) ==
      if Get(a, k).Some? then Get(a, k) else if Get(b, k).Some? then Get(b, k) else Get(c, k)
  {
    GetAppend(a + b, c, k);
    GetAppend(a, b, k);
  }

  /** The attribute lookups of an SVG image's map. */
  lemma SvgMapGets(src: string, alt: string, lazy: bool, k: string)
    ensures Get(Head(src, alt, lazy) + [Attr("data-is_svg", Int(1))], k) ==
      if k == "data-is_svg" then Some(Int(1)) else HeadGet(src, alt, lazy, k)
  {
    GetAppend(Head(src, alt, lazy), [Attr("data-is_svg", Int(1))], k);
    GetHead(src, alt, lazy, k);
    assert [Attr("data-is_svg", Int(1))][1..] == [];
  }

  /** A successfully made SVG image holds src, alt, the lazy marker exactly
      when asked for and `data-is_svg` = 1, and no sizes, width, height or
      srcset. */
  lemma SvgImgAttrs(env: Env, src: string, alt: string, width: Option<int>, height: Option<int>,
                    srcset: seq<Item>, sizes: seq<ValidSize>, lazy: bool)
    requires Truthy(src) && IsSvgByAttachmentUrl(env, src)
    ensures var m := ImgAttrs(env, src, alt, width, height, srcset, sizes, lazy).value;
      Get(m, "src") == Some(Str(src)) && Get(m, "alt") == Some(Str(alt)) &&
      (Get(m, "loading") == Some(Str("lazy")) <==> lazy) &&
      Get(m, "data-is_svg") == Some(Int(1)) &&
      Get(m, "sizes").None? && Get(m, "width").None? && Get(m, "height").None? && Get(m, "srcset").None?
  {
    ImgAttrsOfSvg(env, src, alt, width, height, srcset, sizes, lazy);
    SvgMapGets(src, alt, lazy, "src");
    SvgMapGets(src, alt, lazy, "alt");
    SvgMapGets(src, alt, lazy, "loading");
    SvgMapGets(src, alt, lazy, "data-is_svg");
    SvgMapGets(src, alt, lazy, "sizes");
    SvgMapGets(src, alt, lazy, "width");
    SvgMapGets(src, alt, lazy, "height");
    SvgMapGets(src, alt, lazy, "srcset");
  }

  /** The attribute lookups of a raster image's map. */
  lemma RasterMapGets(src: string, alt: string, lazy: bool, sizesText: string, d: Dims, srcsetText: string, k: string)
    ensures Get(Head(src, alt, lazy) + RasterTail(sizesText, d, srcsetText), k) ==
      if k == "src" || k == "alt" || k == "loading" then HeadGet(src, alt, lazy, k)
      else if k == "sizes" then Some(Str(sizesText))
      else if k == "width" then Some(Int(d.width))
      else if k == "height" then Some(Int(d.height))
      else if k == "srcset" && Truthy(srcsetText) then Some(Str(srcsetText))
      else None
  {
    var t := RasterTail(sizesText, d, srcsetText);
    GetAppend(Head(src, alt, lazy), t, k);
    GetHead(src, alt, lazy, k);
    var u := t[1..][1..][1..];
    assert Get(t, k) == if k == "sizes" then Some(Str(sizesText)) else Get(t[1..], k);
    assert Get(t[1..], k) == if k == "width" then Some(Int(d.width)) else Get(t[1..][1..], k);
    assert Get(t[1..][1..], k) == if k == "height" then Some(Int(d.height)) else Get(u, k);
    if Truthy(srcsetText) {
      assert u == [Attr("srcset", Str(srcsetText))];
      assert Get(u, k) == if k == "srcset" then Some(Str(srcsetText)) else Get(u[1..], k);
      assert u[1..] == [];
    } else {
      assert u == [];
    }
  }

  /** A successfully made raster image holds src, alt, the lazy marker
      exactly when asked for, the sizes text, the resolved non-zero width and
      height, the srcset text exactly when there are candidates, and no
      SVG marker. */
  lemma RasterImgAttrs(env: Env, src: string, alt: string, width: Option<int>, height: Option<int>,
                       srcset: seq<Item>, sizes: seq<ValidSize>, lazy: bool)
    requires ImgAttrs(env, src, alt, width, height, srcset, sizes, lazy).Success?
    requires !IsSvgByAttachmentUrl(env, src)
    ensures ResolveDims(env, src, width, height).Success?
    ensures var m := ImgAttrs(env, src, alt, width, height, srcset, sizes, lazy).value;
      var d := ResolveDims(env, src, width, height).value;
      Get(m, "src") == Some(Str(src)) && Get(m, "alt") == Some(Str(alt)) &&
      (Get(m, "loading") == Some(Str("lazy")) <==> lazy) &&
      Get(m, "sizes") == Some(Str(SizesText(sizes))) &&
      Get(m, "width") == Some(Int(d.width)) && Get(m, "height") == Some(Int(d.height)) &&
      Get(m, "srcset") == (if srcset != [] then Some(Str(ImgSrcsetText(srcset))) else None) &&
      Get(m, "data-is_svg").None?
  {
    assert ResolveDims(env, src, width, height).Success?;
    ImgAttrsOfRaster(env, src, alt, width, height, srcset, sizes, lazy);
    CandidateListIsJoin(srcset);
    var d := ResolveDims(env, src, width, height).value;
    var st := ImgSrcsetText(srcset);
    var sz := SizesText(sizes);
    assert ImgAttrs(env, src, alt, width, height, srcset, sizes, lazy).value == Head(src, alt, lazy) + RasterTail(sz, d, st);
    RasterMapGets(src, alt, lazy, sz, d, st, "src");
    RasterMapGets(src, alt, lazy, sz, d, st, "alt");
    RasterMapGets(src, alt, lazy, sz, d, st, "loading");
    RasterMapGets(src, alt, lazy, sz, d, st, "data-is_svg");
    RasterMapGets(src, alt, lazy, sz, d, st, "sizes");
    RasterMapGets(src, alt, lazy, sz, d, st, "width");
    RasterMapGets(src, alt, lazy, sz, d, st, "height");
    RasterMapGets(src, alt, lazy, sz, d, st, "srcset");
  }

  // ------------------------------------------------- render as written

  /** `render()` as Img.php has it: a null-valued attribute comes out as its
      name followed by a stray quote. */
  function HtmlAsWritten(attrs: AttrMap): (r: string)
    ensures NoNulls(attrs) ==> r == Tag("img", attrs, ImgSkip, Bare)
  {
    ContentWithoutNulls(attrs, ImgSkip);
    Tag("img", attrs, ImgSkip, StrayQuote)
  }

  /** A valueless attribute the renders do not skip adds its piece to the content. */
  lemma NullAttributeContent(m: AttrMap, name: string, style: NullStyle)
    requires name !in ImgSkip
    ensures Content(m + [Attr(name, Null)], ImgSkip, style) == Content(m, ImgSkip, style) + Piece(Attr(name, Null), style)
  {
    assert (m + [Attr(name, Null)])[..|m + [Attr(name, Null)]| - 1] == m;
  }

  /** A valueless attribute at the end of the list: as written the rendered
      text ends in its name and a stray quote, where its bare name is meant. */
  lemma NullAttributeAsWritten(m: AttrMap, name: string)
    requires name != "" && name !in ImgSkip
    ensures AttributeText(m + [Attr(name, Null)], ImgSkip, StrayQuote) == Content(m, ImgSkip, StrayQuote) + name + "\""
  {
    NullAttributeContent(m, name, StrayQuote);
    var c := Content(m, ImgSkip, StrayQuote);
    var t := c + name + "\"";
    assert Piece(Attr(name, Null), StrayQuote) == name + "\" ";
    assert c + (name + "\" ") == t + " ";
    RTrimOneSpace(t);
  }

  /** Corrected, the same attribute ends the text with its bare name. */
  lemma NullAttributeCorrected(m: AttrMap, name: string)
    requires name != "" && name !in ImgSkip && name[|name| - 1] !in Whitespace
    ensures AttributeText(m + [Attr(name, Null)], ImgSkip, Bare) == Content(m, ImgSkip, Bare) + name
  {
    NullAttributeContent(m, name, Bare);
    var c := Content(m, ImgSkip, Bare);
    var u := c + name;
    assert u[|u| - 1] == name[|name| - 1];
    assert Piece(Attr(name, Null), Bare) == name + " ";
    assert c + (name + " ") == u + " ";
    RTrimOneSpace(u);
  }

  /** The smallest case: an image whose only attribute is `hidden` renders
      as `<img hidden">` as written, and as `<img hidden>` corrected. */
  lemma HiddenAsWritten()
    ensures HtmlAsWritten([Attr("hidden", Null)]) == "<img hidden\">"
  {
    NullAttributeAsWritten([], "hidden");
    assert [] + [Attr("hidden", Null)] == [Attr("hidden", Null)];
    assert AttributeText([Attr("hidden", Null)], ImgSkip, StrayQuote) == "hidden\"";
  }

  lemma HiddenCorrected()
    ensures Tag("img", [Attr("hidden", Null)], ImgSkip, Bare) == "<img hidden>"
  {
    var name := "hidden";
    assert name[|name| - 1] == 'n';
    assert 'n' !in Whitespace;
    NullAttributeCorrected([], name);
    assert [] + [Attr(name, Null)] == [Attr(name, Null)];
    assert Content([], ImgSkip, Bare) == "";
    assert "<img " + name + ">" == "<img hidden>";
  }
}
