/** `ImgUtils::img` and `ImgUtils::picture`: the builders that turn an
    original image URL and a `media query => width` list into an `<img>`
    or a `<picture>` tag, resizing the original once per width (twice with
    2x pixel ratio) through one shared Resizer. */
module Builders {
  import opened Php
  import opened Markup
  import opened Resizers
  import opened ImgUtils
  import Sizes
  import opened SrcsetItems
  import Sources
  import Imgs
  import Pictures

  /** A key of the `$mqWithWidth` array: PHP keeps integer keys and
      non-numeric string keys apart. */
  datatype Key = IntKey(i: int) | StrKey(s: string)

  /** One `media query => width` entry, the width already cast to int. */
  datatype Entry = Entry(key: Key, width: int)

  /** The media query of an entry: its key when that is a non-empty string,
      otherwise none. */
  function MediaOf(k: Key): (r: string)
    ensures k.IntKey? ==> r == ""
    ensures r == "" || (Truthy(r) && k == StrKey(r))
    ensures k.StrKey? && Truthy(k.s) ==> r == k.s
  {
    if k.StrKey? && Truthy(k.s) then k.s else ""
  }

  /** `if ($aspectRatio)`: null and zero are false. */
  predicate AspectTruthy(aspect: Option<real>) {
    aspect.Some? && aspect.value != 0.0
  }

  /** The height the builders give the Resizer for a width, when there is an
      aspect ratio: `round($width / $aspectRatio)`. */
  function HeightFor(width: int, aspect: Option<real>): (r: Option<int>)
    ensures r.Some? <==> AspectTruthy(aspect)
    ensures r.Some? ==> width as real / aspect.value - 0.5 <= r.value as real <= width as real / aspect.value + 0.5
  {
    if AspectTruthy(aspect) then Some(Round(width as real / aspect.value)) else None
  }

  /** The Resizer state in which the builders resize for `width`: it was made
      from the origin URL with crop and upscale on, and its height was set
      only when there is an aspect ratio. */
  function EntryRequest(origin: string, width: int, aspect: Option<real>): Request {
    Request(Some(origin), Some(width), HeightFor(width, aspect), true, true)
  }

  /** `catch (\Exception $ex)`: an exception ends the builder with "", any
      other Error passes through. */
  function Caught(e: Error): (r: Result<string, Error>)
    ensures r.Success? <==> IsException(e)
    ensures r.Success? ==> r.value == ""
    ensures r.Failure? ==> r.error == e
  {
    if IsException(e) then Success("") else Failure(e)
  }

  /** The width descriptor an `<img>` candidate gets: `"{$w}w"`. */
  function WidthDescriptor(w: int): string {
    IntToString(w) + "w"
  }

  /** The slot width of a `sizes` entry: `"{$w}px"`. */
  function SlotOf(w: int): string {
    IntToString(w) + "px"
  }

  lemma SlotIsTruthy(w: int)
    ensures Truthy(SlotOf(w))
  {
    assert |SlotOf(w)| >= 3;
  }

  // ------------------------------------------------------------------- img

  /** What the img loop has gathered so far. */
  datatype ImgLists = ImgLists(sizes: seq<Sizes.ValidSize>, srcset: seq<Item>)

  /** One pass of the img loop: a `sizes` entry, then the candidate of the
      width and, with 2x pixel ratio, the candidate of twice the width. */
  function ImgEntry(env: Env, origin: string, e: Entry, ratio2x: bool, aspect: Option<real>, lazy: bool)
    : (r: Result<ImgLists, Error>)
    ensures var first := WithResize(env, EntryRequest(origin, e.width, aspect), WidthDescriptor(e.width), lazy);
      var second := WithResize(env, EntryRequest(origin, e.width * 2, aspect), WidthDescriptor(e.width * 2), lazy);
      (r.Success? <==> first.Success? && (ratio2x ==> second.Success?)) &&
      (r.Failure? ==> r.error == if first.Failure? then first.error else second.error) &&
      (r.Success? ==>
        r.value.sizes == [Sizes.Size(MediaOf(e.key), SlotOf(e.width))] &&
        r.value.srcset == [first.value] + (if ratio2x then [second.value] else []))
  {
    SlotIsTruthy(e.width);
    match Sizes.Make(MediaOf(e.key), SlotOf(e.width))
    case Failure(err) => Failure(err)
    case Success(size) =>
      match WithResize(env, EntryRequest(origin, e.width, aspect), WidthDescriptor(e.width), lazy)
      case Failure(err) => Failure(err)
      case Success(first) =>
        if !ratio2x then Success(ImgLists([size], [first]))
        else match WithResize(env, EntryRequest(origin, e.width * 2, aspect), WidthDescriptor(e.width * 2), lazy)
          case Failure(err) => Failure(err)
          case Success(second) => Success(ImgLists([size], [first, second]))
  }

  /** The img loop over the entries, where `pass` is one pass: the lists of
      all passes, until the first failing one. */
  function ImgGathered(pass: Entry -> Result<ImgLists, Error>, mq: seq<Entry>): Result<ImgLists, Error> {
    if mq == [] then Success(ImgLists([], []))
    else match ImgGathered(pass, mq[..|mq| - 1])
      case Failure(err) => Failure(err)
      case Success(acc) =>
        match pass(mq[|mq| - 1])
        case Failure(err) => Failure(err)
        case Success(p) => Success(ImgLists(acc.sizes + p.sizes, acc.srcset + p.srcset))
  }

  /** One pass of the img loop, as a function of the entry. */
  function ImgPass(env: Env, origin: string, ratio2x: bool, aspect: Option<real>, lazy: bool)
    : Entry -> Result<ImgLists, Error>
  {
    e => ImgEntry(env, origin, e, ratio2x, aspect, lazy)
  }

  /** `pass` gives what one pass of the img loop gives, entry by entry. */
  ghost predicate IsImgPass(pass: Entry -> Result<ImgLists, Error>, env: Env, origin: string, ratio2x: bool,
                            aspect: Option<real>, lazy: bool)
  {
    forall e {:trigger ImgEntry(env, origin, e, ratio2x, aspect, lazy)} :: pass(e) == ImgEntry(env, origin, e, ratio2x, aspect, lazy)
  }

  /** The img loop over the entries: the first failing item ends it. */
  function ImgParts(env: Env, origin: string, mq: seq<Entry>, ratio2x: bool, aspect: Option<real>, lazy: bool)
    : Result<ImgLists, Error>
  {
    ImgGathered(ImgPass(env, origin, ratio2x, aspect, lazy), mq)
  }

  /** The `setAttr` loop of `img()`. */
  function ApplyImgAttrs(m: AttrMap, attrs: seq<Attr>): (r: AttrMap)
    ensures forall k :: k in Protected ==> Get(r, k) == Get(m, k)
    ensures forall k :: !Mentions(attrs, k) ==> Get(r, k) == Get(m, k)
    ensures attrs != [] && Lower(attrs[|attrs| - 1].name) !in Protected ==>
      Get(r, Lower(attrs[|attrs| - 1].name)) == Some(attrs[|attrs| - 1].value)
    ensures forall i :: Final(attrs, i) && Lower(attrs[i].name) !in Protected ==>
      Get(r, Lower(attrs[i].name)) == Some(attrs[i].value)
  {
    if attrs == [] then m
    else
      var init := attrs[..|attrs| - 1];
      var last := attrs[|attrs| - 1];
      var prev := ApplyImgAttrs(m, init);
      SetUnprotectedEffect(prev, last.name, last.value);
      MentionsSnoc(init, last);
      FinalSnoc(init, last);
      assert attrs == init + [last];
      SetUnprotected(prev, last.name, last.value)
  }

  /** The attribute at `i` is the last one of `attrs` with its lowered name,
      so no later `setAttr` overwrites it. */
  predicate Final(attrs: seq<Attr>, i: int) {
    0 <= i < |attrs| && forall j :: i < j < |attrs| ==> Lower(attrs[j].name) != Lower(attrs[i].name)
  }

  lemma FinalSnoc(init: seq<Attr>, last: Attr)
    ensures Final(init + [last], |init|)
    ensures forall i :: 0 <= i < |init| && Final(init + [last], i) ==>
      Final(init, i) && (init + [last])[i] == init[i] && Lower(last.name) != Lower(init[i].name)
  {
    var attrs := init + [last];
    forall i | 0 <= i < |init| && Final(attrs, i)
      ensures Final(init, i) && Lower(last.name) != Lower(init[i].name)
    {
      assert attrs[|init|] == last;
      forall j | i < j < |init| ensures Lower(init[j].name) != Lower(init[i].name) {
        assert attrs[j] == init[j];
      }
    }
  }

  /** Some attribute of `attrs` has the name `k` once lowered. */
  predicate Mentions(attrs: seq<Attr>, k: string) {
    exists i :: 0 <= i < |attrs| && Lower(attrs[i].name) == k
  }

  lemma MentionsSnoc(init: seq<Attr>, last: Attr)
    ensures forall k :: Mentions(init + [last], k) <==> Mentions(init, k) || Lower(last.name) == k
  {
    var attrs := init + [last];
    forall k | Mentions(init, k) ensures Mentions(attrs, k) {
      var i :| 0 <= i < |init| && Lower(init[i].name) == k;
      assert attrs[i] == init[i];
    }
    forall k | Lower(last.name) == k ensures Mentions(attrs, k) {
      assert attrs[|init|] == last;
    }
    forall k | Mentions(attrs, k) ensures Mentions(init, k) || Lower(last.name) == k {
      var i :| 0 <= i < |attrs| && Lower(attrs[i].name) == k;
      if i < |init| { assert attrs[i] == init[i]; }
    }
  }

  /** What `img()` returns, or the Error that escapes it. */
  function ImgOutput(env: Env, origin: string, mq: seq<Entry>, ratio2x: bool, aspect: Option<real>,
                     alt: string, lazy: bool, attrs: seq<Attr>): (r: Result<string, Error>)
    ensures r.Failure? ==> !IsException(r.error)
  {
    match ImgParts(env, origin, mq, ratio2x, aspect, lazy)
    case Failure(e) => Caught(e)
    case Success(p) =>
      match Imgs.ImgAttrs(env, origin, alt, None, None, p.srcset, p.sizes, lazy)
      case Failure(e) => Caught(e)
      case Success(m) => Success(Tag("img", ApplyImgAttrs(m, attrs), ImgSkip, Bare))
  }

  /** How the builders leave the shared Resizer between entries: the origin
      URL, crop and upscale as made, and no height unless there is an
      aspect ratio. */
  predicate Ready(resizer: Resizer, originUrl: string, aspectRatio: Option<real>)
    reads resizer
  {
    resizer.originUrl == Some(originUrl) && resizer.crop && resizer.upscale &&
    (!AspectTruthy(aspectRatio) ==> resizer.height.None?)
  }

  /** Sets the Resizer up for `w` and makes the candidate with `descriptor`. */
  method ResizedItem(env: Env, resizer: Resizer, originUrl: string, w: int, aspectRatio: Option<real>,
                     descriptor: string, lazy: bool)
    returns (r: Result<Item, Error>)
    requires Ready(resizer, originUrl, aspectRatio)
    modifies resizer
    ensures Ready(resizer, originUrl, aspectRatio)
    ensures r == WithResize(env, EntryRequest(originUrl, w, aspectRatio), descriptor, lazy)
  {
    var self := resizer.SetWidth(Some(w));
    if AspectTruthy(aspectRatio) {
      self := resizer.SetHeight(HeightFor(w, aspectRatio));
    }
    r := MakeWithResize(env, resizer, descriptor, lazy);
  }

  /** One pass of the img loop. */
  method ImgStep(env: Env, resizer: Resizer, originUrl: string, entry: Entry, pixelRatio2x: bool,
                 aspectRatio: Option<real>, lazy: bool)
    returns (r: Result<ImgLists, Error>)
    requires Ready(resizer, originUrl, aspectRatio)
    modifies resizer
    ensures Ready(resizer, originUrl, aspectRatio)
    ensures r == ImgEntry(env, originUrl, entry, pixelRatio2x, aspectRatio, lazy)
  {
    var w := entry.width;
    SlotIsTruthy(w);
    var size := Sizes.Make(MediaOf(entry.key), SlotOf(w));
    var first := ResizedItem(env, resizer, originUrl, w, aspectRatio, WidthDescriptor(w), lazy);
    if first.Failure? {
      return Failure(first.error);
    }
    if !pixelRatio2x {
      return Success(ImgLists([size.value], [first.value]));
    }
    var second := ResizedItem(env, resizer, originUrl, w * 2, aspectRatio, WidthDescriptor(w * 2), lazy);
    if second.Failure? {
      return Failure(second.error);
    }
    r := Success(ImgLists([size.value], [first.value, second.value]));
  }

  /** One pass of the img loop, after `n` passes that gathered `acc`;
      `pass` gives each pass's outcome. */
  method NextImgLists(env: Env, resizer: Resizer, originUrl: string, mqWithWidth: seq<Entry>, pixelRatio2x: bool,
                      aspectRatio: Option<real>, lazy: bool, ghost pass: Entry -> Result<ImgLists, Error>, n: nat,
                      ghost acc: ImgLists)
    returns (r: Result<ImgLists, Error>)
    requires n < |mqWithWidth| && Ready(resizer, originUrl, aspectRatio)
    requires IsImgPass(pass, env, originUrl, pixelRatio2x, aspectRatio, lazy)
    requires ImgGathered(pass, mqWithWidth[..n]) == Success(acc)
    modifies resizer
    ensures Ready(resizer, originUrl, aspectRatio)
    ensures r.Failure? ==> ImgGathered(pass, mqWithWidth) == Failure(r.error)
    ensures r.Success? ==>
              ImgGathered(pass, mqWithWidth[..n + 1]) == Success(ImgLists(acc.sizes + r.value.sizes, acc.srcset + r.value.srcset))
  {
    r := ImgStep(env, resizer, originUrl, mqWithWidth[n], pixelRatio2x, aspectRatio, lazy);
    assert pass(mqWithWidth[n]) == ImgEntry(env, originUrl, mqWithWidth[n], pixelRatio2x, aspectRatio, lazy);
    ImgGatheredStep(pass, mqWithWidth, n);
    if r.Failure? {
      ImgGatheredFailurePersists(pass, mqWithWidth, n + 1);
    }
  }

  /** The `foreach ($mqWithWidth ...)` loop of `img()`, on the Resizer made
      from the origin URL. */
  method GatherImgParts(env: Env, resizer: Resizer, originUrl: string, mqWithWidth: seq<Entry>, pixelRatio2x: bool,
                        aspectRatio: Option<real>, lazy: bool, ghost pass: Entry -> Result<ImgLists, Error>)
    returns (r: Result<ImgLists, Error>)
    requires Ready(resizer, originUrl, aspectRatio)
    requires IsImgPass(pass, env, originUrl, pixelRatio2x, aspectRatio, lazy)
    modifies resizer
    ensures r == ImgGathered(pass, mqWithWidth)
  {
    var sizes: seq<Sizes.ValidSize> := [];
    var srcset: seq<Item> := [];
    var i := 0;
    while i < |mqWithWidth|
      invariant 0 <= i <= |mqWithWidth|
      invariant Ready(resizer, originUrl, aspectRatio)
      invariant ImgGathered(pass, mqWithWidth[..i]) == Success(ImgLists(sizes, srcset))
    {
      var step := NextImgLists(env, resizer, originUrl, mqWithWidth, pixelRatio2x, aspectRatio, lazy, pass, i,
                               ImgLists(sizes, srcset));
      if step.Failure? {
        return Failure(step.error);
      }
      sizes := sizes + step.value.sizes;
      srcset := srcset + step.value.srcset;
      i := i + 1;
    }
    assert mqWithWidth[..|mqWithWidth|] == mqWithWidth;
    r := Success(ImgLists(sizes, srcset));
  }

  /** The `setAttr` loop of `img()`. */
  method SetImgAttrs(img: Imgs.Img, attrs: seq<Attr>)
    modifies img
    ensures img.attrs == ApplyImgAttrs(old(img.attrs), attrs)
  {
    var j := 0;
    while j < |attrs|
      invariant 0 <= j <= |attrs|
      invariant img.attrs == ApplyImgAttrs(old(img.attrs), attrs[..j])
    {
      var self := img.SetAttr(attrs[j].name, attrs[j].value);
      assert attrs[..j + 1][..j] == attrs[..j];
      j := j + 1;
    }
    assert attrs[..|attrs|] == attrs;
  }

  /** `ImgUtils::img`. */
  method Img(env: Env, originUrl: string, mqWithWidth: seq<Entry> := [], pixelRatio2x: bool := false,
             aspectRatio: Option<real> := None, imgAlt: string := "", lazy: bool := false, attrs: seq<Attr> := [])
    returns (r: Result<string, Error>)
    ensures r == ImgOutput(env, originUrl, mqWithWidth, pixelRatio2x, aspectRatio, imgAlt, lazy, attrs)
  {
    var resizer := Resizer.MakeWithUrl(originUrl);
    ghost var pass := ImgPass(env, originUrl, pixelRatio2x, aspectRatio, lazy);
    assert IsImgPass(pass, env, originUrl, pixelRatio2x, aspectRatio, lazy);
    var parts := GatherImgParts(env, resizer, originUrl, mqWithWidth, pixelRatio2x, aspectRatio, lazy, pass);
    if parts.Failure? {
      return Caught(parts.error);
    }
    var srcset, sizes := parts.value.srcset, parts.value.sizes;
    var made := Imgs.Img.Make(env, originUrl, imgAlt, None, None, srcset, sizes, lazy);
    if made.Failure? {
      return Caught(made.error);
    }
    SetImgAttrs(made.value, attrs);
    var html := made.value.Render();
    r := Success(html);
  }

  /** One more entry extends the loop's lists, or ends it with the entry's failure. */
  lemma ImgGatheredStep(pass: Entry -> Result<ImgLists, Error>, mq: seq<Entry>, n: nat)
    requires n < |mq| && ImgGathered(pass, mq[..n]).Success?
    ensures var acc := ImgGathered(pass, mq[..n]).value;
      var e := pass(mq[n]);
      ImgGathered(pass, mq[..n + 1]) ==
        if e.Failure? then Failure(e.error) else Success(ImgLists(acc.sizes + e.value.sizes, acc.srcset + e.value.srcset))
  {
    assert mq[..n + 1][..n] == mq[..n];
  }

  /** Once a prefix of the entries fails, the whole loop fails the same way. */
  lemma {:induction false} ImgGatheredFailurePersists(pass: Entry -> Result<ImgLists, Error>, mq: seq<Entry>, n: nat)
    requires n <= |mq| && ImgGathered(pass, mq[..n]).Failure?
    ensures ImgGathered(pass, mq) == ImgGathered(pass, mq[..n])
    decreases |mq|
  {
    if n == |mq| {
      assert mq[..n] == mq;
    } else {
      var init := mq[..|mq| - 1];
      assert init[..n] == mq[..n];
      ImgGatheredFailurePersists(pass, init, n);
    }
  }

  // --------------------------------------------------------------- picture

  /** The candidates of one `<source>`: "1x" for the width and, with 2x
      pixel ratio, "2x" for twice the width. */
  function PictureEntry(env: Env, origin: string, e: Entry, ratio2x: bool, aspect: Option<real>, lazy: bool)
    : (r: Result<seq<Item>, Error>)
    ensures var first := WithResize(env, EntryRequest(origin, e.width, aspect), "1x", lazy);
      var second := WithResize(env, EntryRequest(origin, e.width * 2, aspect), "2x", lazy);
      (r.Success? <==> first.Success? && (ratio2x ==> second.Success?)) &&
      (r.Failure? ==> r.error == if first.Failure? then first.error else second.error) &&
      (r.Success? ==> r.value == [first.value] + (if ratio2x then [second.value] else []))
    ensures r.Success? ==>
      |r.value| == (if ratio2x then 2 else 1) && r.value[0].descriptor == "1x" && (ratio2x ==> r.value[1].descriptor == "2x")
  {
    match WithResize(env, EntryRequest(origin, e.width, aspect), "1x", lazy)
    case Failure(err) => Failure(err)
    case Success(first) =>
      if !ratio2x then Success([first])
      else match WithResize(env, EntryRequest(origin, e.width * 2, aspect), "2x", lazy)
        case Failure(err) => Failure(err)
        case Success(second) => Success([first, second])
  }

  /** `Source::make($srcset, [], $mediaQuery)` for one entry's candidates. */
  function SourceFrom(srcset: seq<Item>, key: Key): Result<AttrMap, Error> {
    if srcset == [] then Failure(InvalidArgument(Sources.EmptySrcsetMessage))
    else Success(Sources.InitialAttrs(srcset, [], MediaOf(key), ""))
  }

  /** One pass of the picture loop: the attributes of the entry's source. */
  function SourceOf(env: Env, origin: string, e: Entry, ratio2x: bool, aspect: Option<real>, lazy: bool)
    : Result<AttrMap, Error>
  {
    match PictureEntry(env, origin, e, ratio2x, aspect, lazy)
    case Failure(err) => Failure(err)
    case Success(srcset) => SourceFrom(srcset, e.key)
  }

  /** The picture loop over the entries, where `pass` is one pass: the
      attributes of each source, in order, until the first failure. */
  function Gathered(pass: Entry -> Result<AttrMap, Error>, mq: seq<Entry>): Result<seq<AttrMap>, Error> {
    if mq == [] then Success([])
    else match Gathered(pass, mq[..|mq| - 1])
      case Failure(err) => Failure(err)
      case Success(acc) =>
        match pass(mq[|mq| - 1])
        case Failure(err) => Failure(err)
        case Success(m) => Success(acc + [m])
  }

  /** One pass of the picture loop, as a function of the entry. */
  function SourcePass(env: Env, origin: string, ratio2x: bool, aspect: Option<real>, lazy: bool)
    : Entry -> Result<AttrMap, Error>
  {
    e => SourceOf(env, origin, e, ratio2x, aspect, lazy)
  }

  /** `pass` gives what one pass of the picture loop gives, entry by entry. */
  ghost predicate IsSourcePass(pass: Entry -> Result<AttrMap, Error>, env: Env, origin: string, ratio2x: bool,
                               aspect: Option<real>, lazy: bool)
  {
    forall e {:trigger SourceOf(env, origin, e, ratio2x, aspect, lazy)} :: pass(e) == SourceOf(env, origin, e, ratio2x, aspect, lazy)
  }

  /** The picture loop over the entries: the attributes of each source, in
      order, until the first failure. */
  function PictureMaps(env: Env, origin: string, mq: seq<Entry>, ratio2x: bool, aspect: Option<real>, lazy: bool)
    : Result<seq<AttrMap>, Error>
  {
    Gathered(SourcePass(env, origin, ratio2x, aspect, lazy), mq)
  }

  /** The `<source>` tags of sources with these attributes: the list `Pictures.SourceTags`
      renders from the objects, on their attribute maps (see `SourceTagsMatch`). */
  function SourceTagsOf(maps: seq<AttrMap>): seq<string> {
    if maps == [] then [] else SourceTagsOf(maps[..|maps| - 1]) + [Tag("source", maps[|maps| - 1], SourceSkip, Bare)]
  }

  /** The `setPictureAttr` loop of `picture()`. */
  function ApplyPictureAttrs(m: AttrMap, attrs: seq<Attr>): (r: AttrMap)
    ensures forall k :: !Mentions(attrs, k) ==> Get(r, k) == Get(m, k)
    ensures attrs != [] ==> Get(r, Lower(attrs[|attrs| - 1].name)) == Some(attrs[|attrs| - 1].value)
    ensures forall i :: Final(attrs, i) ==> Get(r, Lower(attrs[i].name)) == Some(attrs[i].value)
  {
    if attrs == [] then m
    else
      var init := attrs[..|attrs| - 1];
      var last := attrs[|attrs| - 1];
      var prev := ApplyPictureAttrs(m, init);
      forall j {
        GetAfterSet(prev, Lower(last.name), last.value, j);
      }
      MentionsSnoc(init, last);
      FinalSnoc(init, last);
      assert attrs == init + [last];
      SetLowered(prev, last.name, last.value)
  }

  /** What `picture()` returns, or the Error that escapes it. An SVG origin
      keeps none of its sources. */
  function PictureOutput(env: Env, origin: string, mq: seq<Entry>, ratio2x: bool, aspect: Option<real>,
                         alt: string, lazy: bool, attrs: seq<Attr>): (r: Result<string, Error>)
    ensures r.Failure? ==> !IsException(r.error)
  {
    match PictureMaps(env, origin, mq, ratio2x, aspect, lazy)
    case Failure(e) => Caught(e)
    case Success(maps) => PictureOfSources(env, origin, alt, lazy, attrs, maps)
  }

  /** What `picture()` returns once the loop has made sources with the
      attributes `maps`. */
  function PictureOfSources(env: Env, origin: string, alt: string, lazy: bool, attrs: seq<Attr>, maps: seq<AttrMap>)
    : (r: Result<string, Error>)
    ensures r.Failure? ==> !IsException(r.error)
  {
    match Pictures.PictureImgAttrs(env, origin, alt, None, None, lazy)
    case Failure(e) => Caught(e)
    case Success(m) =>
      var kept := if IsSvgByAttachmentUrl(env, origin) then [] else maps;
      Success(PictureHtml(ApplyPictureAttrs([], attrs), SourceTagsOf(kept), m))
  }

  /** The markup of a `<picture>` with these attributes, source tags and `<img>` attributes. */
  function PictureHtml(pictureAttrs: AttrMap, tags: seq<string>, imgAttrs: AttrMap): string {
    Pictures.Layout(Tag("picture", pictureAttrs, PictureSkip, Bare), Pictures.SourcesBlock(tags),
                    Tag("img", imgAttrs, ImgSkip, Bare))
  }

  /** The candidates one pass of the picture loop resizes. */
  method PictureItems(env: Env, resizer: Resizer, originUrl: string, entry: Entry, pixelRatio2x: bool,
                      aspectRatio: Option<real>, lazy: bool)
    returns (r: Result<seq<Item>, Error>)
    requires Ready(resizer, originUrl, aspectRatio)
    modifies resizer
    ensures Ready(resizer, originUrl, aspectRatio)
    ensures r == PictureEntry(env, originUrl, entry, pixelRatio2x, aspectRatio, lazy)
  {
    var w := entry.width;
    var first := ResizedItem(env, resizer, originUrl, w, aspectRatio, "1x", lazy);
    if first.Failure? {
      return Failure(first.error);
    }
    if !pixelRatio2x {
      return Success([first.value]);
    }
    var second := ResizedItem(env, resizer, originUrl, w * 2, aspectRatio, "2x", lazy);
    if second.Failure? {
      return Failure(second.error);
    }
    r := Success([first.value, second.value]);
  }

  /** The `Source::make` of one pass of the picture loop. */
  method SourceStep(srcset: seq<Item>, key: Key) returns (r: Result<Sources.Source, Error>)
    ensures (r.Success? <==> SourceFrom(srcset, key).Success?) && (r.Failure? ==> r.error == SourceFrom(srcset, key).error)
    ensures r.Success? ==> fresh(r.value) && r.value.attrs == SourceFrom(srcset, key).value
  {
    r := Sources.Source.Make(srcset, [], MediaOf(key));
  }

  /** One pass of the picture loop, after `n` passes whose sources have the
      attributes `acc`; `pass` gives each pass's outcome. */
  method NextSource(env: Env, resizer: Resizer, originUrl: string, mqWithWidth: seq<Entry>, pixelRatio2x: bool,
                    aspectRatio: Option<real>, lazy: bool, ghost pass: Entry -> Result<AttrMap, Error>, n: nat,
                    ghost acc: seq<AttrMap>)
    returns (r: Result<Sources.Source, Error>, ghost m: AttrMap)
    requires n < |mqWithWidth| && Ready(resizer, originUrl, aspectRatio)
    requires IsSourcePass(pass, env, originUrl, pixelRatio2x, aspectRatio, lazy)
    requires Gathered(pass, mqWithWidth[..n]) == Success(acc)
    modifies resizer
    ensures Ready(resizer, originUrl, aspectRatio)
    ensures r.Failure? ==> Gathered(pass, mqWithWidth) == Failure(r.error)
    ensures r.Success? ==> fresh(r.value) && r.value.attrs == m
    ensures r.Success? ==> Gathered(pass, mqWithWidth[..n + 1]) == Success(acc + [m])
  {
    var items := PictureItems(env, resizer, originUrl, mqWithWidth[n], pixelRatio2x, aspectRatio, lazy);
    assert pass(mqWithWidth[n]) == SourceOf(env, originUrl, mqWithWidth[n], pixelRatio2x, aspectRatio, lazy);
    GatheredStep(pass, mqWithWidth, n);
    if items.Failure? {
      GatheredFailurePersists(pass, mqWithWidth, n + 1);
      return Failure(items.error), [];
    }
    r := SourceStep(items.value, mqWithWidth[n].key);
    // Every successful pass has at least one candidate, so the guard of
    // `Source::make` never fires here.
    m := if r.Success? then r.value.attrs else [];
  }

  /** The `foreach ($mqWithWidth ...)` loop of `picture()`: the sources it
      makes, whose attributes are `maps`. */
  method GatherSources(env: Env, resizer: Resizer, originUrl: string, mqWithWidth: seq<Entry>, pixelRatio2x: bool,
                       aspectRatio: Option<real>, lazy: bool, ghost pass: Entry -> Result<AttrMap, Error>)
    returns (r: Result<seq<Sources.Source>, Error>, ghost maps: seq<AttrMap>)
    requires Ready(resizer, originUrl, aspectRatio)
    requires IsSourcePass(pass, env, originUrl, pixelRatio2x, aspectRatio, lazy)
    modifies resizer
    ensures r.Failure? ==> Gathered(pass, mqWithWidth) == Failure(r.error)
    ensures r.Success? ==> Gathered(pass, mqWithWidth) == Success(maps)
    ensures r.Success? ==> |r.value| == |maps| && forall k :: 0 <= k < |maps| ==> r.value[k].attrs == maps[k]
  {
    var sources: seq<Sources.Source> := [];
    maps := [];
    var i := 0;
    while i < |mqWithWidth|
      invariant 0 <= i <= |mqWithWidth|
      invariant Ready(resizer, originUrl, aspectRatio)
      invariant Gathered(pass, mqWithWidth[..i]) == Success(maps)
      invariant |sources| == |maps|
      invariant forall k :: 0 <= k < |sources| ==> sources[k].attrs == maps[k]
    {
      var source, m := NextSource(env, resizer, originUrl, mqWithWidth, pixelRatio2x, aspectRatio, lazy, pass, i, maps);
      if source.Failure? {
        return Failure(source.error), maps;
      }
      sources := sources + [source.value];
      maps := maps + [m];
      i := i + 1;
    }
    assert mqWithWidth[..|mqWithWidth|] == mqWithWidth;
    r := Success(sources);
  }

  /** The `setPictureAttr` loop of `picture()`. */
  method SetPictureAttrs(picture: Pictures.Picture, attrs: seq<Attr>)
    modifies picture
    ensures picture.pictureAttrs == ApplyPictureAttrs(old(picture.pictureAttrs), attrs)
    ensures picture.imgAttrs == old(picture.imgAttrs) && picture.sources == old(picture.sources)
  {
    var j := 0;
    while j < |attrs|
      invariant 0 <= j <= |attrs|
      invariant picture.pictureAttrs == ApplyPictureAttrs(old(picture.pictureAttrs), attrs[..j])
      invariant picture.imgAttrs == old(picture.imgAttrs) && picture.sources == old(picture.sources)
    {
      var self := picture.SetPictureAttr(attrs[j].name, attrs[j].value);
      assert attrs[..j + 1][..j] == attrs[..j];
      j := j + 1;
    }
    assert attrs[..|attrs|] == attrs;
  }

  /** `ImgUtils::picture`. */
  method Picture(env: Env, originUrl: string, mqWithWidth: seq<Entry> := [], pixelRatio2x: bool := false,
                 aspectRatio: Option<real> := None, imgAlt: string := "", lazy: bool := false, attrs: seq<Attr> := [])
    returns (r: Result<string, Error>)
    ensures r == PictureOutput(env, originUrl, mqWithWidth, pixelRatio2x, aspectRatio, imgAlt, lazy, attrs)
  {
    var resizer := Resizer.MakeWithUrl(originUrl);
    ghost var pass := SourcePass(env, originUrl, pixelRatio2x, aspectRatio, lazy);
    assert IsSourcePass(pass, env, originUrl, pixelRatio2x, aspectRatio, lazy);
    var sources, maps := GatherSources(env, resizer, originUrl, mqWithWidth, pixelRatio2x, aspectRatio, lazy, pass);
    if sources.Failure? {
      return Caught(sources.error);
    }
    AttrsOfPointwise(sources.value, maps);
    r := AssemblePicture(env, originUrl, imgAlt, lazy, attrs, sources.value);
  }

  /** `picture()` past its loop: the Picture, its attributes and its markup. */
  method AssemblePicture(env: Env, originUrl: string, imgAlt: string, lazy: bool, attrs: seq<Attr>,
                         sources: seq<Sources.Source>)
    returns (r: Result<string, Error>)
    ensures r == PictureOfSources(env, originUrl, imgAlt, lazy, attrs, AttrsOf(sources))
  {
    var made := Pictures.Picture.Make(env, originUrl, imgAlt, None, None, sources, lazy);
    if made.Failure? {
      return Caught(made.error);
    }
    var html := FinishPicture(made.value, attrs);
    r := Success(html);
  }

  /** The `setPictureAttr` loop and the `render()` that end `picture()`. */
  method FinishPicture(picture: Pictures.Picture, attrs: seq<Attr>) returns (html: string)
    modifies picture
    ensures html == PictureHtml(ApplyPictureAttrs(old(picture.pictureAttrs), attrs),
                                SourceTagsOf(AttrsOf(old(picture.sources))), old(picture.imgAttrs))
  {
    SetPictureAttrs(picture, attrs);
    html := picture.Render();
    HtmlOfPicture(picture);
  }

  /** A Picture's markup in terms of its attributes and its sources' attributes. */
  lemma HtmlOfPicture(picture: Pictures.Picture)
    ensures picture.Html() == PictureHtml(picture.pictureAttrs, SourceTagsOf(AttrsOf(picture.sources)), picture.imgAttrs)
  {
    SourceTagsMatch(picture.sources);
  }

  /** The attributes of each source, in order. */
  function AttrsOf(sources: seq<Sources.Source>): seq<AttrMap>
    reads sources
  {
    if sources == [] then [] else AttrsOf(sources[..|sources| - 1]) + [sources[|sources| - 1].attrs]
  }

  lemma {:induction false} AttrsOfPointwise(sources: seq<Sources.Source>, maps: seq<AttrMap>)
    requires |sources| == |maps| && forall k :: 0 <= k < |sources| ==> sources[k].attrs == maps[k]
    ensures AttrsOf(sources) == maps
  {
    if sources != [] {
      var n := |sources| - 1;
      AttrsOfPointwise(sources[..n], maps[..n]);
      assert maps == maps[..n] + [maps[n]];
    }
  }

  /** The tags of sources are the tags of their attributes. */
  lemma {:induction false} SourceTagsMatch(sources: seq<Sources.Source>)
    ensures Pictures.SourceTags(sources) == SourceTagsOf(AttrsOf(sources))
  {
    if sources != [] {
      var init := sources[..|sources| - 1];
      SourceTagsMatch(init);
      var last := sources[|sources| - 1].attrs;
      assert (AttrsOf(init) + [last])[..|AttrsOf(init)|] == AttrsOf(init);
    }
  }

  lemma GatheredStep(pass: Entry -> Result<AttrMap, Error>, mq: seq<Entry>, n: nat)
    requires n < |mq| && Gathered(pass, mq[..n]).Success?
    ensures var m := pass(mq[n]);
      Gathered(pass, mq[..n + 1]) == if m.Failure? then Failure(m.error) else Success(Gathered(pass, mq[..n]).value + [m.value])
  {
    assert mq[..n + 1][..n] == mq[..n];
  }

  /** Once a prefix of the entries fails, the whole loop fails the same way. */
  lemma {:induction false} GatheredFailurePersists(pass: Entry -> Result<AttrMap, Error>, mq: seq<Entry>, n: nat)
    requires n <= |mq| && Gathered(pass, mq[..n]).Failure?
    ensures Gathered(pass, mq) == Gathered(pass, mq[..n])
    decreases |mq|
  {
    if n == |mq| {
      assert mq[..n] == mq;
    } else {
      var init := mq[..|mq| - 1];
      assert init[..n] == mq[..n];
      GatheredFailurePersists(pass, init, n);
    }
  }

  // ------------------------------------------------------------ properties

  /** One img entry gives one `"{w}px"` slot for its media and the
      candidates `"{w}w"` and, with 2x pixel ratio, `"{2w}w"`. It fails
      exactly when one of its resizes does. */
  lemma ImgEntryShape(env: Env, origin: string, e: Entry, ratio2x: bool, aspect: Option<real>, lazy: bool)
    ensures var r := ImgEntry(env, origin, e, ratio2x, aspect, lazy);
      r.Success? ==>
        r.value.sizes == [Sizes.Size(MediaOf(e.key), SlotOf(e.width))] &&
        |r.value.srcset| == (if ratio2x then 2 else 1) &&
        r.value.srcset[0].descriptor == WidthDescriptor(e.width) &&
        (ratio2x ==> r.value.srcset[1].descriptor == WidthDescriptor(e.width * 2))
    ensures ImgEntry(env, origin, e, ratio2x, aspect, lazy).Failure? <==>
      WithResize(env, EntryRequest(origin, e.width, aspect), WidthDescriptor(e.width), lazy).Failure? ||
      (ratio2x && WithResize(env, EntryRequest(origin, e.width * 2, aspect), WidthDescriptor(e.width * 2), lazy).Failure?)
  {
    SlotIsTruthy(e.width);
  }

  /** The per-entry results of a loop, gathered in order until the first failure. */
  function Collect<T>(rs: seq<Result<T, Error>>): Result<seq<T>, Error> {
    if rs == [] then Success([])
    else match Collect(rs[..|rs| - 1])
      case Failure(e) => Failure(e)
      case Success(acc) =>
        match rs[|rs| - 1]
        case Failure(e) => Failure(e)
        case Success(x) => Success(acc + [x])
  }

  /** Collecting succeeds exactly when every result does, and then keeps
      them all in order; otherwise it ends with the first failure. */
  lemma {:induction false} CollectShape<T>(rs: seq<Result<T, Error>>)
    ensures Collect(rs).Success? <==> forall k :: 0 <= k < |rs| ==> rs[k].Success?
    ensures Collect(rs).Success? ==>
      |Collect(rs).value| == |rs| && forall k :: 0 <= k < |rs| ==> Collect(rs).value[k] == rs[k].value
    ensures Collect(rs).Failure? ==>
      exists j :: 0 <= j < |rs| && rs[j].Failure? && Collect(rs).error == rs[j].error &&
        forall k :: 0 <= k < j ==> rs[k].Success?
  {
    if rs != [] {
      var init := rs[..|rs| - 1];
      CollectShape(init);
      assert forall k :: 0 <= k < |init| ==> rs[k] == init[k];
      if Collect(init).Failure? {
        var j :| 0 <= j < |init| && init[j].Failure? && Collect(init).error == init[j].error &&
          forall k :: 0 <= k < j ==> init[k].Success?;
        assert rs[j] == init[j];
      }
    }
  }

  /** The img loop's lists: the entries' lists, concatenated in order. */
  function Flatten(ps: seq<ImgLists>): ImgLists {
    if ps == [] then ImgLists([], [])
    else
      var acc := Flatten(ps[..|ps| - 1]);
      ImgLists(acc.sizes + ps[|ps| - 1].sizes, acc.srcset + ps[|ps| - 1].srcset)
  }

  /** Lists that each hold one size give those sizes, in order. */
  lemma {:induction false} FlattenSizes(ps: seq<ImgLists>, want: seq<Sizes.Size>)
    requires |ps| == |want| && forall k {:trigger ps[k]} :: 0 <= k < |ps| ==> ps[k].sizes == [want[k]]
    ensures Flatten(ps).sizes == want
  {
    if ps != [] {
      var n := |ps| - 1;
      FlattenSizes(ps[..n], want[..n]);
      assert ps[n].sizes == [want[n]];
      assert want == want[..n] + [want[n]];
    }
  }

  /** Lists that each hold one candidate give those candidates' descriptors, in order. */
  lemma {:induction false} FlattenSingles(ps: seq<ImgLists>, d: seq<string>)
    requires |ps| == |d|
    requires forall k {:trigger ps[k]} :: 0 <= k < |ps| ==> |ps[k].srcset| == 1 && ps[k].srcset[0].descriptor == d[k]
    ensures |Flatten(ps).srcset| == |ps|
    ensures forall k :: 0 <= k < |ps| ==> Flatten(ps).srcset[k].descriptor == d[k]
  {
    if ps != [] {
      var n := |ps| - 1;
      FlattenSingles(ps[..n], d[..n]);
      var acc, f := Flatten(ps[..n]).srcset, Flatten(ps).srcset;
      assert |ps[n].srcset| == 1 && ps[n].srcset[0].descriptor == d[n];
      assert f == acc + ps[n].srcset;
      forall k | 0 <= k < |ps| ensures f[k].descriptor == d[k] {
        if k < n { assert f[k] == acc[k] && d[k] == d[..n][k]; }
      }
    }
  }

  /** Lists that each hold two candidates give them interleaved, in order. */
  lemma {:induction false} FlattenPairs(ps: seq<ImgLists>, d1: seq<string>, d2: seq<string>)
    requires |ps| == |d1| == |d2|
    requires forall k {:trigger ps[k]} :: 0 <= k < |ps| ==>
      |ps[k].srcset| == 2 && ps[k].srcset[0].descriptor == d1[k] && ps[k].srcset[1].descriptor == d2[k]
    ensures |Flatten(ps).srcset| == 2 * |ps|
    ensures forall k :: 0 <= k < |ps| ==>
      Flatten(ps).srcset[2 * k].descriptor == d1[k] && Flatten(ps).srcset[2 * k + 1].descriptor == d2[k]
  {
    if ps != [] {
      var n := |ps| - 1;
      FlattenPairs(ps[..n], d1[..n], d2[..n]);
      var acc, f := Flatten(ps[..n]).srcset, Flatten(ps).srcset;
      var last := ps[n].srcset;
      assert |last| == 2 && last[0].descriptor == d1[n] && last[1].descriptor == d2[n];
      assert f == acc + last;
      forall k | 0 <= k < |ps| ensures f[2 * k].descriptor == d1[k] && f[2 * k + 1].descriptor == d2[k] {
        if k < n {
          assert f[2 * k] == acc[2 * k] && f[2 * k + 1] == acc[2 * k + 1];
          assert d1[k] == d1[..n][k] && d2[k] == d2[..n][k];
        } else {
          assert f[2 * k] == last[0] && f[2 * k + 1] == last[1];
        }
      }
    }
  }

  /** The result of each img entry on its own. */
  function ImgResults(env: Env, origin: string, mq: seq<Entry>, ratio2x: bool, aspect: Option<real>, lazy: bool)
    : (r: seq<Result<ImgLists, Error>>)
    ensures |r| == |mq| && forall k :: 0 <= k < |mq| ==> r[k] == ImgEntry(env, origin, mq[k], ratio2x, aspect, lazy)
  {
    seq(|mq|, k requires 0 <= k < |mq| => ImgEntry(env, origin, mq[k], ratio2x, aspect, lazy))
  }

  /** The img loop is the entries' results collected, then flattened. */
  lemma {:induction false} ImgPartsAsCollect(env: Env, origin: string, mq: seq<Entry>, ratio2x: bool,
                                             aspect: Option<real>, lazy: bool)
    ensures var c := Collect(ImgResults(env, origin, mq, ratio2x, aspect, lazy));
      ImgParts(env, origin, mq, ratio2x, aspect, lazy) == if c.Failure? then Failure(c.error) else Success(Flatten(c.value))
  {
    if mq != [] {
      var init := mq[..|mq| - 1];
      ImgPartsAsCollect(env, origin, init, ratio2x, aspect, lazy);
      var rs := ImgResults(env, origin, mq, ratio2x, aspect, lazy);
      assert rs[..|rs| - 1] == ImgResults(env, origin, init, ratio2x, aspect, lazy);
      var c := Collect(rs);
      if c.Success? {
        assert c.value[..|c.value| - 1] == Collect(rs[..|rs| - 1]).value;
      }
    }
  }

  /** `img()` over n entries: n sizes `"{w}px"` with the entries' media, in
      order, and n candidates `"{w}w"`, or 2n with `"{w}w"` and `"{2w}w"`
      interleaved. */
  lemma ImgPartsShape(env: Env, origin: string, mq: seq<Entry>, ratio2x: bool, aspect: Option<real>, lazy: bool)
    ensures var r := ImgParts(env, origin, mq, ratio2x, aspect, lazy);
      r.Success? ==>
        |r.value.sizes| == |mq| &&
        (forall k :: 0 <= k < |mq| ==> r.value.sizes[k] == Sizes.Size(MediaOf(mq[k].key), SlotOf(mq[k].width))) &&
        (!ratio2x ==> |r.value.srcset| == |mq| &&
                      forall k :: 0 <= k < |mq| ==> r.value.srcset[k].descriptor == WidthDescriptor(mq[k].width)) &&
        (ratio2x ==> |r.value.srcset| == 2 * |mq| &&
                     forall k :: 0 <= k < |mq| ==>
                       r.value.srcset[2 * k].descriptor == WidthDescriptor(mq[k].width) &&
                       r.value.srcset[2 * k + 1].descriptor == WidthDescriptor(mq[k].width * 2))
  {
    var rs := ImgResults(env, origin, mq, ratio2x, aspect, lazy);
    ImgPartsAsCollect(env, origin, mq, ratio2x, aspect, lazy);
    CollectShape(rs);
    var c := Collect(rs);
    if c.Success? {
      var ps := c.value;
      forall k | 0 <= k < |mq| ensures EntryShaped(ps[k], mq[k], ratio2x) {
        ImgEntryShape(env, origin, mq[k], ratio2x, aspect, lazy);
      }
      FlattenShape(ps, mq, ratio2x);
    }
  }

  /** What one pass of the img loop contributes, in terms of its entry. */
  predicate EntryShaped(p: ImgLists, e: Entry, ratio2x: bool) {
    p.sizes == [Sizes.Size(MediaOf(e.key), SlotOf(e.width))] &&
    |p.srcset| == (if ratio2x then 2 else 1) && p.srcset[0].descriptor == WidthDescriptor(e.width) &&
    (ratio2x ==> p.srcset[1].descriptor == WidthDescriptor(e.width * 2))
  }

  /** Passes shaped after their entries flatten to the lists `img()` promises. */
  lemma FlattenShape(ps: seq<ImgLists>, mq: seq<Entry>, ratio2x: bool)
    requires |ps| == |mq| && forall k :: 0 <= k < |mq| ==> EntryShaped(ps[k], mq[k], ratio2x)
    ensures |Flatten(ps).sizes| == |mq|
    ensures forall k :: 0 <= k < |mq| ==> Flatten(ps).sizes[k] == Sizes.Size(MediaOf(mq[k].key), SlotOf(mq[k].width))
    ensures !ratio2x ==>
              |Flatten(ps).srcset| == |mq| &&
              forall k :: 0 <= k < |mq| ==> Flatten(ps).srcset[k].descriptor == WidthDescriptor(mq[k].width)
    ensures ratio2x ==>
              |Flatten(ps).srcset| == 2 * |mq| &&
              forall k :: 0 <= k < |mq| ==>
                Flatten(ps).srcset[2 * k].descriptor == WidthDescriptor(mq[k].width) &&
                Flatten(ps).srcset[2 * k + 1].descriptor == WidthDescriptor(mq[k].width * 2)
  {
    var want := seq(|mq|, k requires 0 <= k < |mq| => Sizes.Size(MediaOf(mq[k].key), SlotOf(mq[k].width)));
    var d1 := seq(|mq|, k requires 0 <= k < |mq| => WidthDescriptor(mq[k].width));
    var d2 := seq(|mq|, k requires 0 <= k < |mq| => WidthDescriptor(mq[k].width * 2));
    forall k | 0 <= k < |mq|
      ensures ps[k].sizes == [want[k]]
      ensures |ps[k].srcset| == (if ratio2x then 2 else 1) && ps[k].srcset[0].descriptor == d1[k]
      ensures ratio2x ==> ps[k].srcset[1].descriptor == d2[k]
    {
      assert EntryShaped(ps[k], mq[k], ratio2x);
    }
    FlattenSizes(ps, want);
    if ratio2x {
      FlattenPairs(ps, d1, d2);
    } else {
      FlattenSingles(ps, d1);
    }
  }

  /** The img loop succeeds exactly when every entry does, and otherwise
      ends with the error of the first entry that fails. */
  lemma ImgPartsOutcome(env: Env, origin: string, mq: seq<Entry>, ratio2x: bool, aspect: Option<real>, lazy: bool)
    ensures ImgParts(env, origin, mq, ratio2x, aspect, lazy).Success? <==>
      forall k :: 0 <= k < |mq| ==> ImgEntry(env, origin, mq[k], ratio2x, aspect, lazy).Success?
    ensures ImgParts(env, origin, mq, ratio2x, aspect, lazy).Failure? ==>
      exists j :: 0 <= j < |mq| && ImgEntry(env, origin, mq[j], ratio2x, aspect, lazy).Failure? &&
        ImgParts(env, origin, mq, ratio2x, aspect, lazy).error == ImgEntry(env, origin, mq[j], ratio2x, aspect, lazy).error &&
        forall k :: 0 <= k < j ==> ImgEntry(env, origin, mq[k], ratio2x, aspect, lazy).Success?
  {
    var rs := ImgResults(env, origin, mq, ratio2x, aspect, lazy);
    ImgPartsAsCollect(env, origin, mq, ratio2x, aspect, lazy);
    CollectShape(rs);
  }

  /** One picture entry gives the candidates "1x" and, with 2x pixel ratio,
      "2x", and its source the entry's media. */
  lemma PictureEntryShape(env: Env, origin: string, e: Entry, ratio2x: bool, aspect: Option<real>, lazy: bool)
    ensures var r := PictureEntry(env, origin, e, ratio2x, aspect, lazy);
      r.Success? ==>
        |r.value| == (if ratio2x then 2 else 1) && r.value[0].descriptor == "1x" &&
        (ratio2x ==> r.value[1].descriptor == "2x")
    ensures SourceOf(env, origin, e, ratio2x, aspect, lazy).Success? <==> PictureEntry(env, origin, e, ratio2x, aspect, lazy).Success?
    ensures SourceOf(env, origin, e, ratio2x, aspect, lazy).Success? ==>
      AttributeText(SourceOf(env, origin, e, ratio2x, aspect, lazy).value, SourceSkip, Bare) ==
      Join(Sources.Present("media", MediaOf(e.key)) +
           ["srcset=\"" + Sources.SrcsetText(PictureEntry(env, origin, e, ratio2x, aspect, lazy).value) + "\""], " ")
  {
    var r := PictureEntry(env, origin, e, ratio2x, aspect, lazy);
    if r.Success? {
      Sources.InitialSourceTag(r.value, [], MediaOf(e.key), "");
      Sizes.SizesTextShape([]);
      assert Sources.Present("type", "") == [] && Sources.Present("sizes", "") == [];
      assert Sources.Present("media", MediaOf(e.key)) + [] + [] == Sources.Present("media", MediaOf(e.key));
    }
  }

  /** The result of each picture entry on its own. */
  function SourceResults(env: Env, origin: string, mq: seq<Entry>, ratio2x: bool, aspect: Option<real>, lazy: bool)
    : (r: seq<Result<AttrMap, Error>>)
    ensures |r| == |mq| && forall k :: 0 <= k < |mq| ==> r[k] == SourceOf(env, origin, mq[k], ratio2x, aspect, lazy)
  {
    seq(|mq|, k requires 0 <= k < |mq| => SourceOf(env, origin, mq[k], ratio2x, aspect, lazy))
  }

  /** The picture loop is the entries' results collected. */
  lemma {:induction false} PictureMapsAsCollect(env: Env, origin: string, mq: seq<Entry>, ratio2x: bool,
                                                aspect: Option<real>, lazy: bool)
    ensures PictureMaps(env, origin, mq, ratio2x, aspect, lazy) == Collect(SourceResults(env, origin, mq, ratio2x, aspect, lazy))
  {
    if mq != [] {
      var init := mq[..|mq| - 1];
      PictureMapsAsCollect(env, origin, init, ratio2x, aspect, lazy);
      var rs := SourceResults(env, origin, mq, ratio2x, aspect, lazy);
      assert rs[..|rs| - 1] == SourceResults(env, origin, init, ratio2x, aspect, lazy);
    }
  }

  /** `picture()` builds one source per entry, in order: the loop succeeds
      exactly when every entry does, its k-th source is then the k-th
      entry's, and otherwise it ends with the first entry's failure. */
  lemma PictureMapsShape(env: Env, origin: string, mq: seq<Entry>, ratio2x: bool, aspect: Option<real>, lazy: bool)
    ensures PictureMaps(env, origin, mq, ratio2x, aspect, lazy).Success? <==>
      forall k :: 0 <= k < |mq| ==> SourceOf(env, origin, mq[k], ratio2x, aspect, lazy).Success?
    ensures var r := PictureMaps(env, origin, mq, ratio2x, aspect, lazy);
      r.Success? ==>
        |r.value| == |mq| &&
        forall k :: 0 <= k < |mq| ==> r.value[k] == SourceOf(env, origin, mq[k], ratio2x, aspect, lazy).value
    ensures PictureMaps(env, origin, mq, ratio2x, aspect, lazy).Failure? ==>
      exists j :: 0 <= j < |mq| && SourceOf(env, origin, mq[j], ratio2x, aspect, lazy).Failure? &&
        PictureMaps(env, origin, mq, ratio2x, aspect, lazy).error == SourceOf(env, origin, mq[j], ratio2x, aspect, lazy).error &&
        forall k :: 0 <= k < j ==> SourceOf(env, origin, mq[k], ratio2x, aspect, lazy).Success?
  {
    PictureMapsAsCollect(env, origin, mq, ratio2x, aspect, lazy);
    CollectShape(SourceResults(env, origin, mq, ratio2x, aspect, lazy));
  }

  /** The `catch (\Exception)` of `img()`: a loop that ends with an exception
      makes the builder return "", and one that ends with an Error lets it
      escape unchanged; so does the `make` after a loop that succeeds. */
  lemma ImgCatchesExceptions(env: Env, origin: string, mq: seq<Entry>, ratio2x: bool, aspect: Option<real>,
                             alt: string, lazy: bool, attrs: seq<Attr>)
    ensures var parts := ImgParts(env, origin, mq, ratio2x, aspect, lazy);
      var out := ImgOutput(env, origin, mq, ratio2x, aspect, alt, lazy, attrs);
      (parts.Failure? && IsException(parts.error) ==> out == Success("")) &&
      (parts.Failure? && !IsException(parts.error) ==> out == Failure(parts.error)) &&
      (parts.Success? ==>
         var made := Imgs.ImgAttrs(env, origin, alt, None, None, parts.value.srcset, parts.value.sizes, lazy);
         (made.Failure? && IsException(made.error) ==> out == Success("")) &&
         (made.Failure? && !IsException(made.error) ==> out == Failure(made.error)))
  {
  }

  /** The `catch (\Exception)` of `picture()`, likewise. */
  lemma PictureCatchesExceptions(env: Env, origin: string, mq: seq<Entry>, ratio2x: bool, aspect: Option<real>,
                                 alt: string, lazy: bool, attrs: seq<Attr>)
    ensures var maps := PictureMaps(env, origin, mq, ratio2x, aspect, lazy);
      var out := PictureOutput(env, origin, mq, ratio2x, aspect, alt, lazy, attrs);
      (maps.Failure? && IsException(maps.error) ==> out == Success("")) &&
      (maps.Failure? && !IsException(maps.error) ==> out == Failure(maps.error)) &&
      (maps.Success? ==>
         var made := Pictures.PictureImgAttrs(env, origin, alt, None, None, lazy);
         (made.Failure? && IsException(made.error) ==> out == Success("")) &&
         (made.Failure? && !IsException(made.error) ==> out == Failure(made.error)))
  {
  }

  /** An origin that is empty or "0" makes both builders return "": with no
      entry, `make` rejects it; otherwise the first `resize()` does. */
  lemma EmptyOriginGivesEmpty(env: Env, origin: string, mq: seq<Entry>, ratio2x: bool, aspect: Option<real>,
                              alt: string, lazy: bool, attrs: seq<Attr>)
    requires !Truthy(origin)
    ensures ImgOutput(env, origin, mq, ratio2x, aspect, alt, lazy, attrs) == Success("")
    ensures PictureOutput(env, origin, mq, ratio2x, aspect, alt, lazy, attrs) == Success("")
  {
    EmptyUrlIsNotSvg(env);
    assert !IsSvgByAttachmentUrl(env, origin);
    if mq == [] {
      assert ImgParts(env, origin, mq, ratio2x, aspect, lazy) == Success(ImgLists([], []));
    } else {
      assert mq[..0] == [];
      ImgGatheredStep(ImgPass(env, origin, ratio2x, aspect, lazy), mq, 0);
      ImgGatheredFailurePersists(ImgPass(env, origin, ratio2x, aspect, lazy), mq, 1);
      GatheredStep(SourcePass(env, origin, ratio2x, aspect, lazy), mq, 0);
      GatheredFailurePersists(SourcePass(env, origin, ratio2x, aspect, lazy), mq, 1);
    }
  }

  /** A resize that the engine declines with `false` is a `\TypeError`,
      which the `catch (\Exception)` of `img()` lets through. */
  lemma DeclinedResizeEscapesImg(env: Env, origin: string, mq: seq<Entry>, ratio2x: bool, aspect: Option<real>,
                                 alt: string, lazy: bool, attrs: seq<Attr>)
    requires Truthy(origin) && !IsSvgByAttachmentUrl(env, origin)
    requires mq != [] && mq[0].width != 0
    requires env.engine(origin, mq[0].width, HeightFor(mq[0].width, aspect), true, true) == Declined
    ensures ImgOutput(env, origin, mq, ratio2x, aspect, alt, lazy, attrs).Failure?
  {
    DeclinedResizeFailsImgParts(env, origin, mq, ratio2x, aspect, lazy);
  }

  lemma DeclinedResizeFailsImgEntry(env: Env, origin: string, e: Entry, ratio2x: bool, aspect: Option<real>,
                                    lazy: bool)
    requires Truthy(origin) && !IsSvgByAttachmentUrl(env, origin)
    requires e.width != 0
    requires env.engine(origin, e.width, HeightFor(e.width, aspect), true, true) == Declined
    ensures ImgEntry(env, origin, e, ratio2x, aspect, lazy).Failure?
    ensures !IsException(ImgEntry(env, origin, e, ratio2x, aspect, lazy).error)
  {
    DeclinedResizeIsError(env, EntryRequest(origin, e.width, aspect), WidthDescriptor(e.width), lazy);
    SlotIsTruthy(e.width);
  }

  lemma DeclinedResizeFailsImgParts(env: Env, origin: string, mq: seq<Entry>, ratio2x: bool, aspect: Option<real>,
                                    lazy: bool)
    requires Truthy(origin) && !IsSvgByAttachmentUrl(env, origin)
    requires mq != [] && mq[0].width != 0
    requires env.engine(origin, mq[0].width, HeightFor(mq[0].width, aspect), true, true) == Declined
    ensures ImgParts(env, origin, mq, ratio2x, aspect, lazy).Failure?
    ensures !IsException(ImgParts(env, origin, mq, ratio2x, aspect, lazy).error)
  {
    DeclinedResizeFailsImgEntry(env, origin, mq[0], ratio2x, aspect, lazy);
    assert mq[..0] == [];
    ImgGatheredStep(ImgPass(env, origin, ratio2x, aspect, lazy), mq, 0);
    ImgGatheredFailurePersists(ImgPass(env, origin, ratio2x, aspect, lazy), mq, 1);
  }

  /** ... and so does the one of `picture()`. */
  lemma DeclinedResizeEscapesPicture(env: Env, origin: string, mq: seq<Entry>, ratio2x: bool, aspect: Option<real>,
                                     alt: string, lazy: bool, attrs: seq<Attr>)
    requires Truthy(origin) && !IsSvgByAttachmentUrl(env, origin)
    requires mq != [] && mq[0].width != 0
    requires env.engine(origin, mq[0].width, HeightFor(mq[0].width, aspect), true, true) == Declined
    ensures PictureOutput(env, origin, mq, ratio2x, aspect, alt, lazy, attrs).Failure?
  {
    DeclinedResizeFailsPictureMaps(env, origin, mq, ratio2x, aspect, lazy);
  }

  lemma DeclinedResizeFailsSource(env: Env, origin: string, e: Entry, ratio2x: bool, aspect: Option<real>,
                                  lazy: bool)
    requires Truthy(origin) && !IsSvgByAttachmentUrl(env, origin)
    requires e.width != 0
    requires env.engine(origin, e.width, HeightFor(e.width, aspect), true, true) == Declined
    ensures SourceOf(env, origin, e, ratio2x, aspect, lazy).Failure?
    ensures !IsException(SourceOf(env, origin, e, ratio2x, aspect, lazy).error)
  {
    DeclinedResizeIsError(env, EntryRequest(origin, e.width, aspect), "1x", lazy);
  }

  lemma DeclinedResizeFailsPictureMaps(env: Env, origin: string, mq: seq<Entry>, ratio2x: bool, aspect: Option<real>,
                                       lazy: bool)
    requires Truthy(origin) && !IsSvgByAttachmentUrl(env, origin)
    requires mq != [] && mq[0].width != 0
    requires env.engine(origin, mq[0].width, HeightFor(mq[0].width, aspect), true, true) == Declined
    ensures PictureMaps(env, origin, mq, ratio2x, aspect, lazy).Failure?
    ensures !IsException(PictureMaps(env, origin, mq, ratio2x, aspect, lazy).error)
  {
    DeclinedResizeFailsSource(env, origin, mq[0], ratio2x, aspect, lazy);
    assert mq[..0] == [];
    GatheredStep(SourcePass(env, origin, ratio2x, aspect, lazy), mq, 0);
    GatheredFailurePersists(SourcePass(env, origin, ratio2x, aspect, lazy), mq, 1);
  }

  /** An SVG origin is never resized, so its img entries do not depend on the engine. */
  lemma SvgImgEntryIgnoresEngine(env: Env, other: Engine, origin: string, e: Entry, ratio2x: bool,
                                 aspect: Option<real>, lazy: bool)
    requires IsSvgByAttachmentUrl(env, origin)
    ensures ImgEntry(env, origin, e, ratio2x, aspect, lazy) == ImgEntry(env.(engine := other), origin, e, ratio2x, aspect, lazy)
  {
    SvgOriginSkipsEngine(env, EntryRequest(origin, e.width, aspect), WidthDescriptor(e.width), lazy, other);
    SvgOriginSkipsEngine(env, EntryRequest(origin, e.width * 2, aspect), WidthDescriptor(e.width * 2), lazy, other);
  }

  /** ... nor do its picture entries. */
  lemma SvgSourceIgnoresEngine(env: Env, other: Engine, origin: string, e: Entry, ratio2x: bool,
                               aspect: Option<real>, lazy: bool)
    requires IsSvgByAttachmentUrl(env, origin)
    ensures SourceOf(env, origin, e, ratio2x, aspect, lazy) == SourceOf(env.(engine := other), origin, e, ratio2x, aspect, lazy)
  {
    SvgOriginSkipsEngine(env, EntryRequest(origin, e.width, aspect), "1x", lazy, other);
    SvgOriginSkipsEngine(env, EntryRequest(origin, e.width * 2, aspect), "2x", lazy, other);
  }

  lemma {:induction false} SvgImgPartsIgnoreEngine(env: Env, other: Engine, origin: string, mq: seq<Entry>, ratio2x: bool,
                                                   aspect: Option<real>, lazy: bool)
    requires IsSvgByAttachmentUrl(env, origin)
    ensures ImgParts(env, origin, mq, ratio2x, aspect, lazy) == ImgParts(env.(engine := other), origin, mq, ratio2x, aspect, lazy)
  {
    if mq != [] {
      SvgImgPartsIgnoreEngine(env, other, origin, mq[..|mq| - 1], ratio2x, aspect, lazy);
      SvgImgEntryIgnoresEngine(env, other, origin, mq[|mq| - 1], ratio2x, aspect, lazy);
    }
  }

  lemma {:induction false} SvgPictureMapsIgnoreEngine(env: Env, other: Engine, origin: string, mq: seq<Entry>, ratio2x: bool,
                                                      aspect: Option<real>, lazy: bool)
    requires IsSvgByAttachmentUrl(env, origin)
    ensures PictureMaps(env, origin, mq, ratio2x, aspect, lazy) == PictureMaps(env.(engine := other), origin, mq, ratio2x, aspect, lazy)
  {
    if mq != [] {
      SvgPictureMapsIgnoreEngine(env, other, origin, mq[..|mq| - 1], ratio2x, aspect, lazy);
      SvgSourceIgnoresEngine(env, other, origin, mq[|mq| - 1], ratio2x, aspect, lazy);
    }
  }

  /** For an SVG origin both builders return the same whatever the resize
      engine would do. */
  lemma SvgOriginIgnoresEngine(env: Env, other: Engine, origin: string, mq: seq<Entry>, ratio2x: bool,
                               aspect: Option<real>, alt: string, lazy: bool, attrs: seq<Attr>)
    requires IsSvgByAttachmentUrl(env, origin)
    ensures ImgOutput(env, origin, mq, ratio2x, aspect, alt, lazy, attrs) ==
            ImgOutput(env.(engine := other), origin, mq, ratio2x, aspect, alt, lazy, attrs)
    ensures PictureOutput(env, origin, mq, ratio2x, aspect, alt, lazy, attrs) ==
            PictureOutput(env.(engine := other), origin, mq, ratio2x, aspect, alt, lazy, attrs)
  {
    SvgImgPartsIgnoreEngine(env, other, origin, mq, ratio2x, aspect, lazy);
    SvgPictureMapsIgnoreEngine(env, other, origin, mq, ratio2x, aspect, lazy);
  }
}
