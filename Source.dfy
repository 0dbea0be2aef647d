/** Source.php: a `<source>` element of a `<picture>`, holding its attributes
    in an insertion-ordered array. */
module Sources {
  import opened Php
  import opened Markup
  import opened Sizes
  import opened SrcsetItems

  const EmptySrcsetMessage: string := "Source: empty Srcset"

  /** `array_unique` on strings: the first occurrence of each, in order. */
  function Dedup(s: seq<string>): seq<string> {
    if s == [] then []
    else
      var d := Dedup(s[..|s| - 1]);
      if s[|s| - 1] in d then d else d + [s[|s| - 1]]
  }

  predicate Distinct(s: seq<string>) {
    forall i, j :: 0 <= i < j < |s| ==> s[i] != s[j]
  }

  /** The position of the first occurrence of `x` in `s`. */
  function FirstIndex(s: seq<string>, x: string): (r: nat)
    requires x in s
    ensures r < |s| && s[r] == x && x !in s[..r]
  {
    var init := s[..|s| - 1];
    if x in init then
      var k := FirstIndex(init, x);
      assert s[..k] == init[..k];
      k
    else
      assert s[..|s| - 1] == init;
      |s| - 1
  }

  /** `Dedup` lists the strings in the order of their first occurrences. */
  lemma {:induction false} DedupOrder(s: seq<string>)
    ensures forall x :: x in Dedup(s) <==> x in s
    ensures forall i, j :: 0 <= i < j < |Dedup(s)| ==> FirstIndex(s, Dedup(s)[i]) < FirstIndex(s, Dedup(s)[j])
  {
    if s != [] {
      var init := s[..|s| - 1];
      var last := s[|s| - 1];
      DedupOrder(init);
      var d := Dedup(init);
      forall y | y in init
        ensures FirstIndex(s, y) == FirstIndex(init, y)
      {
      }
      assert s == init + [last];
      if last in d {
        assert Dedup(s) == d;
      } else {
        assert Dedup(s) == d + [last];
        assert forall x :: x in Dedup(s) ==> x in s;
        assert FirstIndex(s, last) == |init|;
        forall i, j | 0 <= i < j < |Dedup(s)|
          ensures FirstIndex(s, Dedup(s)[i]) < FirstIndex(s, Dedup(s)[j])
        {
          assert Dedup(s)[i] == d[i] && d[i] in init;
          if j < |d| {
            assert Dedup(s)[j] == d[j] && d[j] in init;
          }
        }
      }
    }
  }

  /** `Dedup` leaves each string once, and a list without repeats as it is. */
  lemma {:induction false} DedupDistinct(s: seq<string>)
    ensures forall x :: x in Dedup(s) <==> x in s
    ensures Distinct(Dedup(s))
    ensures |Dedup(s)| <= |s|
    ensures Distinct(s) ==> Dedup(s) == s
  {
    if s != [] {
      var init := s[..|s| - 1];
      var last := s[|s| - 1];
      DedupDistinct(init);
      assert s == init + [last];
      if Distinct(s) {
        assert Distinct(init) by {
          forall i, j | 0 <= i < j < |init| ensures init[i] != init[j] {
            assert init[i] == s[i] && init[j] == s[j];
          }
        }
        assert last !in init by {
          forall i | 0 <= i < |init| ensures init[i] != last {
            assert init[i] == s[i];
          }
        }
      }
    }
  }

  /** `Dedup` keeps exactly the strings of its input, each once, in the order
      of their first occurrences, and leaves a list without repeats as it is. */
  lemma DedupSpec(s: seq<string>)
    ensures forall x :: x in Dedup(s) <==> x in s
    ensures Distinct(Dedup(s))
    ensures forall i, j :: 0 <= i < j < |Dedup(s)| ==> FirstIndex(s, Dedup(s)[i]) < FirstIndex(s, Dedup(s)[j])
    ensures |Dedup(s)| <= |s|
    ensures Distinct(s) ==> Dedup(s) == s
  {
    DedupDistinct(s);
    DedupOrder(s);
  }

  /** The `srcset` text of a source: the candidates of its items, repeats
      dropped, joined by ", ". */
  function SrcsetText(srcset: seq<Item>): (r: string)
    ensures Truthy(r) <==> srcset != []
    ensures |srcset| == 1 ==> r == Candidate(srcset[0])
  {
    var cs := Candidates(srcset);
    var d := Dedup(cs);
    DedupSpec(cs);
    if srcset == [] then
      assert d == [];
      Join(d, ", ")
    else
      assert cs[0] in d;
      assert d[|d| - 1] in cs;
      CandidatesEndInDescriptor(srcset);
      CleanListJoin(d);
      assert |srcset| == 1 ==> d == cs && cs == [Candidate(srcset[0])];
      Join(d, ", ")
  }

  /** Every candidate of valid items is non-empty and ends in 'w' or 'x'. */
  lemma CandidatesEndInDescriptor(items: seq<Item>)
    ensures forall c :: c in Candidates(items) ==> c != [] && (c[|c| - 1] == 'w' || c[|c| - 1] == 'x')
  {
    forall c | c in Candidates(items)
      ensures c != [] && (c[|c| - 1] == 'w' || c[|c| - 1] == 'x')
    {
      var k :| 0 <= k < |items| && Candidates(items)[k] == c;
      CandidateOfItem(items[k]);
    }
  }

  /** A non-empty list whose last entry ends outside ", " survives the loop
      and `rtrim` as its join, which is then truthy. */
  lemma {:induction false} CleanListJoin(d: seq<string>)
    requires d != [] && d[|d| - 1] != [] && d[|d| - 1][|d[|d| - 1]| - 1] in {'w', 'x'}
    ensures RTrimChars(Spaced(d, ", "), ListTrim) == Join(d, ", ")
    ensures Truthy(Join(d, ", "))
  {
    JoinLast(d, ", ");
    TrimmedCandidatesAreJoin(d);
  }

  /** What the candidate loop and `rtrim` produce from the deduplicated
      candidates is `SrcsetText`, and it is truthy for any non-empty srcset. */
  lemma {:induction false} SrcsetTextOfLoop(srcset: seq<Item>)
    ensures RTrimChars(Spaced(Dedup(Candidates(srcset)), ", "), ListTrim) == SrcsetText(srcset)
    ensures Truthy(SrcsetText(srcset)) <==> srcset != []
  {
    var cs := Candidates(srcset);
    var d := Dedup(cs);
    DedupSpec(cs);
    if srcset != [] {
      assert cs[0] in d;
      var last := d[|d| - 1];
      assert last in cs;
      CandidatesEndInDescriptor(srcset);
      CleanListJoin(d);
    } else {
      assert d == [];
    }
  }

  /** The attributes the constructor leaves: media, type and sizes in that
      order, then the srcset text when it is truthy. */
  function InitialAttrs(srcset: seq<Item>, sizes: seq<ValidSize>, media: string, mimeType: string): (r: AttrMap)
    ensures Names(r) == ["media", "type", "sizes"] + (if srcset != [] then ["srcset"] else [])
    ensures Get(r, "media") == Some(Str(media)) && Get(r, "type") == Some(Str(mimeType))
    ensures Get(r, "sizes") == Some(Str(SizesText(sizes)))
    ensures Get(r, "srcset") == if srcset != [] then Some(Str(SrcsetText(srcset))) else None
  {
    var m := SourceAttrs(media, mimeType, SizesText(sizes), SrcsetText(srcset));
    assert m[2..][0] == Attr("sizes", Str(SizesText(sizes)));
    assert Get(m, "sizes") == Get(m[1..], "sizes") == Get(m[2..], "sizes");
    assert Get(m, "srcset") == Get(m[1..], "srcset") == Get(m[2..], "srcset") == Get(m[3..], "srcset");
    m
  }

  function SourceAttrs(media: string, mimeType: string, sizesText: string, srcsetText: string): AttrMap {
    [Attr("media", Str(media)), Attr("type", Str(mimeType)), Attr("sizes", Str(sizesText))]
    + (if Truthy(srcsetText) then [Attr("srcset", Str(srcsetText))] else [])
  }

  class Source {
    var attrs: AttrMap

    /** The constructor past its guard, before `resolveSrcset`. */
    constructor (sizes: seq<ValidSize>, media: string, mimeType: string)
      ensures attrs == [Attr("media", Str(media)), Attr("type", Str(mimeType)), Attr("sizes", Str(SizesText(sizes)))]
    {
      attrs := [Attr("media", Str(media)), Attr("type", Str(mimeType)), Attr("sizes", Str(SizesText(sizes)))];
    }

    /** `Source::make`: refuses an empty srcset. */
    static method Make(srcset: seq<Item>, sizes: seq<ValidSize> := [], media: string := "", mimeType: string := "")
      returns (r: Result<Source, Error>)
      ensures r.Failure? <==> srcset == []
      ensures r.Failure? ==> r.error == InvalidArgument(EmptySrcsetMessage)
      ensures r.Success? ==> fresh(r.value) && r.value.attrs == InitialAttrs(srcset, sizes, media, mimeType)
    {
      if srcset == [] {
        return Failure(InvalidArgument(EmptySrcsetMessage));
      }
      var s := new Source(sizes, media, mimeType);
      s.ResolveSrcset(srcset);
      SrcsetAfterHead(srcset, sizes, media, mimeType);
      r := Success(s);
    }

    /** `resolveSrcset`: writes the joined, deduplicated candidates, or
        nothing when they come to a falsy string. */
    method ResolveSrcset(srcset: seq<Item>)
      modifies this
      ensures attrs == if srcset == [] then old(attrs) else Set(old(attrs), "srcset", Str(SrcsetText(srcset)))
    {
      var candidates := Dedup(Candidates(srcset));
      var html := JoinCandidates(candidates);
      SrcsetTextOfLoop(srcset);
      if Truthy(html) {
        attrs := Set(attrs, "srcset", Str(html));
      }
    }

    /** `setAttr`: any attribute but src, srcset and sizes, under its lowered name. */
    method SetAttr(name: string, value: Value) returns (self: Source)
      modifies this
      ensures self == this
      ensures attrs == SetUnprotected(old(attrs), name, value)
    {
      attrs := SetUnprotected(attrs, name, value);
      self := this;
    }

    /** The tag `render()` returns for the current attributes. */
    function Html(): string
      reads this
    {
      Tag("source", attrs, SourceSkip, Bare)
    }

    method Render() returns (html: string)
      ensures html == Html()
    {
      var content := RenderAttributes(attrs, SourceSkip, Bare);
      html := "<source " + content + ">";
    }
  }

  /** An attribute `name="value"` when the value is truthy, else nothing. */
  function Present(name: string, value: string): seq<string> {
    if Truthy(value) then [name + "=\"" + value + "\""] else []
  }

  /** The constructor's three attributes followed by the srcset are the
      initial attributes. */
  lemma SrcsetAfterHead(srcset: seq<Item>, sizes: seq<ValidSize>, media: string, mimeType: string)
    requires srcset != []
    ensures Set([Attr("media", Str(media)), Attr("type", Str(mimeType)), Attr("sizes", Str(SizesText(sizes)))],
                "srcset", Str(SrcsetText(srcset))) == InitialAttrs(srcset, sizes, media, mimeType)
  {
    var head := [Attr("media", Str(media)), Attr("type", Str(mimeType)), Attr("sizes", Str(SizesText(sizes)))];
    assert Names(head) == ["media", "type", "sizes"];
    SrcsetTextOfLoop(srcset);
    SetNewKey(head, "srcset", Str(SrcsetText(srcset)));
  }

  /** The tag of a freshly made source lists media, type and sizes only
      when they are truthy, and always its srcset, in that order. */
  lemma InitialSourceTag(srcset: seq<Item>, sizes: seq<ValidSize>, media: string, mimeType: string)
    requires srcset != []
    ensures AttributeText(InitialAttrs(srcset, sizes, media, mimeType), SourceSkip, Bare) ==
      Join(Present("media", media) + Present("type", mimeType) + Present("sizes", SizesText(sizes))
           + ["srcset=\"" + SrcsetText(srcset) + "\""], " ")
  {
    SrcsetTextOfLoop(srcset);
    SourceAttrsTag(media, mimeType, SizesText(sizes), SrcsetText(srcset));
  }

  lemma SourceAttrsTag(media: string, mimeType: string, sizesText: string, srcsetText: string)
    requires Truthy(srcsetText)
    ensures AttributeText(SourceAttrs(media, mimeType, sizesText, srcsetText), SourceSkip, Bare) ==
      Join(Present("media", media) + Present("type", mimeType) + Present("sizes", sizesText)
           + ["srcset=\"" + srcsetText + "\""], " ")
  {
    var m := SourceAttrs(media, mimeType, sizesText, srcsetText);
    var parts := Present("media", media) + Present("type", mimeType) + Present("sizes", sizesText)
                 + ["srcset=\"" + srcsetText + "\""];
    SourceAttrsFormats(media, mimeType, sizesText, srcsetText);
    assert |m| == 4 && m[0].value.Str? && m[1].value.Str? && m[2].value.Str? && m[3].value.Str?;
    assert forall i :: 0 <= i < |m| ==> CleanEnd(m[i]);
    AttributeTextIsJoin(m, SourceSkip);
    var text := AttributeText(m, SourceSkip, Bare);
    assert text == Join(parts, " ");
  }

  /** A string attribute, or nothing when its value is falsy. */
  function IfTruthy(name: string, value: string): AttrMap {
    if Truthy(value) then [Attr(name, Str(value))] else []
  }

  lemma FormatsIfTruthy(name: string, value: string)
    ensures Formats(IfTruthy(name, value)) == Present(name, value)
  {
  }

  /** The render loop of a fresh source drops exactly the falsy ones of
      media, type and sizes. */
  lemma SourceAttrsKept(media: string, mimeType: string, sizesText: string, srcsetText: string)
    requires Truthy(srcsetText)
    ensures Kept(SourceAttrs(media, mimeType, sizesText, srcsetText), SourceSkip) ==
      IfTruthy("media", media) + IfTruthy("type", mimeType) + IfTruthy("sizes", sizesText)
      + [Attr("srcset", Str(srcsetText))]
  {
    var a0, a1, a2 := Attr("media", Str(media)), Attr("type", Str(mimeType)), Attr("sizes", Str(sizesText));
    var a3 := Attr("srcset", Str(srcsetText));
    assert SourceAttrs(media, mimeType, sizesText, srcsetText) == [a0, a1, a2] + [a3];
    KeptSnoc([], a0, SourceSkip);
    assert [] + [a0] == [a0];
    KeptSnoc([a0], a1, SourceSkip);
    assert [a0] + [a1] == [a0, a1];
    KeptSnoc([a0, a1], a2, SourceSkip);
    assert [a0, a1] + [a2] == [a0, a1, a2];
    KeptSnoc([a0, a1, a2], a3, SourceSkip);
  }

  /** The kept attributes of a fresh source, written out. */
  lemma SourceAttrsFormats(media: string, mimeType: string, sizesText: string, srcsetText: string)
    requires Truthy(srcsetText)
    ensures Formats(Kept(SourceAttrs(media, mimeType, sizesText, srcsetText), SourceSkip)) ==
      Present("media", media) + Present("type", mimeType) + Present("sizes", sizesText)
      + ["srcset=\"" + srcsetText + "\""]
  {
    SourceAttrsKept(media, mimeType, sizesText, srcsetText);
    var k1, k2, k3 := IfTruthy("media", media), IfTruthy("type", mimeType), IfTruthy("sizes", sizesText);
    var a3 := Attr("srcset", Str(srcsetText));
    FormatsAppend(k1 + k2 + k3, [a3]);
    FormatsAppend(k1 + k2, k3);
    FormatsAppend(k1, k2);
    FormatsIfTruthy("media", media);
    FormatsIfTruthy("type", mimeType);
    FormatsIfTruthy("sizes", sizesText);
    assert "srcset" + "=\"" == "srcset=\"";
    assert Formats([a3]) == ["srcset=\"" + srcsetText + "\""];
  }

  // ---------------------------------------------- resolveSrcset as written

  /** `resolveSrcset` as Source.php has it: `array_unique` converts every item
      to a string, and SrcsetItem has no `__toString`; a single item skips
      that conversion but then meets `$srcsetItem->render()`, a method
      SrcsetItem does not have. */
  function ResolveSrcsetAsWritten(srcset: seq<Item>): (r: Result<string, Error>)
    ensures r.Success? <==> srcset == []
    ensures r.Success? ==> r.value == ""
    ensures r.Failure? ==> r.error.FatalError? && !IsException(r.error)
  {
    if |srcset| >= 2 then Failure(FatalError("Object of class SrcsetItem could not be converted to string"))
    else if |srcset| == 1 then Failure(FatalError("Call to undefined method SrcsetItem::render()"))
    else Success("")
  }

  /** `Source::make` as written: the guard, then the srcset. */
  function MakeAsWritten(srcset: seq<Item>): (r: Result<string, Error>)
    ensures r.Failure?
    ensures r == Failure(InvalidArgument(EmptySrcsetMessage)) <==> srcset == []
    ensures srcset != [] ==> !IsException(r.error)
  {
    if srcset == [] then Failure(InvalidArgument(EmptySrcsetMessage))
    else ResolveSrcsetAsWritten(srcset)
  }

  /** As written, no source can be made: an empty srcset is refused, and any
      other one raises an `\Error` that the builders' `catch (\Exception)`
      lets through. */
  lemma AsWrittenNoSourceIsMade(srcset: seq<Item>)
    ensures MakeAsWritten(srcset).Failure?
    ensures srcset != [] ==> !IsException(MakeAsWritten(srcset).error)
  {
  }

  /** One item with a pixel-density descriptor. */
  const SampleItem: Item := SrcsetItem("a.jpg", "1x", Some(10), Some(10), false)

  /** The smallest input: one item already fails as written. */
  lemma AsWrittenSingleItem()
    ensures MakeAsWritten([SampleItem]) == Failure(FatalError("Call to undefined method SrcsetItem::render()"))
  {
  }

  /** The corrected source gives that item the srcset text "a.jpg 1x". */
  lemma CorrectedSingleItem()
    ensures SrcsetText([SampleItem]) == "a.jpg 1x"
  {
    assert Candidate(SampleItem) == "a.jpg 1x";
    assert Candidates([SampleItem]) == ["a.jpg 1x"];
    assert Dedup(["a.jpg 1x"][..0]) == [];
    assert Dedup(["a.jpg 1x"]) == ["a.jpg 1x"];
  }
}
