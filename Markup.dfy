/** Insertion-ordered attribute arrays and their serialisation into tag text,
    as Source.php, Img.php and Picture.php build and print them. `esc_attr` and
    the `apply_filters` hooks are the identity here. */
module Markup {
  import opened Php

  /** An attribute value, `string|int|null`; null stands for an attribute
      written without a value, such as `hidden`. */
  datatype Value = Str(s: string) | Int(i: int) | Null

  /** `empty($value)`. */
  predicate Empty(v: Value) {
    match v
    case Str(s) => !Truthy(s)
    case Int(i) => i == 0
    case Null => true
  }

  /** The string PHP interpolates for a non-null value. */
  function Text(v: Value): string {
    match v
    case Str(s) => s
    case Int(i) => IntToString(i)
    case Null => ""
  }

  datatype Attr = Attr(name: string, value: Value)

  /** A PHP array with string keys: its entries in insertion order. */
  type AttrMap = seq<Attr>

  function Names(m: AttrMap): (r: seq<string>)
    ensures |r| == |m|
    ensures forall i :: 0 <= i < |m| ==> r[i] == m[i].name
  {
    if m == [] then [] else [m[0].name] + Names(m[1..])
  }

  /** PHP array keys are unique. */
  predicate UniqueNames(m: AttrMap) {
    forall i, j :: 0 <= i < j < |m| ==> m[i].name != m[j].name
  }

  /** `$m[$k] ?? null` distinguished from a missing key. */
  function Get(m: AttrMap, k: string): Option<Value> {
    if m == [] then None else if m[0].name == k then Some(m[0].value) else Get(m[1..], k)
  }

  /** `$m[$k] = $v`: an existing key keeps its position and takes the new
      value; a new key is appended. */
  function Set(m: AttrMap, k: string, v: Value): AttrMap {
    if m == [] then [Attr(k, v)]
    else if m[0].name == k then [Attr(k, v)] + m[1..]
    else [m[0]] + Set(m[1..], k, v)
  }

  lemma {:induction false} SetNewKey(m: AttrMap, k: string, v: Value)
    requires k !in Names(m)
    ensures Set(m, k, v) == m + [Attr(k, v)]
  {
    if m != [] {
      assert Names(m)[0] == m[0].name;
      assert k !in Names(m[1..]) by {
        assert forall i :: 0 <= i < |m[1..]| ==> Names(m[1..])[i] == Names(m)[i + 1];
      }
      SetNewKey(m[1..], k, v);
      assert m == [m[0]] + m[1..];
    }
  }

  lemma {:induction false} SetExistingKey(m: AttrMap, k: string, v: Value)
    requires k in Names(m)
    ensures Names(Set(m, k, v)) == Names(m)
  {
    if m[0].name != k {
      assert k in Names(m[1..]) by {
        var i :| 0 <= i < |m| && Names(m)[i] == k;
        assert i > 0 && Names(m[1..])[i - 1] == k;
      }
      SetExistingKey(m[1..], k, v);
      assert Names(Set(m, k, v)) == [m[0].name] + Names(Set(m[1..], k, v));
    }
  }

  /** Looking a key up in two arrays put end to end. */
  lemma {:induction false} GetAppend(m1: AttrMap, m2: AttrMap, k: string)
    ensures Get(m1 + m2, k) == if Get(m1, k).Some? then Get(m1, k) else Get(m2, k)
  {
    if m1 != [] {
      assert (m1 + m2)[1..] == m1[1..] + m2;
      GetAppend(m1[1..], m2, k);
    } else {
      assert m1 + m2 == m2;
    }
  }

  lemma NamesAppend(m: AttrMap, a: Attr)
    ensures Names(m + [a]) == Names(m) + [a.name]
  {
  }

  /** Assigning to a key that sits at a known position rewrites that entry
      and nothing else. */
  lemma {:induction false} SetInPlace(m1: AttrMap, k: string, v: Value, m2: AttrMap, v2: Value)
    requires k !in Names(m1)
    ensures Set(m1 + [Attr(k, v)] + m2, k, v2) == m1 + [Attr(k, v2)] + m2
  {
    var m := m1 + [Attr(k, v)] + m2;
    if m1 == [] {
      assert m == [Attr(k, v)] + m2;
      assert m[1..] == m2;
    } else {
      assert Names(m1) == [m1[0].name] + Names(m1[1..]);
      assert m[0] == m1[0] && m[1..] == m1[1..] + [Attr(k, v)] + m2;
      SetInPlace(m1[1..], k, v, m2, v2);
      assert m1 == [m1[0]] + m1[1..];
    }
  }

  /** Two new keys written one after the other land at the end, in order. */
  lemma SetTwoNewKeys(m: AttrMap, k1: string, v1: Value, k2: string, v2: Value)
    requires k1 != k2 && k1 !in Names(m) && k2 !in Names(m)
    ensures Set(Set(m, k1, v1), k2, v2) == m + [Attr(k1, v1), Attr(k2, v2)]
  {
    SetNewKey(m, k1, v1);
    NamesAppend(m, Attr(k1, v1));
    SetNewKey(m + [Attr(k1, v1)], k2, v2);
  }

  /** Writing the same two trailing keys again rewrites them where they are. */
  lemma SetTwoKeysAgain(m: AttrMap, k1: string, v1: Value, k2: string, v2: Value, u1: Value, u2: Value)
    requires k1 != k2 && k1 !in Names(m) && k2 !in Names(m)
    ensures Set(Set(m + [Attr(k1, v1), Attr(k2, v2)], k1, u1), k2, u2) == m + [Attr(k1, u1), Attr(k2, u2)]
  {
    assert m + [Attr(k1, v1), Attr(k2, v2)] == m + [Attr(k1, v1)] + [Attr(k2, v2)];
    SetInPlace(m, k1, v1, [Attr(k2, v2)], u1);
    assert m + [Attr(k1, u1)] + [Attr(k2, v2)] == (m + [Attr(k1, u1)]) + [Attr(k2, v2)] + [];
    NamesAppend(m, Attr(k1, u1));
    SetInPlace(m + [Attr(k1, u1)], k2, v2, [], u2);
  }

  lemma {:induction false} GetAfterSet(m: AttrMap, k: string, v: Value, j: string)
    ensures Get(Set(m, k, v), j) == if j == k then Some(v) else Get(m, j)
  {
    if m != [] && m[0].name != k {
      GetAfterSet(m[1..], k, v, j);
    }
  }

  lemma {:induction false} SetKeepsUnique(m: AttrMap, k: string, v: Value)
    requires UniqueNames(m)
    ensures UniqueNames(Set(m, k, v))
  {
    if k in Names(m) {
      SetExistingKey(m, k, v);
      var r := Set(m, k, v);
      assert Names(r) == Names(m);
      forall i, j | 0 <= i < j < |r| ensures r[i].name != r[j].name {
        assert Names(r)[i] == Names(m)[i] && Names(r)[j] == Names(m)[j];
      }
    } else {
      SetNewKey(m, k, v);
      var r := m + [Attr(k, v)];
      forall i, j | 0 <= i < j < |r| ensures r[i].name != r[j].name {
        if j == |m| {
          assert Names(m)[i] == m[i].name;
        }
      }
    }
  }

  // ------------------------------------------------------------- setters

  /** The names `setAttr` / `setImgAttr` refuse to overwrite, compared after lowering. */
  const Protected: set<string> := {"src", "srcset", "sizes"}

  /** `setAttr` of Source.php and Img.php and `setImgAttr` of Picture.php. */
  function SetUnprotected(m: AttrMap, name: string, v: Value): AttrMap {
    if Lower(name) in Protected then m else Set(m, Lower(name), v)
  }

  /** `setPictureAttr` of Picture.php: any name, lowered. */
  function SetLowered(m: AttrMap, name: string, v: Value): AttrMap {
    Set(m, Lower(name), v)
  }

  lemma SetUnprotectedEffect(m: AttrMap, name: string, v: Value)
    ensures Lower(name) in Protected ==> SetUnprotected(m, name, v) == m
    ensures Lower(name) !in Protected ==>
      Get(SetUnprotected(m, name, v), Lower(name)) == Some(v) &&
      forall j :: j != Lower(name) ==> Get(SetUnprotected(m, name, v), j) == Get(m, j)
  {
    if Lower(name) !in Protected {
      forall j {
        GetAfterSet(m, Lower(name), v, j);
      }
    }
  }

  // ------------------------------------------------------- serialisation

  /** How a null-valued attribute is written: as its bare name, or, as the
      `render` of Img.php has it, followed by a stray quote. */
  datatype NullStyle = Bare | StrayQuote

  /** One attribute with its trailing separator, as the render loops append it. */
  function Piece(a: Attr, style: NullStyle): string {
    if a.value.Null? then (if style == StrayQuote then a.name + "\" " else a.name + " ")
    else a.name + "=\"" + Text(a.value) + "\" "
  }

  /** The render loops skip an attribute when its value is empty and its
      name is one of `skip`. */
  predicate Skipped(a: Attr, skip: set<string>) {
    Empty(a.value) && a.name in skip
  }

  /** `$tagContent` after the render loop over `m`. */
  function Content(m: AttrMap, skip: set<string>, style: NullStyle): string {
    if m == [] then ""
    else Content(m[..|m| - 1], skip, style)
         + (if Skipped(m[|m| - 1], skip) then "" else Piece(m[|m| - 1], style))
  }

  /** No attribute of `m` is null-valued. */
  predicate NoNulls(m: AttrMap) {
    forall i :: 0 <= i < |m| ==> !m[i].value.Null?
  }

  /** The two null styles write the same content when no value is null. */
  lemma {:induction false} ContentWithoutNulls(m: AttrMap, skip: set<string>)
    ensures NoNulls(m) ==> Content(m, skip, StrayQuote) == Content(m, skip, Bare)
  {
    if m != [] && NoNulls(m) {
      var init := m[..|m| - 1];
      assert NoNulls(init) by {
        forall i | 0 <= i < |init| ensures !init[i].value.Null? { assert init[i] == m[i]; }
      }
      ContentWithoutNulls(init, skip);
    }
  }

  /** `rtrim($tagContent)`. */
  function AttributeText(m: AttrMap, skip: set<string>, style: NullStyle): string {
    RTrim(Content(m, skip, style))
  }

  /** `"<{$element} {$tagContent}>"`. */
  function Tag(element: string, m: AttrMap, skip: set<string>, style: NullStyle): string {
    "<" + element + " " + AttributeText(m, skip, style) + ">"
  }

  /** Attributes the `<img>` renders skip when empty. */
  const ImgSkip: set<string> := {"srcset", "sizes"}

  /** Attributes the `<picture>` render skips: none. */
  const PictureSkip: set<string> := {}

  /** Attributes the `<source>` render skips when empty. */
  const SourceSkip: set<string> := {"srcset", "sizes", "media", "type"}

  /** The render loop over `m`: appends each kept attribute, then trims. */
  method RenderAttributes(m: AttrMap, skip: set<string>, style: NullStyle) returns (text: string)
    ensures text == AttributeText(m, skip, style)
  {
    var content := "";
    var i := 0;
    while i < |m|
      invariant 0 <= i <= |m|
      invariant content == Content(m[..i], skip, style)
    {
      var a := m[i];
      assert m[..i + 1][..i] == m[..i];
      if !(Empty(a.value) && a.name in skip) {
        content := content + Piece(a, style);
      }
      i := i + 1;
    }
    assert m[..|m|] == m;
    text := RTrim(content);
  }

  // -------------------- what the rendered attribute text consists of

  /** The attributes the loop writes, in their order. */
  function Kept(m: AttrMap, skip: set<string>): AttrMap {
    if m == [] then []
    else Kept(m[..|m| - 1], skip) + (if Skipped(m[|m| - 1], skip) then [] else [m[|m| - 1]])
  }

  /** One attribute as it reads in the tag: `name="value"` or `name`. */
  function Format(a: Attr): string {
    if a.value.Null? then a.name else a.name + "=\"" + Text(a.value) + "\""
  }

  function Formats(m: AttrMap): (r: seq<string>)
    ensures |r| == |m|
    ensures forall i :: 0 <= i < |m| ==> r[i] == Format(m[i])
  {
    seq(|m|, i requires 0 <= i < |m| => Format(m[i]))
  }

  /** The loop writes exactly the attributes that are not skipped. */
  lemma {:induction false} KeptMembers(m: AttrMap, skip: set<string>, a: Attr)
    ensures a in Kept(m, skip) <==> a in m && !Skipped(a, skip)
  {
    if m != [] {
      var init := m[..|m| - 1];
      KeptMembers(init, skip, a);
      assert m == init + [m[|m| - 1]];
    }
  }

  lemma KeptSnoc(m: AttrMap, a: Attr, skip: set<string>)
    ensures Kept(m + [a], skip) == Kept(m, skip) + (if Skipped(a, skip) then [] else [a])
  {
    assert (m + [a])[..|m + [a]| - 1] == m;
  }

  lemma FormatsAppend(x: AttrMap, y: AttrMap)
    ensures Formats(x + y) == Formats(x) + Formats(y)
  {
  }

  /** A null-valued attribute whose name ends in white space would lose it to `rtrim`. */
  predicate CleanEnd(a: Attr) {
    !a.value.Null? || (a.name != "" && a.name[|a.name| - 1] !in Whitespace)
  }

  lemma {:induction false} ContentIsSpacedKept(m: AttrMap, skip: set<string>)
    ensures Content(m, skip, Bare) == Spaced(Formats(Kept(m, skip)), " ")
  {
    if m != [] {
      var init := m[..|m| - 1];
      var a := m[|m| - 1];
      ContentIsSpacedKept(init, skip);
      var k := Kept(init, skip);
      if Skipped(a, skip) {
        assert Kept(m, skip) == k;
        assert Content(m, skip, Bare) == Content(init, skip, Bare);
      } else {
        assert Kept(m, skip) == k + [a];
        var fs := Formats(k + [a]);
        assert fs[..|fs| - 1] == Formats(k);
        assert fs[|fs| - 1] == Format(a);
        assert Spaced(fs, " ") == Spaced(Formats(k), " ") + Format(a) + " ";
        assert Piece(a, Bare) == Format(a) + " ";
        assert Content(m, skip, Bare) == Content(init, skip, Bare) + Piece(a, Bare);
      }
    }
  }

  /** With the bare-name style, the attribute text is the kept attributes,
      each written `name="value"` or `name`, joined by single spaces, in
      insertion order. */
  lemma AttributeTextIsJoin(m: AttrMap, skip: set<string>)
    requires forall i :: 0 <= i < |m| ==> CleanEnd(m[i])
    ensures AttributeText(m, skip, Bare) == Join(Formats(Kept(m, skip)), " ")
  {
    ContentIsSpacedKept(m, skip);
    var k := Kept(m, skip);
    if k != [] {
      var fs := Formats(k);
      SpacedIsJoinPlusSep(fs, " ");
      var last := k[|k| - 1];
      KeptMembers(m, skip, last);
      assert last in m;
      assert fs[|fs| - 1] != "" && fs[|fs| - 1][|fs[|fs| - 1]| - 1] !in Whitespace;
      JoinLast(fs, " ");
      RTrimCharsTail(Join(fs, " "), " ", Whitespace);
    }
  }

  // ---------------------------------------------- srcset candidate lists

  /** The characters `rtrim($srcsetHtml, ', ')` strips. */
  const ListTrim: set<char> := {',', ' '}

  /** The loop `$srcsetHtml .= $candidate . ', ';` followed by
      `rtrim($srcsetHtml, ', ')`. */
  method JoinCandidates(candidates: seq<string>) returns (html: string)
    ensures html == RTrimChars(Spaced(candidates, ", "), ListTrim)
  {
    html := "";
    var i := 0;
    while i < |candidates|
      invariant 0 <= i <= |candidates|
      invariant html == Spaced(candidates[..i], ", ")
    {
      assert candidates[..i + 1][..i] == candidates[..i];
      html := html + candidates[i] + ", ";
      i := i + 1;
    }
    assert candidates[..|candidates|] == candidates;
    html := RTrimChars(html, ListTrim);
  }

  /** When the last candidate does not end in a comma or a space, the trimmed
      loop output is exactly the candidates joined by ", ". */
  lemma TrimmedCandidatesAreJoin(candidates: seq<string>)
    requires candidates != [] ==> candidates[|candidates| - 1] != "" && candidates[|candidates| - 1][|candidates[|candidates| - 1]| - 1] !in ListTrim
    ensures RTrimChars(Spaced(candidates, ", "), ListTrim) == Join(candidates, ", ")
  {
    if candidates != [] {
      SpacedIsJoinPlusSep(candidates, ", ");
      JoinLast(candidates, ", ");
      RTrimCharsTail(Join(candidates, ", "), ", ", ListTrim);
    }
  }
}
