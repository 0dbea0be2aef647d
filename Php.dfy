/** The part of PHP's runtime that the responsive-image classes rely on:
    optional and failing values, the throwables they raise, truthiness, and
    the string built-ins they call (`strtolower`, `str_ends_with`, `strpos`,
    `str_replace`, `implode`, `rtrim`, `pathinfo`, integer interpolation). */
module Php {

  datatype Option<+T> = None | Some(value: T)

  datatype Result<+T, +E> = Success(value: T) | Failure(error: E)

  /** What the code can throw. The first three are `\Exception`s; the last
      two are engine-level `\Error`s, which `catch (\Exception $ex)` does not catch. */
  datatype Error =
    | InvalidArgument(message: string)   // \InvalidArgumentException
    | Runtime(message: string)           // \RuntimeException
    | AqException                        // \Aq_Exception, raised inside the resize engine
    | TypeError(message: string)         // \TypeError
    | FatalError(message: string)        // any other \Error, such as a call to an undefined method

  predicate IsException(e: Error) {
    !e.TypeError? && !e.FatalError?
  }

  /** `(bool) $s` for a string: only "" and "0" are false. */
  predicate Truthy(s: string) {
    s != "" && s != "0"
  }

  /** `(bool) $x` for `int|null`: only null and 0 are false. */
  predicate IntTruthy(x: Option<int>) {
    x.Some? && x.value != 0
  }

  /** `$x ?: null` for `int|null`. */
  function NullIfFalsy(x: Option<int>): (r: Option<int>)
    ensures r.Some? <==> IntTruthy(x)
    ensures r.Some? ==> r == x
  {
    if IntTruthy(x) then x else None
  }

  // ---------------------------------------------------------------- strtolower

  /** PHP 8 `strtolower` is locale-independent: only ASCII letters change. */
  function LowerChar(c: char): char {
    if 'A' <= c <= 'Z' then (c as int + 32) as char else c
  }

  function Lower(s: string): (r: string)
    ensures |r| == |s|
    ensures forall i :: 0 <= i < |s| ==> r[i] == LowerChar(s[i])
  {
    seq(|s|, i requires 0 <= i < |s| => LowerChar(s[i]))
  }

  lemma LowerIdempotent(s: string)
    ensures Lower(Lower(s)) == Lower(s)
  {
  }

  // ---------------------------------------------------- prefixes and suffixes

  /** `!strncmp($s, $prefix, strlen($prefix))`, and `strpos($s, $prefix) === 0`. */
  predicate StartsWith(s: string, prefix: string) {
    |prefix| <= |s| && s[..|prefix|] == prefix
  }

  /** `str_ends_with($s, $suffix)`. */
  predicate EndsWith(s: string, suffix: string) {
    |suffix| <= |s| && s[|s| - |suffix|..] == suffix
  }

  /** `strpos($s, $needle) !== false`. An empty needle is found at 0. */
  predicate Occurs(needle: string, s: string)
    decreases |s|
  {
    StartsWith(s, needle) || (s != [] && Occurs(needle, s[1..]))
  }

  /** An occurrence that starts inside `s` is still one after a character
      that cannot start the needle is put in front. */
  lemma {:induction false} OccursAfterForeignChar(needle: string, c: char, s: string)
    requires needle != [] && needle[0] != c
    ensures Occurs(needle, [c] + s) <==> Occurs(needle, s)
  {
    var cs := [c] + s;
    assert cs[1..] == s;
    if |needle| <= |cs| {
      assert cs[..|needle|][0] == c;
    }
    assert !StartsWith(cs, needle);
  }

  lemma {:induction false} NotOccursAfterForeignPrefix(needle: string, p: string, s: string)
    requires needle != [] && forall i :: 0 <= i < |p| ==> p[i] != needle[0]
    ensures Occurs(needle, p + s) <==> Occurs(needle, s)
  {
    if p != [] {
      var rest := p[1..];
      assert forall i :: 0 <= i < |rest| ==> rest[i] == p[i + 1];
      NotOccursAfterForeignPrefix(needle, rest, s);
      assert p + s == [p[0]] + (rest + s);
      assert p[0] != needle[0];
      OccursAfterForeignChar(needle, p[0], rest + s);
    } else {
      assert p + s == s;
    }
  }

  lemma {:induction false} OccursAtStart(needle: string, s: string)
    ensures Occurs(needle, needle + s)
  {
    assert (needle + s)[..|needle|] == needle;
  }

  // ------------------------------------------------------------- str_replace

  /** `str_replace($search, $replace, $s)`: every non-overlapping occurrence,
      scanned left to right, is replaced; an empty search changes nothing. */
  function ReplaceAll(s: string, search: string, replace: string): string
    decreases |s|
  {
    if search == [] || s == [] then s
    else if StartsWith(s, search) then replace + ReplaceAll(s[|search|..], search, replace)
    else [s[0]] + ReplaceAll(s[1..], search, replace)
  }

  lemma {:induction false} ReplaceAllAbsent(s: string, search: string, replace: string)
    requires !Occurs(search, s)
    ensures ReplaceAll(s, search, replace) == s
  {
    if search != [] && s != [] {
      ReplaceAllAbsent(s[1..], search, replace);
      assert [s[0]] + s[1..] == s;
    }
  }

  lemma {:induction false} ReplaceAllLeading(search: string, rest: string, replace: string)
    requires search != []
    ensures ReplaceAll(search + rest, search, replace) == replace + ReplaceAll(rest, search, replace)
  {
    assert (search + rest)[..|search|] == search;
    assert (search + rest)[|search|..] == rest;
  }

  // ----------------------------------------------------------------- implode

  /** `implode($sep, $parts)`. */
  function Join(parts: seq<string>, sep: string): string {
    if parts == [] then ""
    else if |parts| == 1 then parts[0]
    else Join(parts[..|parts| - 1], sep) + sep + parts[|parts| - 1]
  }

  /** The string a loop `$html .= $part . $sep;` builds from "". */
  function Spaced(parts: seq<string>, sep: string): string {
    if parts == [] then "" else Spaced(parts[..|parts| - 1], sep) + parts[|parts| - 1] + sep
  }

  lemma {:induction false} SpacedIsJoinPlusSep(parts: seq<string>, sep: string)
    requires parts != []
    ensures Spaced(parts, sep) == Join(parts, sep) + sep
  {
    var init := parts[..|parts| - 1];
    if init != [] {
      SpacedIsJoinPlusSep(init, sep);
    } else {
      assert Spaced(init, sep) == "";
    }
  }

  lemma {:induction false} JoinLast(parts: seq<string>, sep: string)
    requires parts != [] && parts[|parts| - 1] != ""
    ensures Join(parts, sep) != "" && Join(parts, sep)[|Join(parts, sep)| - 1] == parts[|parts| - 1][|parts[|parts| - 1]| - 1]
  {
  }

  lemma {:induction false} JoinFirst(parts: seq<string>, sep: string)
    requires parts != [] && parts[0] != ""
    ensures Join(parts, sep) != "" && Join(parts, sep)[0] == parts[0][0]
  {
    if |parts| > 1 {
      var init := parts[..|parts| - 1];
      assert init[0] == parts[0];
      JoinFirst(init, sep);
    }
  }

  // ------------------------------------------------------------------- rtrim

  /** `rtrim($s, $chars)`: strips every trailing character in `cs`. */
  function RTrimChars(s: string, cs: set<char>): (r: string)
    ensures |r| <= |s| && r == s[..|r|]
    ensures r == [] || r[|r| - 1] !in cs
    ensures forall i :: |r| <= i < |s| ==> s[i] in cs
  {
    if s != [] && s[|s| - 1] in cs then RTrimChars(s[..|s| - 1], cs) else s
  }

  /** The characters `rtrim` strips when it is given none. */
  const Whitespace: set<char> := {' ', '\t', '\n', '\r', '\0', 11 as char}

  /** `rtrim($s)`. */
  function RTrim(s: string): string {
    RTrimChars(s, Whitespace)
  }

  /** Trimming a string whose strippable tail is exactly `tail` gives the rest. */
  lemma {:induction false} RTrimCharsTail(s: string, tail: string, cs: set<char>)
    requires s == [] || s[|s| - 1] !in cs
    requires forall i :: 0 <= i < |tail| ==> tail[i] in cs
    ensures RTrimChars(s + tail, cs) == s
  {
    if tail == [] {
      assert s + tail == s;
    } else {
      var init := tail[..|tail| - 1];
      assert (s + tail)[..|s + tail| - 1] == s + init;
      assert (s + tail)[|s + tail| - 1] == tail[|tail| - 1];
      RTrimCharsTail(s, init, cs);
    }
  }

  /** `rtrim` of a string ending in a non-blank followed by one space drops just that space. */
  lemma RTrimOneSpace(u: string)
    requires u != [] && u[|u| - 1] !in Whitespace
    ensures RTrim(u + " ") == u
  {
    RTrimCharsTail(u, " ", Whitespace);
  }

  // --------------------------------------------------------- integer strings

  function DigitChar(d: nat): char
    requires d < 10
  {
    "0123456789"[d]
  }

  predicate IsDigit(c: char) {
    '0' <= c <= '9'
  }

  /** Decimal digits of `n`, most significant first, without leading zeros. */
  function NatToString(n: nat): (r: string)
    ensures r != []
    ensures forall i :: 0 <= i < |r| ==> IsDigit(r[i])
    ensures (r[0] == '0') <==> (n == 0)
  {
    if n < 10 then [DigitChar(n)] else NatToString(n / 10) + [DigitChar(n % 10)]
  }

  /** String interpolation of an int: `"{$i}"`. */
  function IntToString(i: int): (r: string)
    ensures r != []
    ensures i != 0 ==> r != "0"
  {
    if i < 0 then "-" + NatToString(-i) else NatToString(i)
  }

  // ------------------------------------------------------------ pathinfo

  /** The part of `s` after its last `c`, if `s` has one. */
  function AfterLast(s: string, c: char): (r: Option<string>)
    ensures r.Some? ==> |r.value| < |s| && s[|s| - |r.value| - 1] == c && r.value == s[|s| - |r.value|..]
    ensures r.Some? ==> forall i :: 0 <= i < |r.value| ==> r.value[i] != c
    ensures r.None? ==> forall i :: 0 <= i < |s| ==> s[i] != c
  {
    if s == [] then None
    else if s[|s| - 1] == c then Some("")
    else match AfterLast(s[..|s| - 1], c)
      case None => None
      case Some(tail) => Some(tail + [s[|s| - 1]])
  }

  /** `basename($path)`: trailing slashes dropped, then what follows the last slash. */
  function Basename(path: string): string {
    var trimmed := RTrimChars(path, {'/'});
    match AfterLast(trimmed, '/')
    case Some(b) => b
    case None => trimmed
  }

  /** `pathinfo($path, PATHINFO_EXTENSION)`: what follows the last dot of the
      base name, or "" when it has no dot. */
  function Extension(path: string): string {
    match AfterLast(Basename(path), '.')
    case Some(e) => e
    case None => ""
  }

  lemma {:induction false} AfterLastOfSuffix(p: string, c: char, e: string)
    requires forall i :: 0 <= i < |e| ==> e[i] != c
    ensures AfterLast(p + [c] + e, c) == Some(e)
  {
    var s := p + [c] + e;
    if e == [] {
      assert s[|s| - 1] == c;
    } else {
      var init := e[..|e| - 1];
      assert s[..|s| - 1] == p + [c] + init;
      AfterLastOfSuffix(p, c, init);
      assert init + [e[|e| - 1]] == e;
    }
  }

  /** A path whose last segment ends in `.e`, where `e` holds no dot and no
      slash, has extension `e`. */
  lemma ExtensionOf(p: string, e: string)
    requires forall i :: 0 <= i < |e| ==> e[i] != '.' && e[i] != '/'
    ensures Extension(p + "." + e) == e
  {
    var path := p + "." + e;
    assert path[|path| - 1] != '/';
    assert RTrimChars(path, {'/'}) == path;
    var b := Basename(path);
    AfterLastOfSuffix(p, '.', e);
    match AfterLast(path, '/')
    case None =>
      assert b == path;
    case Some(tail) =>
      assert b == tail;
      // the last slash lies in `p`, so what follows it still ends in ".e"
      var k := |path| - |tail| - 1;
      forall j | |p| <= j < |path|
        ensures path[j] != '/'
      {
        if j > |p| {
          assert path[j] == e[j - |p| - 1];
        }
      }
      assert k < |p|;
      var q := p[k + 1..];
      assert tail == q + "." + e;
      AfterLastOfSuffix(q, '.', e);
  }

  // ------------------------------------------------------------------- round

  /** `round($x)`: the nearest integer, halves rounded away from zero. */
  function Round(x: real): (r: int)
    ensures x - 0.5 <= r as real <= x + 0.5
    ensures x >= 0.0 ==> r >= 0
    ensures x <= 0.0 ==> r <= 0
    ensures x - x.Floor as real == 0.5 ==> r == if x >= 0.0 then x.Floor + 1 else x.Floor
  {
    if x >= 0.0 then (x + 0.5).Floor else -((-x + 0.5).Floor)
  }

  /** Rounding is odd: it treats halves and their negations alike. */
  lemma RoundOdd(x: real)
    ensures Round(-x) == -Round(x)
  {
    if x == 0.0 {
      assert -x == 0.0;
    }
  }
}
