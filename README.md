# Responsive images for WordPress, modelled in Dafny

This project models the markup layer of the wp-responsive-images plugin. That layer turns an image URL and a
`media query => width` list into an `<img>` tag with `srcset` and `sizes`, or a `<picture>` tag with one
`<source>` per media query. The pieces are:

- **Value objects.**
  - `Size` is one `sizes` entry.
  - `SrcsetItem` is one srcset candidate.
  - `Source`, `Img` and `Picture` are the three elements. Each keeps its attributes in an insertion-ordered
    PHP array and serialises them to a tag.
- **`Resizer`**: a mutable five-field resize request with fluent setters. Its `resize()` checks its guards,
  then calls an external resize engine.
- **`ImgUtils`**:
  - the URL helpers: `getAttachmentPathByUrl`, `getAttachmentInfoByPath`, `isSvgByAttachmentUrl` and
    `resizeImg`;
  - the two builders `img()` and `picture()`. Each loops over the width list, drives one shared `Resizer`,
    and finally catches every `\Exception` into an empty string.

The modules follow the source files:

| module | file |
|---|---|
| `Php` | the PHP built-ins the code relies on |
| `Markup` | attribute arrays and tag text |
| `Sizes` | `Size.php` |
| `SrcsetItems` | `SrcsetItem.php` |
| `Sources` | `Source.php` |
| `Imgs` | `Img.php` |
| `Pictures` | `Picture.php` |
| `Resizers` | `Resizer.php` |
| `ImgUtils` | `ImgUtils.php`, URL helpers |
| `Builders` | `ImgUtils.php`, `img()` and `picture()` |

**Dafny form.**
- Classes whose fields the code updates in place are Dafny classes, with `modifies` clauses on their methods: `Resizer`, `Source`, `Img` and `Picture`.
- Their loops (the render loops, `resolveSrcset`, the builder loops) are `while` loops with invariants.
- Each method is proved against a specification function: `ImgAttrs`, `InitialAttrs`, `PictureImgAttrs`, `AttributeText`, `ImgParts`, `PictureMaps`, `ImgOutput`, `PictureOutput`.
- Properties of those functions are proved as lemmas.
- `Size` and `SrcsetItem` are assigned once in their constructors, so they are datatypes. A subset type carries each one's guard.
- Every operation that can throw returns a `Result` whose error names the throwable.
- Both builders are modelled over the corrected `Source::resolveSrcset` and the corrected `<img>` render, which writes a null value as its bare name. As written, `picture()` with a non-empty width list lets an uncaught `\Error` out of `Source::make` (Source.php:137 and 141, reached from ImgUtils.php:259), and `img()` writes a null attribute as `name"` (Img.php:144). Both are under "## Findings", and the rows built on the corrections say so.

**PHP semantics the model keeps.**
- **Truthiness.**
  - The strings `""` and `"0"` are false, and so are `0` and `null`.
  - So `Size::make('', '0')` is refused.
  - A srcset candidate can never have the default descriptor `''`: the constructor's own guard rejects a descriptor that ends in neither `w` nor `x`.
- **Attribute arrays.** An array assignment overwrites an existing key in place and appends a new key.
  - `rtrim` strips the trailing separator.
  - `implode` joins the parts.
- **What `catch (\Exception)` catches.**
  - An engine that returns `false` breaks the `array` return type of `Resizer::resize()`. PHP reports this as a `\TypeError`.
  - A `null` URL passed to a `string` parameter is also a `\TypeError`.
  - `\TypeError` and other `\Error`s are not `\Exception`s, so they escape the builders' `catch (\Exception)` instead of turning into `''`.
- **Picture versus Img dimensions.**
  - `Picture` keeps a given pair of non-zero dimensions even for an SVG image.
  - `Img` never writes dimensions for an SVG image.

## Model

| member | source | states |
|---|---|---|
| Php.NullIfFalsy | src/ResponsiveImages/SrcsetItem.php:177-178 | `$x ?: null` is the value exactly when it is non-null and non-zero, and null otherwise |
| Php.Lower | src/ResponsiveImages/Source.php:86-89 | `strtolower` keeps the length and lowers each ASCII letter, position by position |
| Php.LowerIdempotent | src/ResponsiveImages/Img.php:121-124 | lowering an already lowered name changes nothing, so a stored key is in its final form |
| Php.SpacedIsJoinPlusSep | src/ResponsiveImages/Img.php:195-198 | the loop `$html .= $part . $sep` over a non-empty list gives the `implode` of the list plus one trailing separator |
| Php.RTrimChars | src/ResponsiveImages/Source.php:143 | `rtrim($s, $chars)` gives a prefix of `s` that does not end in `chars`, and everything it dropped is in `chars` |
| Php.RTrimCharsTail | src/ResponsiveImages/Source.php:143 | trimming a string whose tail consists only of trimmed characters, and whose rest ends outside them, gives exactly that rest |
| Php.RTrimOneSpace | src/ResponsiveImages/Img.php:146 | `rtrim` of a text ending in a non-blank character plus one space drops exactly that space |
| Php.NatToString | src/ImgUtils.php:375 | integer interpolation gives a non-empty string of decimal digits that starts with '0' only for zero |
| Php.IntToString | src/ImgUtils.php:375 | the interpolation of a non-zero integer is never the falsy string "0" |
| Php.AfterLast | src/ImgUtils.php:499 | the text after the last occurrence of a character contains no such character, and is absent when `s` has none |
| Php.ExtensionOf | src/ImgUtils.php:499 | `pathinfo(..., PATHINFO_EXTENSION)` of a path ending in `.e`, where `e` holds no dot or slash, is `e` |
| Php.Round | src/ImgUtils.php:245 | `round` gives the integer within one half of its argument, with the argument's sign, and rounds a half away from zero |
| Php.RoundOdd | src/ImgUtils.php:379 | `round` is symmetric about zero: rounding `-x` gives the negation of rounding `x` |
| Php.OccursAtStart | src/ImgUtils.php:102 | `strpos` finds a string at the start of any string it begins |
| Php.NotOccursAfterForeignPrefix | src/ImgUtils.php:102 | a prefix that contains no first character of the needle neither adds nor hides an occurrence of it |
| Php.OccursAfterForeignChar | src/ImgUtils.php:102 | a character that cannot start the needle, put in front, neither adds nor hides an occurrence |
| Php.ReplaceAllAbsent | src/ImgUtils.php:107 | `str_replace` of a search string that does not occur leaves the subject unchanged |
| Php.ReplaceAllLeading | src/ImgUtils.php:107 | `str_replace` of a leading occurrence replaces it and scans on after it |
| Php.JoinFirst | src/ResponsiveImages/Picture.php:160-161 | an `implode` whose first part is non-empty starts with that part's first character |
| Php.JoinLast | src/ResponsiveImages/Img.php:199 | an `implode` whose last part is non-empty ends with that part's last character |
| Markup.SetNewKey | src/ResponsiveImages/Img.php:61 | assigning to a key that is not in the array appends it at the end |
| Markup.SetExistingKey | src/ResponsiveImages/Img.php:176-177 | assigning to a key that is already present keeps the array's keys and their order |
| Markup.SetInPlace | src/ResponsiveImages/Img.php:176-177 | assigning to a present key rewrites its entry where it stands and leaves every other entry as it was |
| Markup.SetTwoNewKeys | src/ResponsiveImages/Img.php:170-171 | assigning width and then height to an array that has neither appends both, in that order |
| Markup.SetTwoKeysAgain | src/ResponsiveImages/Img.php:176-177 | assigning width and height again rewrites both in place, so they keep their positions after sizes |
| Markup.GetAfterSet | src/ResponsiveImages/Source.php:89 | after `$m[$k] = $v`, reading `$k` gives `$v`, and reading any other key gives what it gave before |
| Markup.GetAppend | src/ResponsiveImages/Img.php:174 | a key is read from the first half of two arrays put end to end when it is there, and from the second otherwise |
| Markup.NamesAppend | src/ResponsiveImages/Img.php:61 | appending an attribute appends its name to the keys |
| Markup.SetKeepsUnique | src/ResponsiveImages/Source.php:89 | no assignment makes a key appear twice |
| Markup.SetUnprotectedEffect | src/ResponsiveImages/Source.php:84-92 | `setAttr` leaves the array unchanged when the lowered name is src, srcset or sizes. Otherwise it stores the value under the lowered name and changes no other key |
| Markup.RenderAttributes | src/ResponsiveImages/Source.php:104-113 | the render loop appends every attribute that is not empty-and-skipped, then right-trims. Its result is the attribute text function |
| Markup.ContentWithoutNulls | src/ResponsiveImages/Img.php:140-145 | with no null value among the attributes, the as-written and corrected null styles write the same text |
| Markup.KeptMembers | src/ResponsiveImages/Source.php:105-108 | the loop writes an attribute exactly when it is in the array and is not an empty attribute of the skipped kind |
| Markup.KeptSnoc | src/ResponsiveImages/Source.php:105-112 | one more attribute either adds itself to what is written or is skipped |
| Markup.FormatsAppend | src/ResponsiveImages/Source.php:109-111 | attributes put end to end are written end to end |
| Markup.ContentIsSpacedKept | src/ResponsiveImages/Source.php:105-112 | the loop text is the kept attributes, each written `name="value"` or as its bare name, each followed by one space |
| Markup.AttributeTextIsJoin | src/ResponsiveImages/Source.php:105-113 | the trimmed text is the kept attributes joined by single spaces, in insertion order |
| Markup.JoinCandidates | src/ResponsiveImages/Img.php:191-199 | the candidate loop followed by `rtrim(..., ', ')` is the trimmed ", "-spaced list |
| Markup.TrimmedCandidatesAreJoin | src/ResponsiveImages/Img.php:195-199 | when the last candidate ends outside ", ", the trimmed loop text is the candidates joined by ", " |
| Resizers.Resizer.constructor | src/ResponsiveImages/Resizer.php:42-54 | the five fields hold the arguments as given. Crop and upscale default to true, and the other three to null |
| Resizers.ResizeOutcome | src/ResponsiveImages/Resizer.php:134-148 | a falsy origin URL is refused first, then a null or zero width. Past the guards the engine's image is the result exactly when it gives one. An `\Aq_Exception` passes through, a `false` is an Error that is not an Exception, and the only Exceptions are the guards' and the engine's |
| Resizers.Resizer.GetOriginUrl | src/ResponsiveImages/Resizer.php:153-156 | the origin URL of the current request |
| Resizers.Resizer.GetWidth | src/ResponsiveImages/Resizer.php:173-176 | the width of the current request |
| Resizers.Resizer.GetHeight | src/ResponsiveImages/Resizer.php:193-196 | the height of the current request |
| Resizers.Resizer.GetCrop | src/ResponsiveImages/Resizer.php:213-216 | the crop flag of the current request |
| Resizers.Resizer.GetUpscale | src/ResponsiveImages/Resizer.php:233-236 | the upscale flag of the current request |
| Resizers.Resizer.MakeWithUrl | src/ResponsiveImages/Resizer.php:68-76 | a fresh Resizer whose origin URL is the argument, with everything else as passed or defaulted |
| Resizers.Resizer.Resize | src/ResponsiveImages/Resizer.php:134-148 | a falsy origin URL is refused first, then a null or zero width. Only after that is the engine called on the current (url, width, height, crop, upscale). Its image is the result, and a `false` from it is a TypeError |
| Resizers.Resizer.SetOriginUrl | src/ResponsiveImages/Resizer.php:163-168 | returns the same instance, changes the origin URL to the argument, and no other field |
| Resizers.Resizer.SetWidth | src/ResponsiveImages/Resizer.php:183-188 | returns the same instance, changes the width to the argument, and no other field |
| Resizers.Resizer.SetHeight | src/ResponsiveImages/Resizer.php:203-208 | returns the same instance, changes the height to the argument, and no other field |
| Resizers.Resizer.SetCrop | src/ResponsiveImages/Resizer.php:223-228 | returns the same instance, changes crop to the argument, and no other field |
| Resizers.Resizer.SetUpscale | src/ResponsiveImages/Resizer.php:243-248 | returns the same instance, changes upscale to the argument, and no other field |
| ImgUtils.ResizeImg | src/ImgUtils.php:31-49 | fails only when the engine throws. A truthy URL from the engine is the result. A false result or a falsy URL gives the scheme-prefixed input |
| ImgUtils.SchemePrefixed | src/ImgUtils.php:42-44 | a falsy URL, or one starting with "http", is left as it is. Any truthy URL comes out starting with "http", and the input is always its suffix |
| ImgUtils.ResizeImgPrefixing | src/ImgUtils.php:42-44 | only a truthy URL that does not start with "http" gets "https:" or "http:" in front, as `is_ssl` says |
| ImgUtils.ResizeImgProtocolRelative | src/ImgUtils.php:42-44 | a protocol-relative URL `//rest` reaches the engine as `https://rest` or `http://rest` |
| ImgUtils.ResizeImgFallback | src/ImgUtils.php:46-48 | when the engine returns false or a falsy URL, the result is the prefixed input URL |
| ImgUtils.GetAttachmentPathByUrl | src/ImgUtils.php:61-111 | an empty URL is an InvalidArgumentException. A URL not containing the scheme-aligned upload URL is a RuntimeException. A path it returns starts with the upload directory |
| ImgUtils.AlignScheme | src/ImgUtils.php:77-99 | a URL with no http, https or protocol-relative scheme leaves the upload URL as it is, and so does an upload URL that names neither `http://` nor `https://` |
| ImgUtils.AlignSchemeOfUploadUrl | src/ImgUtils.php:77-99 | for upload URL `scheme + host` the upload URL takes https for an https URL, http for an http URL and `//` for a protocol-relative one, and is unchanged otherwise |
| ImgUtils.OtherSchemeAbsent | src/ImgUtils.php:82-88 | replacing one scheme cannot touch an upload URL that uses the other one |
| ImgUtils.RelativeAbsent | src/ImgUtils.php:94-98 | after the `//` rewrite no `http://` or `https://` is left to replace |
| ImgUtils.ReplaceLeadingScheme | src/ImgUtils.php:82-98 | replacing the leading scheme of an upload URL whose host names no scheme swaps just that scheme |
| ImgUtils.SchemeTailsHaveNoH | src/ImgUtils.php:71-73 | the three scheme constants hold no 'h' past the first letter |
| ImgUtils.LocalPathOfUploadedUrl | src/ImgUtils.php:101-110 | a URL made of the aligned upload URL and a relative path that does not repeat it becomes the upload directory followed by that path |
| ImgUtils.LocalPathAcrossSchemes | src/ImgUtils.php:61-111 | the same uploaded file reached by an http, https or protocol-relative URL maps to the same local path |
| ImgUtils.GetAttachmentInfoByPath | src/ImgUtils.php:123-142 | succeeds exactly when the file exists and the probe gives two non-zero sizes, and then returns them. A missing file is an InvalidArgumentException |
| ImgUtils.ProbeUrl | src/ResponsiveImages/Img.php:174 | the path-then-probe chain succeeds exactly when both steps do, and then gives non-zero dimensions |
| ImgUtils.IsSvgByExtension | src/ImgUtils.php:495-506 | for a URL whose path ends in `.e`, the URL is SVG exactly when it is truthy and `e` lowers to "svg" |
| ImgUtils.IsSvgByAttachmentUrl | src/ImgUtils.php:495-506 | a URL is SVG exactly when it is truthy and the extension of its path is "svg" with each letter in either case |
| ImgUtils.LowerIsSvg | src/ImgUtils.php:500 | `strtolower` gives "svg" for exactly the eight mixed-case spellings of "svg" |
| ImgUtils.UpperCaseSvg | src/ImgUtils.php:500 | an example of `LowerIsSvg`: "SVG" and "Svg" lower to "svg" |
| ImgUtils.EmptyUrlIsNotSvg | src/ImgUtils.php:497 | "" and "0" are never SVG |
| Sizes.Make | src/ResponsiveImages/Size.php:26-60 | succeeds exactly when the slot width is truthy, so "" and "0" are refused. It then keeps both fields, and otherwise fails with the guard's message |
| Sizes.Renders | src/ResponsiveImages/Source.php:37 | `implode` renders each size in turn, in order |
| Sizes.RenderShape | src/ResponsiveImages/Size.php:68-77 | `render()` (and `__toString()`) is never falsy and ends in the slot. It starts with the media and a space when the media is truthy, and is exactly the slot otherwise |
| Sizes.RenderRoundTrip | src/ResponsiveImages/Size.php:68-71 | for a slot without spaces, splitting the rendered text at its last space gives back the media and the slot, so rendering loses nothing |
| Sizes.SizesTextShape | src/ResponsiveImages/Img.php:61 | the joined sizes are empty exactly when there are no sizes, and one size joins to its own rendering |
| SrcsetItems.ResolveDims | src/ResponsiveImages/SrcsetItem.php:175-185 | both non-zero dimensions are kept verbatim without probing. Otherwise both come from the file probe, and any dimensions it gives are non-zero |
| SrcsetItems.Make | src/ResponsiveImages/SrcsetItem.php:47-81 | an empty URL is refused first, then a descriptor ending in neither w nor x. An SVG URL gets no dimensions, and any other URL gets the resolved ones. The getters' URL, descriptor and lazy flag are the arguments |
| SrcsetItems.GetWidth | src/ResponsiveImages/SrcsetItem.php:105-108 | gives the width when the property was set. Reading an unset width raises the uninitialised-typed-property `\Error`, which is not an Exception |
| SrcsetItems.GetHeight | src/ResponsiveImages/SrcsetItem.php:113-116 | the same for the height |
| SrcsetItems.GettersOfMadeItem | src/ResponsiveImages/SrcsetItem.php:47-63 | on an SVG item, `getWidth()` and `getHeight()` raise that `\Error`. On any other item they give the resolved dimensions, both non-zero |
| SrcsetItems.DefaultDescriptorRejected | src/ResponsiveImages/SrcsetItem.php:49 | the default descriptor `''` always fails the guard |
| SrcsetItems.WithResize | src/ResponsiveImages/SrcsetItem.php:150-162 | a null origin URL is a TypeError. An SVG origin gives `SrcsetItem::make` of the origin URL without dimensions. For any other origin, a failed `resize()` passes its error on. A falsy engine URL is a TypeError. A truthy one gives `SrcsetItem::make` of the engine's URL and dimensions, where a zero dimension counts as none and so sends `make` to the file probe. A raster item made from two non-zero engine dimensions has exactly those. A made item keeps the descriptor and lazy flag |
| SrcsetItems.MakeOfFalsyDims | src/ResponsiveImages/SrcsetItem.php:158-161 | a zero width or height handed to `make` is the same as null |
| SrcsetItems.MakeWithResize | src/ResponsiveImages/SrcsetItem.php:150-162 | the method on a live Resizer gives exactly `WithResize` of its current state |
| SrcsetItems.SvgOriginSkipsEngine | src/ResponsiveImages/SrcsetItem.php:152-155 | for an SVG origin the item is the same whatever the engine does, so `resize()` is never reached |
| SrcsetItems.ResizedItem | src/ResponsiveImages/SrcsetItem.php:156-161 | a resized raster image with both dimensions gives the item of the engine's URL and dimensions |
| SrcsetItems.DeclinedResizeIsError | src/ResponsiveImages/SrcsetItem.php:156 | an engine that returns false makes the item fail with an Error that is not an Exception |
| SrcsetItems.Candidates | src/ResponsiveImages/Img.php:195-196 | one candidate per item, in order |
| SrcsetItems.CandidateOfItem | src/ResponsiveImages/Img.php:196 | a valid item's candidate is `url + " " + descriptor` and ends in 'w' or 'x' |
| SrcsetItems.CandidateListIsJoin | src/ResponsiveImages/Img.php:191-202 | the trimmed candidate list is the candidates joined by ", ", and it is truthy exactly when there is an item |
| Sources.DedupSpec | src/ResponsiveImages/Source.php:137 | `array_unique` keeps each string once, keeps exactly the strings of its input, in the order of their first occurrences, and leaves a list without repeats unchanged |
| Sources.DedupOrder | src/ResponsiveImages/Source.php:137 | `array_unique` lists the strings in the order of their first occurrences |
| Sources.DedupDistinct | src/ResponsiveImages/Source.php:137 | `array_unique` keeps exactly the strings of its input, each once, and leaves a list without repeats unchanged |
| Sources.SrcsetText | src/ResponsiveImages/Source.php:132-147 | the srcset text is truthy exactly for a non-empty srcset, and one item gives its own candidate `url descriptor` (corrected, see Findings) |
| Sources.CandidatesEndInDescriptor | src/ResponsiveImages/Source.php:141 | every candidate ends in its descriptor's last letter |
| Sources.CleanListJoin | src/ResponsiveImages/Source.php:140-144 | a non-empty list ending in 'w' or 'x' survives the loop and `rtrim` as its join, which is truthy |
| Sources.SrcsetTextOfLoop | src/ResponsiveImages/Source.php:132-147 | the deduplicated candidates, looped and trimmed, give the srcset text, and that text is truthy exactly for a non-empty srcset (corrected, see Findings) |
| Sources.Source.constructor | src/ResponsiveImages/Source.php:35-37 | the attributes are media, type and sizes, in that order |
| Sources.InitialAttrs | src/ResponsiveImages/Source.php:35-38 | a new source's keys are media, type and sizes, then srcset exactly when the srcset is non-empty. Each holds its argument, and srcset holds the srcset text (corrected, see Findings) |
| Sources.Source.Make | src/ResponsiveImages/Source.php:24-73 | fails exactly on an empty srcset, with the guard's message. Otherwise the attributes are media, type, sizes and then the srcset text (corrected, see Findings) |
| Sources.Source.ResolveSrcset | src/ResponsiveImages/Source.php:132-147 | writes the deduplicated joined srcset for a non-empty srcset and leaves the attributes alone otherwise (corrected, see Findings) |
| Sources.Source.SetAttr | src/ResponsiveImages/Source.php:84-92 | returns the same instance, with the protected-name rule of `setAttr` applied to the attributes |
| Sources.Source.Render | src/ResponsiveImages/Source.php:100-116 | the `<source>` tag of the current attributes, dropping empty srcset, sizes, media and type |
| Sources.SrcsetAfterHead | src/ResponsiveImages/Source.php:35-38 | writing the srcset after the three constructor attributes gives the documented order |
| Sources.InitialSourceTag | src/ResponsiveImages/Source.php:100-116 | a fresh source's tag lists media, type and sizes only when truthy, then always the srcset, joined by spaces (corrected, see Findings) |
| Sources.SourceAttrsTag | src/ResponsiveImages/Source.php:104-113 | the same, for any truthy srcset text |
| Sources.SourceAttrsKept | src/ResponsiveImages/Source.php:105-108 | the render loop drops exactly the falsy ones of media, type and sizes |
| Sources.SourceAttrsFormats | src/ResponsiveImages/Source.php:109-111 | the kept attributes, written out |
| Sources.FormatsIfTruthy | src/ResponsiveImages/Source.php:106-110 | a string attribute is written when its value is truthy and dropped otherwise |
| Sources.AsWrittenNoSourceIsMade | src/ResponsiveImages/Source.php:137-141 | as written, no source can be made: an empty srcset is refused, and any other raises an Error that `catch (\Exception)` does not catch |
| Sources.ResolveSrcsetAsWritten | src/ResponsiveImages/Source.php:137-141 | as written, `resolveSrcset` succeeds only for an empty srcset, and every other srcset raises an Error that is not an Exception |
| Sources.MakeAsWritten | src/ResponsiveImages/Source.php:24-73 | as written, `Source::make` never succeeds. It gives the guard's InvalidArgumentException exactly for an empty srcset, and otherwise an Error that is not an Exception |
| Sources.AsWrittenSingleItem | src/ResponsiveImages/Source.php:141 | a single item already fails as written, with the undefined `render()` call |
| Sources.CorrectedSingleItem | src/ResponsiveImages/Source.php:137-145 | corrected, that item gives the srcset text "a.jpg 1x" |
| Imgs.HeadNames | src/ResponsiveImages/Img.php:52-57 | the image starts with src, alt and, exactly when lazy, loading |
| Imgs.HeadGet | src/ResponsiveImages/Img.php:52-57 | the head has exactly src, alt and, when lazy, loading, all with string values |
| Imgs.ImgAttrs | src/ResponsiveImages/Img.php:34-108 | a falsy src is refused with the guard's message. A truthy one fails exactly when it is not SVG and its dimensions cannot be resolved, with the resolution's error. A made image starts with its head |
| Imgs.Img.constructor | src/ResponsiveImages/Img.php:52-57 | the head attributes and the lazy flag |
| Imgs.Img.Make | src/ResponsiveImages/Img.php:34-108 | fails exactly when the attribute function does, with its error: a falsy src, or a failed dimension probe for a raster image. On success it gives a fresh image with exactly those attributes |
| Imgs.Img.MarkSvg | src/ResponsiveImages/Img.php:64-66 | an SVG image gets only `data-is_svg` = 1 after its head |
| Imgs.Img.ResolveRaster | src/ResponsiveImages/Img.php:60-63 | a raster image gets sizes, then width and height, then srcset, or the probe's error |
| Imgs.Img.ResolveImageInfo | src/ResponsiveImages/Img.php:168-179 | appends width and height as resolved: given non-zero values verbatim, otherwise both from the probe, whose failure is returned |
| Imgs.Img.ResolveSrcset | src/ResponsiveImages/Img.php:189-203 | writes the candidates joined by ", " exactly when there is one, and leaves the attributes alone otherwise |
| Imgs.Img.SetAttr | src/ResponsiveImages/Img.php:119-127 | returns the same instance, with the protected-name rule applied to the attributes |
| Imgs.Img.Render | src/ResponsiveImages/Img.php:135-149 | the `<img>` tag of the current attributes, dropping empty srcset and sizes, with null values as bare names (corrected, see Findings) |
| Imgs.ImgAttrsOfSvg | src/ResponsiveImages/Img.php:59-66 | for a truthy SVG src the attributes are the head plus the SVG marker |
| Imgs.ImgAttrsOfFailure | src/ResponsiveImages/Img.php:173-174 | a raster image whose dimensions cannot be resolved fails with the probe's error |
| Imgs.ImgAttrsOfRaster | src/ResponsiveImages/Img.php:60-63 | a raster image's attributes are the head, sizes, width, height and the srcset when truthy |
| Imgs.SizedHead | src/ResponsiveImages/Img.php:61 | sizes is appended after the head, src is still found, and width and height are still new keys |
| Imgs.SizedHeadNames | src/ResponsiveImages/Img.php:61 | setting sizes on the head appends it, and width and height are still new keys |
| Imgs.DimmedNames | src/ResponsiveImages/Img.php:63 | no srcset exists before `resolveSrcset`, so it is appended last |
| Imgs.RasterAssembly | src/ResponsiveImages/Img.php:61-63 | the raster steps on plain values give head + sizes + width + height (+ srcset) |
| Imgs.GetHead | src/ResponsiveImages/Img.php:52-57 | what the head holds under each name |
| Imgs.GetOfThree | src/ResponsiveImages/Img.php:61-63 | a key is read from the first of three arrays put end to end that has it |
| Imgs.SvgMapGets | src/ResponsiveImages/Img.php:65 | what an SVG image holds under each name |
| Imgs.SvgImgAttrs | src/ResponsiveImages/Img.php:52-66 | an SVG image holds src, alt, loading exactly when lazy, and `data-is_svg` = 1, and no sizes, width, height or srcset |
| Imgs.RasterMapGets | src/ResponsiveImages/Img.php:61-63 | what a raster image holds under each name |
| Imgs.RasterImgAttrs | src/ResponsiveImages/Img.php:52-63 | a raster image holds src, alt, loading exactly when lazy, the sizes text, the resolved non-zero width and height, the srcset exactly when there are candidates, and no SVG marker |
| Imgs.NullAttributeContent | src/ResponsiveImages/Img.php:140-145 | a valueless attribute that is not skipped adds its piece to the content |
| Imgs.NullAttributeAsWritten | src/ResponsiveImages/Img.php:144 | as written, a valueless last attribute ends the text in its name and a stray quote |
| Imgs.NullAttributeCorrected | src/ResponsiveImages/Img.php:144 | corrected, it ends the text in its bare name |
| Imgs.HiddenAsWritten | src/ResponsiveImages/Img.php:144-148 | as written, `hidden` alone renders `<img hidden">` |
| Imgs.HiddenCorrected | src/ResponsiveImages/Img.php:144-148 | corrected, `hidden` alone renders `<img hidden>` |
| Imgs.HtmlAsWritten | src/ResponsiveImages/Img.php:135-149 | as written, the render agrees with the corrected one whenever no value is null |
| Pictures.PictureDims | src/ResponsiveImages/Picture.php:220-230 | both truthy dimensions are kept verbatim, SVG or not. Otherwise a raster image takes the probe's dimensions or its error, and an SVG gets none |
| Pictures.PictureImgAttrs | src/ResponsiveImages/Picture.php:46-115 | a falsy src is refused with the guard's message. A truthy one fails exactly when it is not SVG, lacks a non-zero width or height, and its probe fails. A made `<img>` starts with its head, and keeps a given non-zero width and height |
| Pictures.DimsFound | src/ResponsiveImages/Picture.php:220-230 | the dimensions written are found under width and height |
| Pictures.Picture.constructor | src/ResponsiveImages/Picture.php:58-74 | the head, then the SVG marker exactly for an SVG. An SVG keeps no sources, and any other image keeps them as given, with no picture attributes yet |
| Pictures.SvgMarkedHead | src/ResponsiveImages/Picture.php:70-74 | setting the SVG marker on the head appends it |
| Pictures.Picture.Make | src/ResponsiveImages/Picture.php:46-115 | fails exactly when the `<img>` attribute function does, with its error. On success it gives a fresh picture with those attributes and with sources dropped for an SVG |
| Pictures.Picture.ResolveImageInfo | src/ResponsiveImages/Picture.php:220-230 | appends width and height as `PictureDims` says, or returns the probe's error |
| Pictures.Picture.SetPictureAttr | src/ResponsiveImages/Picture.php:126-131 | returns the same instance and sets any name, lowered, on the picture attributes only |
| Pictures.Picture.SetImgAttr | src/ResponsiveImages/Picture.php:142-150 | returns the same instance and applies the protected-name rule to the `<img>` attributes only |
| Pictures.Picture.RenderImg | src/ResponsiveImages/Picture.php:185-201 | the `<img>` tag of the image attributes, dropping empty srcset and sizes, with null values as bare names |
| Pictures.Picture.RenderSources | src/ResponsiveImages/Picture.php:160 | each source rendered, in order |
| Pictures.Picture.Render | src/ResponsiveImages/Picture.php:158-177 | the picture tag, a newline and tab, the source block, the image tag, then a newline and `</picture>` |
| Pictures.MarkedHead | src/ResponsiveImages/Picture.php:60-76 | after the marker, src is still found and width and height are new keys |
| Pictures.SourceTagStart | src/ResponsiveImages/Source.php:115 | every source tag starts with `<source ` |
| Pictures.SourceTagsOrder | src/ResponsiveImages/Picture.php:160 | one tag per source, in order |
| Pictures.SourceTagsSize | src/ResponsiveImages/Picture.php:160 | as many tags as sources |
| Pictures.SourceTagAt | src/ResponsiveImages/Picture.php:160 | the i-th tag is the i-th source's |
| Pictures.SourcesBlockShape | src/ResponsiveImages/Picture.php:160-161 | the source block is empty exactly without sources, and otherwise is the tags joined by newline-tab plus one more |
| Pictures.SourcesBlock | src/ResponsiveImages/Picture.php:160-161 | the source block is empty or ends in newline-tab. No tags give "", and one tag gives that tag and newline-tab when it is truthy |
| Pictures.PictureMapGets | src/ResponsiveImages/Picture.php:60-76 | what a picture's `<img>` holds under each name |
| Pictures.PictureGet | src/ResponsiveImages/Picture.php:58-76 | a picture's `<img>` has exactly src, alt, loading when lazy, the SVG marker for an SVG, and width and height when there are dimensions |
| Pictures.GivenDimsKept | src/ResponsiveImages/Picture.php:222-224 | both non-zero dimensions are kept for any image, SVG or not, without a file probe |
| Pictures.SvgWithoutDims | src/ResponsiveImages/Picture.php:68-76 | an SVG without both dimensions gets neither, reads no file, and is marked |
| Pictures.RasterWithoutDims | src/ResponsiveImages/Picture.php:225-228 | a raster image without both dimensions is made exactly when its probe succeeds, and then has the probed ones |
| Pictures.PictureHead | src/ResponsiveImages/Picture.php:58-66 | a made picture's `<img>` has src, alt and loading exactly when lazy |
| Builders.SlotIsTruthy | src/ImgUtils.php:375 | `"{$w}px"` is never falsy, so `Size::make` cannot fail inside `img()` |
| Builders.MediaOf | src/ImgUtils.php:372 | an integer key gives no media. Any media given is a truthy string key, and a truthy string key is its own media |
| Builders.HeightFor | src/ImgUtils.php:378-379 | there is a height exactly when the aspect ratio is truthy, and it is within one half of width over aspect ratio |
| Builders.Caught | src/ImgUtils.php:401-403 | an Exception turns into the value "", and any other Error is passed on unchanged |
| Builders.ImgEntry | src/ImgUtils.php:372-391 | one img entry succeeds exactly when its width's resize does, and with 2x pixel ratio its double width's too. It fails with the first failing resize's error. Otherwise it gives the size `"{w}px"` with the entry's media, then the candidate of the width and, with 2x pixel ratio, that of twice the width |
| Builders.ApplyImgAttrs | src/ImgUtils.php:396-398 | the `setAttr` loop never changes src, srcset or sizes, never changes a key that no extra attribute names, and stores every attribute that no later attribute with the same lowered name overrides under that lowered name, unless the name is protected. In particular the last attribute is stored |
| Builders.ImgOutput | src/ImgUtils.php:364-405 | `img()` either returns a string or lets through an Error that is not an Exception (corrected, see Findings) |
| Builders.ResizedItem | src/ImgUtils.php:377-382 | setting the width (and, with an aspect ratio, the height) and then `makeWithResize` gives the item of that Resizer state, and the Resizer stays ready for the next pass |
| Builders.ImgStep | src/ImgUtils.php:372-391 | one pass of the img loop gives the entry's size and its one or two candidates, or the first failure |
| Builders.NextImgLists | src/ImgUtils.php:371-392 | a pass extends the gathered lists, or its failure is the whole loop's |
| Builders.GatherImgParts | src/ImgUtils.php:370-392 | the loop over a live Resizer gives exactly the gathered lists of all entries, or the first failure |
| Builders.SetImgAttrs | src/ImgUtils.php:396-398 | each extra attribute goes through `setAttr`, in order |
| Builders.Img | src/ImgUtils.php:355-406 | the method gives exactly `ImgOutput`: loop, `Img::make`, `setAttr`s, `render`, with the exceptions caught (corrected, see Findings) |
| Builders.ImgGatheredStep | src/ImgUtils.php:371-392 | one more entry extends the lists or ends the loop with its failure |
| Builders.ImgGatheredFailurePersists | src/ImgUtils.php:371-392 | once a failure is raised, the rest of the loop does not run |
| Builders.PictureOutput | src/ImgUtils.php:232-273 | `picture()` either returns a string or lets through an Error that is not an Exception (corrected, see Findings) |
| Builders.PictureOfSources | src/ImgUtils.php:262-268 | the same holds past the loop |
| Builders.PictureEntry | src/ImgUtils.php:243-257 | one picture entry succeeds exactly when its resizes do, fails with the first failure, and otherwise gives the "1x" candidate and, with 2x pixel ratio, the "2x" one of twice the width |
| Builders.ApplyPictureAttrs | src/ImgUtils.php:264-266 | the `setPictureAttr` loop never changes a key that no extra attribute names, and stores every attribute that no later attribute with the same lowered name overrides under that lowered name. In particular the last attribute is stored |
| Builders.PictureItems | src/ImgUtils.php:243-257 | one pass gives the "1x" candidate and, with 2x pixel ratio, the "2x" one, keeping the Resizer ready |
| Builders.SourceStep | src/ImgUtils.php:259 | `Source::make($srcset, [], $mediaQuery)` fails exactly on an empty srcset, and otherwise has the source's attributes (corrected, see Findings) |
| Builders.NextSource | src/ImgUtils.php:239-260 | a pass appends one source with the pass's attributes, or its failure is the whole loop's |
| Builders.GatherSources | src/ImgUtils.php:238-260 | the loop gives one source per entry, whose attributes are the gathered ones, or the first failure |
| Builders.SetPictureAttrs | src/ImgUtils.php:264-266 | each extra attribute goes through `setPictureAttr`, in order, leaving the img attributes and the sources alone |
| Builders.Picture | src/ImgUtils.php:223-274 | the method gives exactly `PictureOutput`: loop, `Picture::make`, `setPictureAttr`s, `render`, with the exceptions caught (corrected, see Findings) |
| Builders.AssemblePicture | src/ImgUtils.php:262-268 | past the loop, the result is the picture of the sources' attributes |
| Builders.FinishPicture | src/ImgUtils.php:264-268 | the rendered picture, with the extra attributes applied |
| Builders.HtmlOfPicture | src/ResponsiveImages/Picture.php:158-177 | a picture's markup depends only on its attributes and its sources' attributes |
| Builders.AttrsOfPointwise | src/ImgUtils.php:259 | sources whose attributes match the gathered attributes give those attributes, in order |
| Builders.SourceTagsMatch | src/ResponsiveImages/Picture.php:160 | the rendered sources are the tags of their attributes |
| Builders.GatheredStep | src/ImgUtils.php:239-260 | one more entry appends its source's attributes or ends the loop with its failure |
| Builders.GatheredFailurePersists | src/ImgUtils.php:239-260 | once a failure is raised, the rest of the loop does not run |
| Builders.ImgEntryShape | src/ImgUtils.php:372-391 | one img entry gives the size `"{w}px"` with its media, and the candidate `"{w}w"` plus, with 2x pixel ratio, `"{2w}w"`. It fails exactly when one of its resizes does |
| Builders.CollectShape | src/ImgUtils.php:371-392 | gathering results until the first failure succeeds exactly when all do, keeping each in order, and otherwise ends with the first failure |
| Builders.ImgPartsAsCollect | src/ImgUtils.php:371-392 | the img loop is the entries' results gathered, then concatenated |
| Builders.ImgPartsShape | src/ImgUtils.php:371-392 | for n entries: n sizes `"{w}px"` with their media in order, and n candidates `"{w}w"`, or 2n with `"{w}w"` and `"{2w}w"` interleaved |
| Builders.FlattenShape | src/ImgUtils.php:375-390 | passes shaped after their entries concatenate to exactly those lists |
| Builders.FlattenSizes | src/ImgUtils.php:375 | one size per pass gives the sizes in order |
| Builders.FlattenSingles | src/ImgUtils.php:382 | one candidate per pass gives the descriptors in order |
| Builders.FlattenPairs | src/ImgUtils.php:382-390 | two candidates per pass give them interleaved, in order |
| Builders.ImgPartsOutcome | src/ImgUtils.php:371-392 | the img loop succeeds exactly when every entry does, and otherwise ends with the error of the first that fails |
| Builders.PictureEntryShape | src/ImgUtils.php:248-259 | one entry gives "1x" and, with 2x pixel ratio, "2x". Its source tag has the entry's media when truthy, then the srcset |
| Builders.PictureMapsAsCollect | src/ImgUtils.php:239-260 | the picture loop is the entries' results gathered |
| Builders.PictureMapsShape | src/ImgUtils.php:239-260 | one source per entry, in order. The loop succeeds exactly when every entry does, and otherwise ends with the first failure |
| Builders.ImgCatchesExceptions | src/ImgUtils.php:364-405 | an exception from the loop or from `Img::make` makes `img()` return "", and any other Error escapes unchanged |
| Builders.PictureCatchesExceptions | src/ImgUtils.php:232-273 | an exception from the loop or from `Picture::make` makes `picture()` return "", and any other Error escapes unchanged |
| Builders.EmptyOriginGivesEmpty | src/ImgUtils.php:232-273 | an empty or "0" origin makes both builders return "" |
| Builders.DeclinedResizeEscapesImg | src/ImgUtils.php:364-405 | an engine that declines the first resize makes `img()` fail with an uncaught Error instead of returning "" |
| Builders.DeclinedResizeFailsImgEntry | src/ImgUtils.php:382 | the entry's first resize fails with a non-Exception Error |
| Builders.DeclinedResizeFailsImgParts | src/ImgUtils.php:371-392 | the img loop then fails with that Error |
| Builders.DeclinedResizeEscapesPicture | src/ImgUtils.php:232-273 | the same for `picture()` |
| Builders.DeclinedResizeFailsSource | src/ImgUtils.php:249 | the entry's "1x" resize fails with a non-Exception Error |
| Builders.DeclinedResizeFailsPictureMaps | src/ImgUtils.php:239-260 | the picture loop then fails with that Error |
| Builders.SvgImgEntryIgnoresEngine | src/ResponsiveImages/SrcsetItem.php:152-155 | an SVG origin's img entry does not depend on the engine |
| Builders.SvgSourceIgnoresEngine | src/ResponsiveImages/SrcsetItem.php:152-155 | nor does its picture entry |
| Builders.SvgImgPartsIgnoreEngine | src/ImgUtils.php:371-392 | nor does the img loop |
| Builders.SvgPictureMapsIgnoreEngine | src/ImgUtils.php:239-260 | nor does the picture loop |
| Builders.SvgOriginIgnoresEngine | src/ImgUtils.php:223-406 | for an SVG origin both builders return the same whatever the engine would do |

## Left out

- WordPress glue is not modelled: `pictureForPost`, `pictureByAttachmentId`, `imgForPost`, `imgByAttachmentId`, `getAllInitedImageSizes`, `getAllInitedImageSizesFormatted`, `isSvgByAttachmentId`, and `Resizer::makeByAttachmentId`/`makeByPostId`. They only call CMS APIs.
- The `aq_resize` engine is a parameter of the environment with three outcomes: an image, `false`, or an `\Aq_Exception`. `class_exists`/`function_exists` and `require_once` only load it, so they are left out.
- `resizeImg` calls `aq_resize` with `single` = true and gets a URL string (ImgUtils.php:46). `Resizer::resize` calls it with `single` = false and gets an array (Resizer.php:147). The model has one engine without the `single` argument, and takes the single-mode result to be the URL of the array result.
- `wp_upload_dir`, `is_ssl`, `file_exists` and `getimagesize` are fields of the environment.
- `getimagesize` also returns the MIME type, and PHP casts its sizes with `(int)`. Neither is modelled: the probe gives two integers or fails.
- `parse_url($url, PHP_URL_PATH)` is an arbitrary function of the environment. `pathinfo` is modelled as the text after the last dot of the base name.
- `apply_filters`, `esc_attr` and `strip_tags` are the identity.
- `error_log` is output, so it is left out. The builders' catch only yields "".
- Builders.HeightFor: the aspect ratio is an exact real, not an IEEE double, so NaN, infinities and rounding of the division are not modelled.
- Builders.ImgEntry: `$widthToResize * 2` is exact. PHP's overflow to float at 2^63 is not modelled.
- Builders.Entry: the width is the result of `(int)$widthToResize`. The cast of strings and floats is not modelled.
- Builders.Key: PHP turns a decimal string key such as "480" into an integer key, so such keys reach the loop as `IntKey`.
- The `instanceof` filters of the Source, Img and Picture constructors are enforced by the parameter types, so a non-object element cannot be passed.
- `setAttr(string, string|int|null)` takes a `Value`. PHP would render a name with characters that are not attribute characters unchanged, and so does the model.
- SrcsetItems.Make: the item is an immutable value, so `resolveImageInfo`'s two field writes are the function `ResolveDims`. The URL, descriptor and lazy getters are the datatype's fields. `getWidth()` and `getHeight()` are `GetWidth` and `GetHeight`: on an SVG item, whose typed properties are never assigned, they raise PHP's uninitialised-property `\Error`.
- Sources.Source.Render, Pictures.Picture.Render: `__toString` is the same as `render` and is not a separate member.
- Markup.AttributeTextIsJoin: stated for attributes whose bare names do not end in blanks. A name like `"x "` would lose its blank to `rtrim`, which the general `RenderAttributes` does model.

## Findings

| source | as written | input that shows it | evidently intended | confidence | as-written member | corrected member |
|---|---|---|---|---|---|---|
| src/ResponsiveImages/Img.php:144 | a null-valued attribute is written as its name followed by `"` and a space | `setAttr('hidden', null)` on an Img, then `render()`: the tag ends `hidden">` | the bare name `hidden`, as `Picture::renderImg` and `Source::render` write it | high, not executed | Imgs.HtmlAsWritten, Imgs.NullAttributeAsWritten | Imgs.NullAttributeCorrected |
| src/ResponsiveImages/Source.php:137-141 | `array_unique` converts each SrcsetItem to a string, and SrcsetItem has no `__toString`. With one item, `->render()` is called, and SrcsetItem has no such method | `Source::make([SrcsetItem::make('a.jpg', '1x', 10, 10)])` raises an `\Error`, and with two items an `\Error` is raised too | the candidates `"url descriptor"`, deduplicated and joined by ", ", as `Img::resolveSrcset` builds them | high, not executed | Sources.MakeAsWritten, Sources.AsWrittenNoSourceIsMade | Sources.SrcsetText, Sources.CorrectedSingleItem |
