/** `FileFinder`: collects the resources of a page's frame tree, as the browser's
    developer protocol reports them, that match a type filter and a size threshold,
    together with the builder that configures it.

    The frame tree and the content of a resource come from the browser; the tree is
    an input, and fetching a resource's content is the input function `fetch`. */
module FileFinder {

  import opened Common
  import opened JavaStrings

  /** A JSON value as `org.json` holds it: a string, an integral number, a
      floating-point number (a `Double`, together with the text `Double.toString`
      gives), a boolean, null, or any other value together with the text its
      `toString()` gives. */
  datatype Json =
    | JString(s: string)
    | JNumber(n: int)
    | JDouble(value: real, text: string)
    | JBool(b: bool)
    | JNull
    | JOther(text: string)

  /** A JSON object; also the `Map<String, Object>` entries the finder produces. */
  type JsonObject = map<string, Json>

  /** One frame of `Page.getResourceTree`'s `frameTree`: the frame's id, its resources
      in order, and its child frames in order (none when the key is absent). */
  datatype FrameTree = FrameTree(frameId: string, resources: seq<JsonObject>, childFrames: seq<FrameTree>)

  /** What `Page.getResourceContent` does: answer with fields, answer null, or throw. */
  datatype FetchResult = Fetched(fields: JsonObject) | NoContent | FetchFailed

  /** The configuration a built finder keeps and `findAllFiles` reads. */
  datatype FileFinder = FileFinder(attributeTypes: set<string>, attributeName: string, fileSize: int)

  const DataImagePrefix: string := "data:image"
  const DefaultAttributeType: string := "Image"
  const DefaultAttributeName: string := "url"
  const DefaultFileSize: int := 10000

  const NullResponseMessage: string := "The response parameter cannot be null"
  const AttributeTypesEmptyMessage: string := "The attributeTypes parameter cannot be null or empty"
  const AttributeTypesNullElementsMessage: string := "The attributeTypes parameter cannot contain null elements"
  const AttributeNameBlankMessage: string := "The attributeName cannot be null or blank"

  // ---------------------------------------------------------------------------
  // org.json accessors
  // ---------------------------------------------------------------------------

  function DigitChar(d: nat): char
    requires d < 10
  {
    "0123456789"[d]
  }

  predicate IsDigit(c: char) {
    '0' <= c <= '9'
  }

  /** The decimal digits of `n`, without leading zeros. */
  function Digits(n: nat): (s: string)
    ensures |s| > 0 && forall i :: 0 <= i < |s| ==> IsDigit(s[i])
    decreases n
  {
    if n < 10 then [DigitChar(n)] else Digits(n / 10) + [DigitChar(n % 10)]
  }

  /** The value of a string of decimal digits. */
  function DigitsValue(s: string): nat
    requires forall i :: 0 <= i < |s| ==> IsDigit(s[i])
  {
    if s == [] then 0
    else
      assert IsDigit(s[|s| - 1]);
      DigitsValue(s[..|s| - 1]) * 10 + (s[|s| - 1] as int - '0' as int)
  }

  /** Reading back the digits of a number gives the number. */
  lemma {:induction false} DigitsRoundTrip(n: nat)
    ensures DigitsValue(Digits(n)) == n
    decreases n
  {
    var s := Digits(n);
    if n >= 10 {
      DigitsRoundTrip(n / 10);
      assert s[..|s| - 1] == Digits(n / 10);
    }
  }

  /** `Integer.toString` / `Long.toString`. */
  function IntToString(n: int): string {
    if n < 0 then "-" + Digits(-n) else Digits(n)
  }

  /** A string `org.json` reads as an integral number: an optional '-' and at least
      one decimal digit. */
  predicate IsDecimal(s: string) {
    |Magnitude(s)| > 0 && forall i :: 0 <= i < |Magnitude(s)| ==> IsDigit(Magnitude(s)[i])
  }

  /** The text after an optional leading '-'. */
  function Magnitude(s: string): string {
    if |s| > 0 && s[0] == '-' then s[1..] else s
  }

  function DecimalValue(s: string): int
    requires IsDecimal(s)
  {
    if s[0] == '-' then -(DigitsValue(Magnitude(s)) as int) else DigitsValue(Magnitude(s))
  }

  /** `Number.intValue()`: the low 32 bits, read as a two's-complement `int`. */
  function ToInt32(v: int): (r: int)
    ensures -0x8000_0000 <= r < 0x8000_0000
    ensures -0x8000_0000 <= v < 0x8000_0000 ==> r == v
    ensures (r - v) % 0x1_0000_0000 == 0
  {
    (v + 0x8000_0000) % 0x1_0000_0000 - 0x8000_0000
  }

  /** The decimal text of a number reads back as the number. */
  lemma IntToStringRoundTrip(n: int)
    ensures IsDecimal(IntToString(n)) && DecimalValue(IntToString(n)) == n
  {
    DigitsRoundTrip(if n < 0 then -n else n);
    if n < 0 {
      assert IntToString(n)[1..] == Digits(-n);
    }
  }

  /** `optString(key)`: the value's text, "" when the key is absent or null. */
  function OptString(o: JsonObject, key: string): (s: string)
    ensures key !in o || o[key] == JNull ==> s == ""
    ensures key in o && o[key].JString? ==> s == o[key].s
  {
    if key !in o then ""
    else match o[key]
      case JString(s) => s
      case JNumber(n) => IntToString(n)
      case JDouble(_, text) => text
      case JBool(b) => if b then "true" else "false"
      case JNull => ""
      case JOther(text) => text
  }

  /** `Double.intValue()`: the value rounded toward zero, then saturated to the
      `int` range. */
  function DoubleToInt32(v: real): (r: int)
    ensures -0x8000_0000 <= r < 0x8000_0000
    ensures 0.0 <= v < 0x8000_0000 as real ==> r as real <= v < (r + 1) as real
    ensures -(0x8000_0000 as real) < v < 0.0 ==> (r - 1) as real < v <= r as real
    ensures v >= 0x8000_0000 as real ==> r == 0x7FFF_FFFF
    ensures v <= -(0x8000_0000 as real) ==> r == -0x8000_0000
  {
    var t := if v >= 0.0 then v.Floor else -((-v).Floor);
    if t >= 0x8000_0000 then 0x7FFF_FFFF
    else if t < -0x8000_0000 then -0x8000_0000
    else t
  }

  /** `optInt(key)`: a number, or a string holding an integral one, as an `int`;
      0 otherwise. */
  function OptInt(o: JsonObject, key: string): (n: int)
    ensures key !in o ==> n == 0
    ensures -0x8000_0000 <= n < 0x8000_0000
  {
    if key !in o then 0
    else match o[key]
      case JNumber(v) => ToInt32(v)
      case JDouble(v, _) => DoubleToInt32(v)
      case JString(s) => if IsDecimal(s) then ToInt32(DecimalValue(s)) else 0
      case _ => 0
  }

  /** A number and its decimal text are read as the same size. */
  lemma OptIntReadsNumericText(key: string, n: int)
    ensures OptInt(map[key := JString(IntToString(n))], key) == OptInt(map[key := JNumber(n)], key)
  {
    IntToStringRoundTrip(n);
  }

  /** A non-negative floating-point size within the `int` range reads as its whole
      part: the fraction is dropped, not rounded and not read as 0. */
  lemma OptIntDropsFraction(key: string, whole: nat, fraction: real, text: string)
    requires whole < 0x8000_0000 && 0.0 <= fraction < 1.0
    ensures OptInt(map[key := JDouble(whole as real + fraction, text)], key) == whole
  {
  }

  // ---------------------------------------------------------------------------
  // Selecting one resource
  // ---------------------------------------------------------------------------

  /** The resource's file URL, under the configured attribute name. */
  function FileUrl(finder: FileFinder, resource: JsonObject): string {
    OptString(resource, finder.attributeName)
  }

  predicate IsDataImage(url: string) {
    StartsWith(url, DataImagePrefix)
  }

  /** The size compared against the threshold: a data URL's length, otherwise the
      reported `contentSize`. */
  function ResourceSize(finder: FileFinder, resource: JsonObject): int {
    var url := FileUrl(finder, resource);
    if IsDataImage(url) then |url| else OptInt(resource, "contentSize")
  }

  /** The selection rule: the type is one of the configured types and the size is
      strictly above the threshold. */
  predicate Selected(finder: FileFinder, resource: JsonObject) {
    OptString(resource, "type") in finder.attributeTypes && ResourceSize(finder, resource) > finder.fileSize
  }

  /** The entry `findInAttributeValue` produces for a resource of frame `id`, if any. */
  function SelectEntry(finder: FileFinder, resource: JsonObject, id: string,
                       fetch: (string, string) -> FetchResult): Option<JsonObject>
  {
    if !Selected(finder, resource) then None
    else
      var url := FileUrl(finder, resource);
      var mimeType := JString(OptString(resource, "mimeType"));
      if IsDataImage(url) then
        Some(map["frameId" := JString(id), "content" := JString(url), "base64Encoded" := JBool(true),
                 "mimeType" := mimeType])
      else
        var m := map["frameId" := JString(id), "url" := JString(url)];
        match fetch(id, url)
        case FetchFailed => None
        case NoContent => Some(m["mimeType" := mimeType])
        case Fetched(rs) => Some((m + rs)["mimeType" := mimeType])
  }

  /** A resource yields an entry exactly when it is selected and, for a URL that is not
      a data URL, fetching its content does not throw. */
  lemma SelectEntryIff(finder: FileFinder, resource: JsonObject, id: string, fetch: (string, string) -> FetchResult)
    ensures SelectEntry(finder, resource, id, fetch).Some? <==>
      && OptString(resource, "type") in finder.attributeTypes
      && ResourceSize(finder, resource) > finder.fileSize
      && (IsDataImage(FileUrl(finder, resource)) || !fetch(id, FileUrl(finder, resource)).FetchFailed?)
  {
  }

  /** What an entry holds: the resource's MIME type; for a data URL, the frame id, the
      URL as content and the base64 flag; otherwise the URL and the fetched fields, the
      frame id and URL surviving unless the fetched fields replace them. */
  lemma EntryContents(finder: FileFinder, resource: JsonObject, id: string, fetch: (string, string) -> FetchResult)
    requires SelectEntry(finder, resource, id, fetch).Some?
    ensures var e := SelectEntry(finder, resource, id, fetch).value;
      var url := FileUrl(finder, resource);
      && e["mimeType"] == JString(OptString(resource, "mimeType"))
      && (IsDataImage(url) ==>
            e.Keys == {"frameId", "content", "base64Encoded", "mimeType"}
            && e["frameId"] == JString(id) && e["content"] == JString(url) && e["base64Encoded"] == JBool(true))
      && (!IsDataImage(url) ==>
            var fields := if fetch(id, url).Fetched? then fetch(id, url).fields else map[];
            && e.Keys == {"frameId", "url", "mimeType"} + fields.Keys
            && e["frameId"] == (if "frameId" in fields then fields["frameId"] else JString(id))
            && e["url"] == (if "url" in fields then fields["url"] else JString(url))
            && forall k :: k in fields && k != "mimeType" ==> e[k] == fields[k])
  {
  }

  /** The threshold is strict: a resource of exactly the threshold size is never
      selected, and one unit more is selected when its type is configured. */
  lemma ThresholdIsStrict(finder: FileFinder, resource: JsonObject)
    ensures ResourceSize(finder, resource) == finder.fileSize ==> !Selected(finder, resource)
    ensures ResourceSize(finder, resource) == finder.fileSize + 1 ==>
      (Selected(finder, resource) <==> OptString(resource, "type") in finder.attributeTypes)
  {
  }

  /** A data URL's size is its own length, whatever `contentSize` says. */
  lemma DataUrlSizeIgnoresContentSize(finder: FileFinder, resource: JsonObject, reported: Json)
    requires IsDataImage(FileUrl(finder, resource))
    requires "contentSize" != finder.attributeName
    ensures ResourceSize(finder, resource["contentSize" := reported]) == |FileUrl(finder, resource)|
  {
    assert FileUrl(finder, resource["contentSize" := reported]) == FileUrl(finder, resource);
  }

  // ---------------------------------------------------------------------------
  // The frame tree
  // ---------------------------------------------------------------------------

  /** The entries of one frame's own resources, in resource order. */
  function OwnEntries(finder: FileFinder, resources: seq<JsonObject>, id: string,
                      fetch: (string, string) -> FetchResult): seq<JsonObject>
  {
    if resources == [] then []
    else
      var rest := OwnEntries(finder, resources[..|resources| - 1], id, fetch);
      match SelectEntry(finder, resources[|resources| - 1], id, fetch)
      case Some(e) => rest + [e]
      case None => rest
  }

  /** `parseResources`: the frame's own entries, then each child frame's, in order. */
  function Parse(finder: FileFinder, tree: FrameTree, fetch: (string, string) -> FetchResult): seq<JsonObject>
    decreases tree, 1
  {
    OwnEntries(finder, tree.resources, tree.frameId, fetch) + ParseForest(finder, tree.childFrames, fetch)
  }

  function ParseForest(finder: FileFinder, trees: seq<FrameTree>, fetch: (string, string) -> FetchResult)
    : seq<JsonObject>
    decreases trees, 0
  {
    if trees == [] then []
    else ParseForest(finder, trees[..|trees| - 1], fetch) + Parse(finder, trees[|trees| - 1], fetch)
  }

  /** Every entry of a frame comes from one of its resources, and every resource that
      yields an entry contributes it. */
  lemma {:induction false} OwnEntriesSoundAndComplete(finder: FileFinder, resources: seq<JsonObject>, id: string,
                                                      fetch: (string, string) -> FetchResult)
    ensures forall e :: e in OwnEntries(finder, resources, id, fetch) ==>
      exists r :: r in resources && SelectEntry(finder, r, id, fetch) == Some(e)
    ensures forall r :: r in resources && SelectEntry(finder, r, id, fetch).Some? ==>
      SelectEntry(finder, r, id, fetch).value in OwnEntries(finder, resources, id, fetch)
  {
    if resources != [] {
      var init := resources[..|resources| - 1];
      var last := resources[|resources| - 1];
      OwnEntriesSoundAndComplete(finder, init, id, fetch);
      assert resources == init + [last];
      forall e | e in OwnEntries(finder, resources, id, fetch)
        ensures exists r :: r in resources && SelectEntry(finder, r, id, fetch) == Some(e)
      {
        if e in OwnEntries(finder, init, id, fetch) {
          var r :| r in init && SelectEntry(finder, r, id, fetch) == Some(e);
          assert r in resources;
        } else {
          assert SelectEntry(finder, last, id, fetch) == Some(e);
        }
      }
    }
  }

  /** The frames of a tree in pre-order: the frame itself, then each child's frames. */
  function Frames(tree: FrameTree): seq<FrameTree>
    decreases tree, 1
  {
    [tree] + FramesOf(tree.childFrames)
  }

  function FramesOf(trees: seq<FrameTree>): seq<FrameTree>
    decreases trees, 0
  {
    if trees == [] then [] else FramesOf(trees[..|trees| - 1]) + Frames(trees[|trees| - 1])
  }

  /** Each frame's own entries, frame after frame. */
  function ConcatOwn(finder: FileFinder, frames: seq<FrameTree>, fetch: (string, string) -> FetchResult)
    : seq<JsonObject>
  {
    if frames == [] then []
    else
      var last := frames[|frames| - 1];
      ConcatOwn(finder, frames[..|frames| - 1], fetch) + OwnEntries(finder, last.resources, last.frameId, fetch)
  }

  lemma {:induction false} ConcatOwnAppend(finder: FileFinder, a: seq<FrameTree>, b: seq<FrameTree>,
                                           fetch: (string, string) -> FetchResult)
    ensures ConcatOwn(finder, a + b, fetch) == ConcatOwn(finder, a, fetch) + ConcatOwn(finder, b, fetch)
    decreases |b|
  {
    if b == [] {
      assert a + b == a;
    } else {
      assert (a + b)[..|a + b| - 1] == a + b[..|b| - 1];
      ConcatOwnAppend(finder, a, b[..|b| - 1], fetch);
    }
  }

  /** The recursive parse lists, in pre-order of the frames, each frame's own entries:
      a frame's entries come before its children's, and siblings keep their order. */
  lemma {:induction false} ParseIsPreorder(finder: FileFinder, tree: FrameTree, fetch: (string, string) -> FetchResult)
    ensures Parse(finder, tree, fetch) == ConcatOwn(finder, Frames(tree), fetch)
    decreases tree, 1
  {
    ParseForestIsPreorder(finder, tree.childFrames, fetch);
    ConcatOwnAppend(finder, [tree], FramesOf(tree.childFrames), fetch);
    assert ConcatOwn(finder, [tree], fetch) == OwnEntries(finder, tree.resources, tree.frameId, fetch) by {
      assert [tree][..0] == [];
    }
  }

  lemma {:induction false} ParseForestIsPreorder(finder: FileFinder, trees: seq<FrameTree>,
                                                 fetch: (string, string) -> FetchResult)
    ensures ParseForest(finder, trees, fetch) == ConcatOwn(finder, FramesOf(trees), fetch)
    decreases trees, 0
  {
    if trees != [] {
      var last := trees[|trees| - 1];
      ParseForestIsPreorder(finder, trees[..|trees| - 1], fetch);
      ParseIsPreorder(finder, last, fetch);
      ConcatOwnAppend(finder, FramesOf(trees[..|trees| - 1]), Frames(last), fetch);
    }
  }

  /** `findInAttributeValue`: fills the entry map step by step. */
  method FindInAttributeValue(finder: FileFinder, resource: JsonObject, id: string,
                              fetch: (string, string) -> FetchResult)
    returns (value: Option<JsonObject>)
    ensures value == SelectEntry(finder, resource, id, fetch)
  {
    if OptString(resource, "type") in finder.attributeTypes {
      var fileUrl := OptString(resource, finder.attributeName);
      var size := OptInt(resource, "contentSize");
      if StartsWith(fileUrl, DataImagePrefix) {
        size := |fileUrl|;
      }
      var mimeType := OptString(resource, "mimeType");
      if size > finder.fileSize {
        var m: JsonObject := map[];
        m := m["frameId" := JString(id)];
        if StartsWith(fileUrl, DataImagePrefix) {
          m := m["content" := JString(fileUrl)];
          m := m["base64Encoded" := JBool(true)];
        } else {
          m := m["url" := JString(fileUrl)];
          var rs := fetch(id, fileUrl);
          if rs.FetchFailed? {
            return None;
          }
          if rs.Fetched? {
            m := m + rs.fields;
          }
        }
        m := m["mimeType" := JString(mimeType)];
        return Some(m);
      }
    }
    return None;
  }

  /** `parseResources`: the frame's matching resources in order, then, child by child,
      everything found in the child frames. */
  method ParseResources(finder: FileFinder, tree: FrameTree, fetch: (string, string) -> FetchResult)
    returns (list: seq<JsonObject>)
    ensures list == Parse(finder, tree, fetch)
    decreases tree
  {
    var id := tree.frameId;
    var resources := tree.resources;
    list := [];
    var k := 0;
    while k < |resources|
      invariant 0 <= k <= |resources|
      invariant list == OwnEntries(finder, resources[..k], id, fetch)
    {
      assert resources[..k + 1][..k] == resources[..k];
      var value := FindInAttributeValue(finder, resources[k], id, fetch);
      if value.Some? {
        list := list + [value.value];
      }
      k := k + 1;
    }
    assert resources[..k] == resources;
    var childFrames := tree.childFrames;
    var c := 0;
    while c < |childFrames|
      invariant 0 <= c <= |childFrames|
      invariant list == OwnEntries(finder, resources, id, fetch) + ParseForest(finder, childFrames[..c], fetch)
    {
      assert childFrames[..c + 1][..c] == childFrames[..c];
      var found := ParseResources(finder, childFrames[c], fetch);
      list := list + found;
      c := c + 1;
    }
    assert childFrames[..c] == childFrames;
  }

  /** `findAllFiles`: a null response is refused; a resource tree without a frame tree
      makes the parse dereference null. */
  method FindAllFiles(finder: FileFinder, response: Option<Option<FrameTree>>,
                      fetch: (string, string) -> FetchResult)
    returns (files: Result<seq<JsonObject>>)
    ensures response.None? ==> files == Err(NullPointer(NullResponseMessage))
    ensures response == Some(None) ==> files.Err? && files.error.NullPointer?
    ensures response.Some? && response.value.Some? ==>
      files == Ok(ConcatOwn(finder, Frames(response.value.value), fetch))
  {
    if response.None? {
      return Err(NullPointer(NullResponseMessage));
    }
    if response.value.None? {
      return Err(NullPointer(""));
    }
    var list := ParseResources(finder, response.value.value, fetch);
    ParseIsPreorder(finder, response.value.value, fetch);
    return Ok(list);
  }

  // ---------------------------------------------------------------------------
  // The builder
  // ---------------------------------------------------------------------------

  /** `Validate.notEmpty` then `Validate.noNullElements` on the attribute types. */
  function AttributeTypesCheck(types: Option<set<Option<string>>>): (o: Outcome)
    ensures o.Pass? <==> types.Some? && types.value != {} && None !in types.value
    ensures types.None? ==> o == Fail(NullPointer(AttributeTypesEmptyMessage))
    ensures types.Some? && types.value == {} ==> o == Fail(IllegalArgument(AttributeTypesEmptyMessage))
    ensures types.Some? && types.value != {} && None in types.value ==>
      o == Fail(IllegalArgument(AttributeTypesNullElementsMessage))
  {
    if types.None? then Fail(NullPointer(AttributeTypesEmptyMessage))
    else if types.value == {} then Fail(IllegalArgument(AttributeTypesEmptyMessage))
    else if None in types.value then Fail(IllegalArgument(AttributeTypesNullElementsMessage))
    else Pass
  }

  /** `Validate.notBlank` on the attribute name. */
  function AttributeNameCheck(name: Option<string>): (o: Outcome)
    ensures o.Pass? <==> !IsBlank(name)
    ensures name.None? ==> o == Fail(NullPointer(AttributeNameBlankMessage))
    ensures name.Some? && IsBlank(name) ==> o == Fail(IllegalArgument(AttributeNameBlankMessage))
  {
    if name.None? then Fail(NullPointer(AttributeNameBlankMessage))
    else if IsBlank(name) then Fail(IllegalArgument(AttributeNameBlankMessage))
    else Pass
  }

  /** The strings of a checked set. */
  function Strings(types: set<Option<string>>): set<string> {
    set t | t in types && t.Some? :: t.value
  }

  /** A checked set of types keeps every type and adds none, so it is not empty. */
  lemma CheckedTypesKept(types: set<Option<string>>)
    requires AttributeTypesCheck(Some(types)).Pass?
    ensures forall t :: Some(t) in types <==> t in Strings(types)
    ensures Strings(types) != {}
  {
    var x :| x in types;
    assert x.value in Strings(types);
  }

  /** `setAttributeType(t)` is `setAttributeTypes` of the singleton, so a null type is
      refused as a null element. */
  lemma NullAttributeTypeRefused()
    ensures AttributeTypesCheck(Some({None})) == Fail(IllegalArgument(AttributeTypesNullElementsMessage))
  {
  }

  /** What the builder guarantees of every finder it builds. */
  predicate WellConfigured(finder: FileFinder) {
    finder.attributeTypes != {} && !IsBlank(Some(finder.attributeName))
  }

  class ImageFinderBuilder {
    var attributeTypes: set<string>
    var attributeName: string
    var fileSize: int

    /** The builder's invariant: every setter refuses what would break it. */
    predicate Valid()
      reads this
    {
      WellConfigured(FileFinder(attributeTypes, attributeName, fileSize))
    }

    /** The defaults: the single type "Image", the attribute "url", and 10000. */
    constructor ()
      ensures Valid()
      ensures attributeTypes == {DefaultAttributeType} && attributeName == DefaultAttributeName
      ensures fileSize == DefaultFileSize
    {
      attributeTypes := {DefaultAttributeType};
      attributeName := DefaultAttributeName;
      fileSize := DefaultFileSize;
      new;
      assert !IsJavaWhitespace(attributeName[0]);
    }

    /** `setAttributeTypes`: a refused set leaves the builder as it was. */
    method SetAttributeTypes(types: Option<set<Option<string>>>) returns (status: Outcome)
      requires Valid()
      modifies this`attributeTypes
      ensures Valid()
      ensures status == AttributeTypesCheck(types)
      ensures attributeTypes == if status.Pass? then Strings(types.value) else old(attributeTypes)
    {
      status := AttributeTypesCheck(types);
      if status.Pass? {
        CheckedTypesKept(types.value);
        attributeTypes := Strings(types.value);
      }
    }

    /** `setAttributeType`: the singleton set of `attributeType`. */
    method SetAttributeType(attributeType: Option<string>) returns (status: Outcome)
      requires Valid()
      modifies this`attributeTypes
      ensures Valid()
      ensures status.Pass? <==> attributeType.Some?
      ensures attributeTypes == if status.Pass? then {attributeType.value} else old(attributeTypes)
    {
      status := SetAttributeTypes(Some({attributeType}));
      assert status.Pass? ==> Strings({attributeType}) == {attributeType.value};
    }

    /** `setFileSize`: `Validate.notNaN` on an `int` always passes. */
    method SetFileSize(size: int)
      requires Valid()
      modifies this`fileSize
      ensures Valid() && fileSize == size
    {
      fileSize := size;
    }

    /** `setAttributeName`: a refused name leaves the builder as it was. */
    method SetAttributeName(name: Option<string>) returns (status: Outcome)
      requires Valid()
      modifies this`attributeName
      ensures Valid()
      ensures status == AttributeNameCheck(name)
      ensures attributeName == if status.Pass? then name.value else old(attributeName)
    {
      status := AttributeNameCheck(name);
      if status.Pass? {
        attributeName := name.value;
      }
    }

    /** `build`: a finder with the builder's current settings. */
    method Build() returns (finder: FileFinder)
      requires Valid()
      ensures WellConfigured(finder)
      ensures finder == FileFinder(attributeTypes, attributeName, fileSize)
    {
      finder := FileFinder(attributeTypes, attributeName, fileSize);
    }
  }

  /** `createDefault`: a finder built with the defaults. */
  method CreateDefault() returns (finder: FileFinder)
    ensures WellConfigured(finder)
    ensures finder.attributeTypes == {"Image"} && finder.attributeName == "url" && finder.fileSize == 10000
  {
    var builder := new ImageFinderBuilder();
    finder := builder.Build();
  }
}
