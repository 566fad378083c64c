/**
  Where the current page sits in the site and which logo it shows:
  `getBasePath` and `getLogoPath` of the navigation script, as pure
  functions of the page's path (the script reads `window.location.pathname`).
 */
module Paths {
  import opened Text

  /** Path fragment marking an industry page. */
  const IndustryMarker: string := "/industry/"
  /** Path fragment marking any other sub-page. */
  const PageMarker: string := "/page/"
  /** Prefix that climbs from a sub-page back to the site root. */
  const ParentPrefix: string := "../"
  /** Prefix for a page that already sits at the site root. */
  const SamePrefix: string := "./"
  /** Logo shown on every page without a logo of its own. */
  const DefaultLogo: string := "logos/home_logo.png"

  /** Industry page file name to the logo asset shown on that page. */
  const LogoMap: map<string, string> := map[
    "university.html" := "logos/university_logo.png",
    "ecommerce.html" := "logos/ecommerce_logo.png",
    "retail.html" := "logos/retail_logo.png",
    "manufacturing.html" := "logos/Manufacturing_logo.png",
    "healthcare.html" := "logos/healthcare_logo.png",
    "foodchain.html" := "logos/foodchain_logo.png"
  ]

  /** Every logo asset a page can show. */
  const LogoAssets: set<string> := LogoMap.Values + {DefaultLogo}

  /** The path lies below the site root, in the industry or the page directory. */
  ghost predicate IsSubpage(path: string)
  {
    Occurs(path, IndustryMarker) || Occurs(path, PageMarker)
  }

  /** `getBasePath`: the relative prefix that leads from the page to the site root. */
  function BasePath(path: string): (base: string)
    ensures base == ParentPrefix <==> IsSubpage(path)
    ensures base == SamePrefix <==> !IsSubpage(path)
  {
    ContainsMeansOccurs(path, IndustryMarker);
    ContainsMeansOccurs(path, PageMarker);
    if Contains(path, IndustryMarker) then ParentPrefix
    else if Contains(path, PageMarker) then ParentPrefix
    else SamePrefix
  }

  /** The two directory checks may be made in either order. */
  lemma BasePathCheckOrderIrrelevant(path: string)
    ensures BasePath(path) ==
      (if Contains(path, PageMarker) then ParentPrefix
       else if Contains(path, IndustryMarker) then ParentPrefix
       else SamePrefix)
  {
  }

  /** `getLogoPath`: the page's own logo on an industry page that has one, else the home logo. */
  function LogoPath(path: string): (logo: string)
    ensures |BasePath(path)| <= |logo| && logo[..|BasePath(path)|] == BasePath(path)
    ensures Occurs(path, IndustryMarker) && LastSegment(path) in LogoMap ==>
              logo == ParentPrefix + LogoMap[LastSegment(path)]
    ensures !(Occurs(path, IndustryMarker) && LastSegment(path) in LogoMap) ==>
              logo == BasePath(path) + DefaultLogo
  {
    ContainsMeansOccurs(path, IndustryMarker);
    var base := BasePath(path);
    if Contains(path, IndustryMarker) then
      var fileName := LastSegment(path);
      if fileName in LogoMap then base + LogoMap[fileName]
      else base + DefaultLogo
    else base + DefaultLogo
  }

  /** Whatever the path, the logo is the base prefix followed by one of the known assets. */
  lemma LogoPathIsAsset(path: string)
    ensures LogoPath(path)[|BasePath(path)|..] in LogoAssets
  {
    var logo := LogoPath(path);
    var base := BasePath(path);
    if Occurs(path, IndustryMarker) && LastSegment(path) in LogoMap {
      assert logo[|base|..] == LogoMap[LastSegment(path)];
    } else {
      assert logo[|base|..] == DefaultLogo;
    }
  }

  /** The page `<dir>/industry/<file>` of a mapped file shows that file's logo. */
  lemma IndustryPageShowsItsLogo(dir: string, file: string)
    requires file in LogoMap
    ensures LogoPath(dir + IndustryMarker + file) == ParentPrefix + LogoMap[file]
  {
    var path := dir + IndustryMarker + file;
    assert OccursAt(path, IndustryMarker, |dir|);
    assert Slash !in file;
    assert path == (dir + "/industry") + [Slash] + file;
    LastSegmentAfterSlash(dir + "/industry", file);
  }

  /** A path naming a directory (ending in a slash) always shows the home logo. */
  lemma DirectoryShowsDefaultLogo(path: string)
    requires |path| > 0 && path[|path| - 1] == Slash
    ensures LogoPath(path) == BasePath(path) + DefaultLogo
  {
    LastSegmentOfDirectory(path);
  }

  /** An industry page missing from the logo table falls back to the home logo. */
  lemma UnmappedIndustryPageShowsHomeLogo(dir: string, file: string)
    requires file !in LogoMap && Slash !in file
    ensures LogoPath(dir + IndustryMarker + file) == ParentPrefix + DefaultLogo
  {
    var path := dir + IndustryMarker + file;
    assert OccursAt(path, IndustryMarker, |dir|);
    assert path == (dir + "/industry") + [Slash] + file;
    LastSegmentAfterSlash(dir + "/industry", file);
  }

  /** The university page, below any directory, shows the university logo. */
  lemma UniversityPageLogo(dir: string)
    ensures LogoPath(dir + "/industry/university.html") == "../logos/university_logo.png"
  {
    IndustryPageShowsItsLogo(dir, "university.html");
    assert dir + IndustryMarker + "university.html" == dir + "/industry/university.html";
  }

  /** A page outside both sub-directories stays at the root and shows the home logo. */
  lemma RootPageShowsHomeLogo(path: string)
    requires !Contains(path, IndustryMarker) && !Contains(path, PageMarker)
    ensures LogoPath(path) == SamePrefix + DefaultLogo
  {
    ContainsMeansOccurs(path, IndustryMarker);
    ContainsMeansOccurs(path, PageMarker);
  }

  // ----- Property lookup on a plain JavaScript object -----

  /** What a JavaScript property read on an object returns. */
  datatype Property = Undefined | Value(text: string)

  /**
    Members every plain object inherits from `Object.prototype`, each with the
    text a template literal renders for it (functions render as their source,
    `__proto__` as the prototype object).
   */
  const InheritedMembers: map<string, string> := map[
    "constructor" := "function Object() { [native code] }",
    "toString" := "function toString() { [native code] }",
    "toLocaleString" := "function toLocaleString() { [native code] }",
    "valueOf" := "function valueOf() { [native code] }",
    "hasOwnProperty" := "function hasOwnProperty() { [native code] }",
    "isPrototypeOf" := "function isPrototypeOf() { [native code] }",
    "propertyIsEnumerable" := "function propertyIsEnumerable() { [native code] }",
    "__defineGetter__" := "function __defineGetter__() { [native code] }",
    "__defineSetter__" := "function __defineSetter__() { [native code] }",
    "__lookupGetter__" := "function __lookupGetter__() { [native code] }",
    "__lookupSetter__" := "function __lookupSetter__() { [native code] }",
    "__proto__" := "[object Object]"
  ]

  /** `obj[key]` on an object literal: its own entries first, then the inherited members. */
  function ReadProperty(own: map<string, string>, key: string): (p: Property)
  {
    if key in own then Value(own[key])
    else if key in InheritedMembers then Value(InheritedMembers[key])
    else Undefined
  }

  /**
    JavaScript truthiness of a property read. Functions and objects are
    truthy; strings are truthy unless empty. Every inherited member is a
    function or an object, so only an own empty string is falsy here.
   */
  predicate Truthy(own: map<string, string>, key: string)
  {
    match ReadProperty(own, key)
    case Undefined => false
    case Value(text) => key !in own || |text| > 0
  }

  /** `getLogoPath` as written: `logoMap[fileName]` also finds inherited members. */
  function LogoPathAsWritten(path: string): (logo: string)
    ensures |BasePath(path)| <= |logo| && logo[..|BasePath(path)|] == BasePath(path)
  {
    var base := BasePath(path);
    if Contains(path, IndustryMarker) then
      var fileName := LastSegment(path);
      if Truthy(LogoMap, fileName) then base + ReadProperty(LogoMap, fileName).text
      else base + DefaultLogo
    else base + DefaultLogo
  }

  /**
    The written lookup departs from the intended one exactly on industry
    pages whose file name is an inherited member name.
   */
  lemma AsWrittenDiffersOnlyOnInheritedNames(path: string)
    ensures LogoPathAsWritten(path) != LogoPath(path) <==>
              Occurs(path, IndustryMarker) && LastSegment(path) in InheritedMembers
  {
    ContainsMeansOccurs(path, IndustryMarker);
    var fileName := LastSegment(path);
    assert fileName in InheritedMembers ==> fileName !in LogoMap;
    if Occurs(path, IndustryMarker) && fileName in InheritedMembers {
      var text := InheritedMembers[fileName];
      assert text != DefaultLogo;
      var base := BasePath(path);
      assert LogoPathAsWritten(path) == base + text;
      assert LogoPath(path) == base + DefaultLogo;
      assert (base + text)[|base|..] == text;
      assert (base + DefaultLogo)[|base|..] == DefaultLogo;
    }
  }

  /**
    The page `<dir>/industry/constructor` (for instance `/industry/constructor`)
    renders the source text of `Object` as its logo path, where the intended
    lookup shows the home logo.
   */
  lemma ConstructorPageLeaksObjectSource(dir: string)
    ensures LogoPathAsWritten(dir + "/industry/constructor") == ParentPrefix + "function Object() { [native code] }"
    ensures LogoPath(dir + "/industry/constructor") == ParentPrefix + DefaultLogo
  {
    var path := dir + "/industry/constructor";
    assert path == (dir + "/industry") + [Slash] + "constructor";
    LastSegmentAfterSlash(dir + "/industry", "constructor");
    assert OccursAt(path, IndustryMarker, |dir|);
    ContainsMeansOccurs(path, IndustryMarker);
    assert BasePath(path) == ParentPrefix;
    InheritedConstructor();
  }

  /** The `constructor` member is inherited, not own, and renders as the source of `Object`. */
  lemma InheritedConstructor()
    ensures ReadProperty(LogoMap, "constructor") == Value("function Object() { [native code] }")
    ensures Truthy(LogoMap, "constructor")
  {
    assert "constructor" !in LogoMap;
    assert "constructor" in InheritedMembers;
  }
}
