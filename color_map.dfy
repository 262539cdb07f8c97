/** The tag palette and the lookup from a tag colour to its badge classes
    (frontend/src/utils/colorMap.ts). */
module ColorMap {
  import opened Wrappers

  /** The background and text classes of a tag badge. */
  datatype ColorPair = ColorPair(bg: string, text: string)

  /** The colour used when a tag has none. */
  const DEFAULT_COLOR: string := "#3b82f6"

  /** The classes shown for an unknown colour. */
  const FALLBACK: ColorPair := ColorPair("bg-blue-100", "text-blue-600")

  /** The palette new tags draw their colour from. */
  const TAG_COLORS: seq<string> := [
    "#ef4444", "#f97316", "#f59e0b", "#84cc16", "#22c55e",
    "#10b981", "#14b8a6", "#06b6d4", "#0ea5e9", "#3b82f6",
    "#6366f1", "#8b5cf6", "#a855f7", "#d946ef", "#ec4899"
  ]

  const COLOR_MAP: map<string, ColorPair> := map[
    "#ef4444" := ColorPair("bg-red-100", "text-red-600"),
    "#f97316" := ColorPair("bg-orange-100", "text-orange-600"),
    "#f59e0b" := ColorPair("bg-amber-100", "text-amber-600"),
    "#84cc16" := ColorPair("bg-lime-100", "text-lime-600"),
    "#22c55e" := ColorPair("bg-green-100", "text-green-600"),
    "#10b981" := ColorPair("bg-emerald-100", "text-emerald-600"),
    "#14b8a6" := ColorPair("bg-teal-100", "text-teal-600"),
    "#06b6d4" := ColorPair("bg-cyan-100", "text-cyan-600"),
    "#0ea5e9" := ColorPair("bg-sky-100", "text-sky-600"),
    "#3b82f6" := ColorPair("bg-blue-100", "text-blue-600"),
    "#6366f1" := ColorPair("bg-indigo-100", "text-indigo-600"),
    "#8b5cf6" := ColorPair("bg-violet-100", "text-violet-600"),
    "#a855f7" := ColorPair("bg-purple-100", "text-purple-600"),
    "#d946ef" := ColorPair("bg-fuchsia-100", "text-fuchsia-600"),
    "#ec4899" := ColorPair("bg-pink-100", "text-pink-600")
  ]

  /** The palette has fifteen distinct colours, each of which has badge classes, and
      the classes are given for exactly the palette's colours. */
  lemma PaletteIsMapped()
    ensures |TAG_COLORS| == 15
    ensures forall i, j :: 0 <= i < j < |TAG_COLORS| ==> TAG_COLORS[i] != TAG_COLORS[j]
    ensures forall i :: 0 <= i < |TAG_COLORS| ==> TAG_COLORS[i] in COLOR_MAP
    ensures forall c :: c in COLOR_MAP ==> c in TAG_COLORS
  {
  }

  /** `getTagColors(color)`, reading `COLOR_MAP` as a table of its own entries: a `null`
      or `undefined` colour means the default colour, and any colour without an entry
      gets the blue fallback.  The rest of the model uses this definition. */
  function GetTagColors(color: Option<string>): (r: ColorPair)
    ensures color.None? ==> r == COLOR_MAP[DEFAULT_COLOR]
    ensures color.Some? && color.value in COLOR_MAP ==> r == COLOR_MAP[color.value]
    ensures color.Some? && color.value !in COLOR_MAP ==> r == FALLBACK
    ensures r in COLOR_MAP.Values
  {
    var key := if color.Some? then color.value else DEFAULT_COLOR;
    assert COLOR_MAP[DEFAULT_COLOR] == FALLBACK;
    if key in COLOR_MAP then COLOR_MAP[key] else FALLBACK
  }

  /** A tag coloured from the palette shows that colour's own classes. */
  lemma PaletteColorsShowOwnClasses(i: nat)
    requires i < |TAG_COLORS|
    ensures GetTagColors(Some(TAG_COLORS[i])) == COLOR_MAP[TAG_COLORS[i]]
    ensures GetTagColors(Some(TAG_COLORS[i])) != FALLBACK || TAG_COLORS[i] == DEFAULT_COLOR
  {
  }

  // ---------------------------------------------------------------------------
  // The lookup as JavaScript evaluates it.  `COLOR_MAP[key]` on an object literal
  // also finds the members every object inherits from `Object.prototype`; those are
  // functions or objects, so they are truthy and `|| { bg: ..., text: ... }` does not
  // replace them.
  // ---------------------------------------------------------------------------

  /** The property names every plain object inherits from `Object.prototype`. */
  const INHERITED_NAMES: set<string> := {
    "constructor", "hasOwnProperty", "isPrototypeOf", "propertyIsEnumerable",
    "toString", "toLocaleString", "valueOf", "__proto__",
    "__defineGetter__", "__defineSetter__", "__lookupGetter__", "__lookupSetter__"
  }

  /** What `COLOR_MAP[key]` evaluates to. */
  datatype PropertyValue = Own(pair: ColorPair) | Inherited(name: string) | Undefined

  function PropertyOf(key: string): (v: PropertyValue)
    ensures v.Own? <==> key in COLOR_MAP
    ensures v.Inherited? <==> key !in COLOR_MAP && key in INHERITED_NAMES
  {
    if key in COLOR_MAP then Own(COLOR_MAP[key])
    else if key in INHERITED_NAMES then Inherited(key)
    else Undefined
  }

  /** `COLOR_MAP[color ?? "#3b82f6"] || { bg: "bg-blue-100", text: "text-blue-600" }`
      as written: only `undefined` is replaced by the fallback. */
  function GetTagColorsAsWritten(color: Option<string>): (r: PropertyValue)
    ensures !r.Undefined?
  {
    var key := if color.Some? then color.value else DEFAULT_COLOR;
    match PropertyOf(key)
    case Undefined => Own(FALLBACK)
    case v => v
  }

  /** The two definitions agree on every colour except inherited property names. */
  lemma AsWrittenAgreesOffPrototype(color: Option<string>)
    requires color.None? || color.value !in INHERITED_NAMES
    ensures GetTagColorsAsWritten(color) == Own(GetTagColors(color))
  {
  }

  /** A tag whose colour is "toString" (the API stores any colour string it is sent)
      gets the inherited `toString` function rather than the blue fallback, so its
      badge classes are `undefined`. */
  lemma AsWrittenMissesFallback()
    ensures "toString" !in COLOR_MAP
    ensures GetTagColorsAsWritten(Some("toString")) == Inherited("toString")
    ensures GetTagColors(Some("toString")) == FALLBACK
  {
  }
}
