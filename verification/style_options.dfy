/**
 * The option defaulting at the top of the typography-and-tabs generator: every
 * option a section may pass, read from the caller's array with a default for each
 * absent key.
 */
module StyleOptions {
  import opened Php

  /** An option value as a caller writes it: a PHP bool or a PHP string. */
  datatype OptVal = B(b: bool) | S(s: string)

  /** The option keys the generator reads; any other key in the caller's array is ignored. */
  datatype Key =
    HtmlClass
    | ActiveClass
    | IncludeColor
    | IncludeBorder
    | IncludeBg
    | IncludeTypography
    | IncludeTransition
    | AdditionalColor
    | AdditionalBackground
    | TypographyName
    | AdditionalBackgroundName
    | AdditionalBackgroundClass
    | AdditionalBorderRadiusClass
    | AdditionalBorderRadiusHoverClass
    | IncludeActiveTab
    | ActiveTabName
    | ColorPrefix
    | ColorClass
    | ColorHoverClass
    | ColorActiveClass
    | ColorHoverSelector
    | AdditionalColorName
    | AdditionalColorClass
    | AdditionalColorHoverClass
    | AdditionalColorActiveClass
    | AdditionalTransitionSelector
    | TypographyClass

  /** The PHP array key of each option. */
  function KeyName(k: Key): string {
    match k
    case HtmlClass => "html_class"
    case ActiveClass => "active_class"
    case IncludeColor => "include_color"
    case IncludeBorder => "include_border"
    case IncludeBg => "include_bg"
    case IncludeTypography => "include_typography"
    case IncludeTransition => "include_transition"
    case AdditionalColor => "additional_color"
    case AdditionalBackground => "additional_background"
    case TypographyName => "typography_name"
    case AdditionalBackgroundName => "additional_background_name"
    case AdditionalBackgroundClass => "additional_background_class"
    case AdditionalBorderRadiusClass => "additional_border_radius_class"
    case AdditionalBorderRadiusHoverClass => "additional_border_radius_hover_class"
    case IncludeActiveTab => "include_active_tab"
    case ActiveTabName => "active_tab_name"
    case ColorPrefix => "color_prefix"
    case ColorClass => "color_class"
    case ColorHoverClass => "color_hover_class"
    case ColorActiveClass => "color_active_class"
    case ColorHoverSelector => "color_hover_selector"
    case AdditionalColorName => "additional_color_name"
    case AdditionalColorClass => "additional_color_class"
    case AdditionalColorHoverClass => "additional_color_hover_class"
    case AdditionalColorActiveClass => "additional_color_active_class"
    case AdditionalTransitionSelector => "additional_transition_selector"
    case TypographyClass => "typography_class"
  }

  const AllKeys: set<Key> := {HtmlClass, ActiveClass, IncludeColor, IncludeBorder, IncludeBg, IncludeTypography, IncludeTransition, AdditionalColor, AdditionalBackground, TypographyName, AdditionalBackgroundName, AdditionalBackgroundClass, AdditionalBorderRadiusClass, AdditionalBorderRadiusHoverClass, IncludeActiveTab, ActiveTabName, ColorPrefix, ColorClass, ColorHoverClass, ColorActiveClass, ColorHoverSelector, AdditionalColorName, AdditionalColorClass, AdditionalColorHoverClass, AdditionalColorActiveClass, AdditionalTransitionSelector, TypographyClass}

  /** The caller's option array; only key lookup matters, so order is dropped. */
  type Opts = map<Key, OptVal>

  /** PHP truthiness of an option value, as an `if` tests it. */
  predicate Truth(v: OptVal) {
    match v
    case B(b) => b
    case S(s) => Truthy(s)
  }

  /** PHP string conversion of an option value, as a concatenation performs it. */
  function Str(v: OptVal): string {
    match v
    case B(b) => if b then "1" else ""
    case S(s) => s
  }

  /** The defaulted options. Flags hold the truthiness the generator tests; texts
      hold the string the generator concatenates. */
  datatype StyleOpts = StyleOpts(
    htmlClass: string,
    activeClass: string,
    includeColor: bool,
    includeBorder: bool,
    includeBg: bool,
    includeTypography: bool,
    includeTransition: bool,
    additionalColor: bool,
    additionalBackground: bool,
    typographyName: string,
    additionalBackgroundName: string,
    additionalBackgroundClass: string,
    additionalBorderRadiusClass: string,
    additionalBorderRadiusHoverClass: string,
    includeActiveTab: bool,
    activeTabName: string,
    colorPrefix: string,
    colorClass: string,
    colorHoverClass: string,
    colorActiveClass: string,
    colorHoverSelector: string,
    additionalColorName: string,
    additionalColorClass: string,
    additionalColorHoverClass: string,
    additionalColorActiveClass: string,
    additionalTransitionSelector: string,
    typographyClass: string
  )

  /** `array_key_exists($k, $opts) ? $opts[$k] : $default` for a text option. */
  function Text(opts: Opts, k: Key, default: string): string {
    if k in opts then Str(opts[k]) else default
  }

  /** The same for a flag option. */
  predicate Flag(opts: Opts, k: Key, default: bool) {
    if k in opts then Truth(opts[k]) else default
  }

  /** The defaulting with the `include_bg` flag supplied by the caller of this helper. */
  function ReadOpts(opts: Opts, includeBg: bool): StyleOpts {
    StyleOpts(
      Text(opts, HtmlClass, ""),
      Text(opts, ActiveClass, ""),
      Flag(opts, IncludeColor, true),
      Flag(opts, IncludeBorder, true),
      includeBg,
      Flag(opts, IncludeTypography, true),
      Flag(opts, IncludeTransition, true),
      Flag(opts, AdditionalColor, false),
      Flag(opts, AdditionalBackground, false),
      Text(opts, TypographyName, "Typography"),
      Text(opts, AdditionalBackgroundName, ""),
      Text(opts, AdditionalBackgroundClass, ""),
      Text(opts, AdditionalBorderRadiusClass, ""),
      Text(opts, AdditionalBorderRadiusHoverClass, ""),
      Flag(opts, IncludeActiveTab, false),
      Text(opts, ActiveTabName, "FOCUS"),
      Text(opts, ColorPrefix, ""),
      Text(opts, ColorClass, ""),
      Text(opts, ColorHoverClass, ""),
      Text(opts, ColorActiveClass, ""),
      Text(opts, ColorHoverSelector, ""),
      Text(opts, AdditionalColorName, ""),
      Text(opts, AdditionalColorClass, ""),
      Text(opts, AdditionalColorHoverClass, ""),
      Text(opts, AdditionalColorActiveClass, ""),
      Text(opts, AdditionalTransitionSelector, ""),
      Text(opts, TypographyClass, "")
    )
  }

  /** `include_bg` as the generators compute it: when the key is present they read
      `include_color` instead, which is null (falsy) when that key is absent. */
  predicate IncludeBgAsWritten(opts: Opts) {
    if IncludeBg in opts then IncludeColor in opts && Truth(opts[IncludeColor]) else true
  }

  /** The defaulting exactly as the three widget files write it. */
  function DefaultsAsWritten(opts: Opts): StyleOpts {
    ReadOpts(opts, IncludeBgAsWritten(opts))
  }

  /** The defaulting with `include_bg` read from its own key, as its name says. */
  function Defaults(opts: Opts): StyleOpts {
    ReadOpts(opts, Flag(opts, IncludeBg, true))
  }

  /** The defaulted options that decide a section's tabs, each read from its key. */
  lemma DefaultsTabOptions(opts: Opts)
    ensures var o := Defaults(opts);
            && o.includeColor == Flag(opts, IncludeColor, true)
            && o.includeBorder == Flag(opts, IncludeBorder, true)
            && o.includeBg == Flag(opts, IncludeBg, true)
            && o.additionalColor == Flag(opts, AdditionalColor, false)
            && o.additionalBackground == Flag(opts, AdditionalBackground, false)
            && o.includeActiveTab == Flag(opts, IncludeActiveTab, false)
            && o.activeClass == Text(opts, ActiveClass, "")
            && o.colorActiveClass == Text(opts, ColorActiveClass, "")
            && o.activeTabName == Text(opts, ActiveTabName, "FOCUS")
  {
  }

  /** Defaulting an empty option array. */
  const NoOpts: StyleOpts := StyleOpts(
    "", "", true, true, true, true, true, false, false, "Typography", "", "", "", "",
    false, "FOCUS", "", "", "", "", "", "", "", "", "", "", "")

  /** The value a caller passing every key writes for one option. */
  function Field(s: StyleOpts, k: Key): OptVal {
    match k
    case HtmlClass => S(s.htmlClass)
    case ActiveClass => S(s.activeClass)
    case IncludeColor => B(s.includeColor)
    case IncludeBorder => B(s.includeBorder)
    case IncludeBg => B(s.includeBg)
    case IncludeTypography => B(s.includeTypography)
    case IncludeTransition => B(s.includeTransition)
    case AdditionalColor => B(s.additionalColor)
    case AdditionalBackground => B(s.additionalBackground)
    case TypographyName => S(s.typographyName)
    case AdditionalBackgroundName => S(s.additionalBackgroundName)
    case AdditionalBackgroundClass => S(s.additionalBackgroundClass)
    case AdditionalBorderRadiusClass => S(s.additionalBorderRadiusClass)
    case AdditionalBorderRadiusHoverClass => S(s.additionalBorderRadiusHoverClass)
    case IncludeActiveTab => B(s.includeActiveTab)
    case ActiveTabName => S(s.activeTabName)
    case ColorPrefix => S(s.colorPrefix)
    case ColorClass => S(s.colorClass)
    case ColorHoverClass => S(s.colorHoverClass)
    case ColorActiveClass => S(s.colorActiveClass)
    case ColorHoverSelector => S(s.colorHoverSelector)
    case AdditionalColorName => S(s.additionalColorName)
    case AdditionalColorClass => S(s.additionalColorClass)
    case AdditionalColorHoverClass => S(s.additionalColorHoverClass)
    case AdditionalColorActiveClass => S(s.additionalColorActiveClass)
    case AdditionalTransitionSelector => S(s.additionalTransitionSelector)
    case TypographyClass => S(s.typographyClass)
  }

  /** Every option written out, as a caller passing all keys would. */
  function Encode(s: StyleOpts): Opts {
    map k | k in AllKeys :: Field(s, k)
  }

  lemma AllKeysComplete(k: Key)
    ensures k in AllKeys
  {
  }

  lemma EncodeLookup(s: StyleOpts, k: Key)
    ensures k in Encode(s) && Encode(s)[k] == Field(s, k)
  {
    AllKeysComplete(k);
  }

  /** With no options at all, every option takes its listed default. */
  lemma EmptyTakesDefaults()
    ensures Defaults(map[]) == NoOpts
    ensures DefaultsAsWritten(map[]) == NoOpts
  {
  }

  lemma TextBack(s: StyleOpts, k: Key, default: string)
    ensures Text(Encode(s), k, default) == Str(Field(s, k))
  {
    EncodeLookup(s, k);
  }

  lemma FlagBack(s: StyleOpts, k: Key, default: bool)
    ensures Flag(Encode(s), k, default) == Truth(Field(s, k))
  {
    EncodeLookup(s, k);
  }

  lemma ReadsBack1(s: StyleOpts)
    ensures Text(Encode(s), HtmlClass, "") == s.htmlClass
    ensures Text(Encode(s), ActiveClass, "") == s.activeClass
    ensures Flag(Encode(s), IncludeColor, true) == s.includeColor
  {
    TextBack(s, HtmlClass, "");
    TextBack(s, ActiveClass, "");
    FlagBack(s, IncludeColor, true);
  }

  lemma ReadsBack2(s: StyleOpts)
    ensures Flag(Encode(s), IncludeBorder, true) == s.includeBorder
    ensures Flag(Encode(s), IncludeTypography, true) == s.includeTypography
    ensures Flag(Encode(s), IncludeTransition, true) == s.includeTransition
  {
    FlagBack(s, IncludeBorder, true);
    FlagBack(s, IncludeTypography, true);
    FlagBack(s, IncludeTransition, true);
  }

  lemma ReadsBack3(s: StyleOpts)
    ensures Flag(Encode(s), AdditionalColor, false) == s.additionalColor
    ensures Flag(Encode(s), AdditionalBackground, false) == s.additionalBackground
    ensures Text(Encode(s), TypographyName, "Typography") == s.typographyName
  {
    FlagBack(s, AdditionalColor, false);
    FlagBack(s, AdditionalBackground, false);
    TextBack(s, TypographyName, "Typography");
  }

  lemma ReadsBack4(s: StyleOpts)
    ensures Text(Encode(s), AdditionalBackgroundName, "") == s.additionalBackgroundName
    ensures Text(Encode(s), AdditionalBackgroundClass, "") == s.additionalBackgroundClass
    ensures Text(Encode(s), AdditionalBorderRadiusClass, "") == s.additionalBorderRadiusClass
  {
    TextBack(s, AdditionalBackgroundName, "");
    TextBack(s, AdditionalBackgroundClass, "");
    TextBack(s, AdditionalBorderRadiusClass, "");
  }

  lemma ReadsBack5(s: StyleOpts)
    ensures Text(Encode(s), AdditionalBorderRadiusHoverClass, "") == s.additionalBorderRadiusHoverClass
    ensures Flag(Encode(s), IncludeActiveTab, false) == s.includeActiveTab
    ensures Text(Encode(s), ActiveTabName, "FOCUS") == s.activeTabName
  {
    TextBack(s, AdditionalBorderRadiusHoverClass, "");
    FlagBack(s, IncludeActiveTab, false);
    TextBack(s, ActiveTabName, "FOCUS");
  }

  lemma ReadsBack6(s: StyleOpts)
    ensures Text(Encode(s), ColorPrefix, "") == s.colorPrefix
    ensures Text(Encode(s), ColorClass, "") == s.colorClass
    ensures Text(Encode(s), ColorHoverClass, "") == s.colorHoverClass
  {
    TextBack(s, ColorPrefix, "");
    TextBack(s, ColorClass, "");
    TextBack(s, ColorHoverClass, "");
  }

  lemma ReadsBack7(s: StyleOpts)
    ensures Text(Encode(s), ColorActiveClass, "") == s.colorActiveClass
    ensures Text(Encode(s), ColorHoverSelector, "") == s.colorHoverSelector
    ensures Text(Encode(s), AdditionalColorName, "") == s.additionalColorName
  {
    TextBack(s, ColorActiveClass, "");
    TextBack(s, ColorHoverSelector, "");
    TextBack(s, AdditionalColorName, "");
  }

  lemma ReadsBack8(s: StyleOpts)
    ensures Text(Encode(s), AdditionalColorClass, "") == s.additionalColorClass
    ensures Text(Encode(s), AdditionalColorHoverClass, "") == s.additionalColorHoverClass
    ensures Text(Encode(s), AdditionalColorActiveClass, "") == s.additionalColorActiveClass
  {
    TextBack(s, AdditionalColorClass, "");
    TextBack(s, AdditionalColorHoverClass, "");
    TextBack(s, AdditionalColorActiveClass, "");
  }

  lemma ReadsBack9(s: StyleOpts)
    ensures Text(Encode(s), AdditionalTransitionSelector, "") == s.additionalTransitionSelector
    ensures Text(Encode(s), TypographyClass, "") == s.typographyClass
  {
    TextBack(s, AdditionalTransitionSelector, "");
    TextBack(s, TypographyClass, "");
  }

  lemma ReadsBack(s: StyleOpts)
    ensures ReadOpts(Encode(s), s.includeBg) == s
    ensures Flag(Encode(s), IncludeBg, true) == s.includeBg
    ensures IncludeBgAsWritten(Encode(s)) == s.includeColor
  {
    ReadsBack1(s);
    ReadsBack2(s);
    ReadsBack3(s);
    ReadsBack4(s);
    ReadsBack5(s);
    ReadsBack6(s);
    ReadsBack7(s);
    ReadsBack8(s);
    ReadsBack9(s);
    EncodeLookup(s, IncludeBg);
    EncodeLookup(s, IncludeColor);
  }

  /** Passing every option explicitly gives back exactly those options. */
  lemma DefaultsEncode(s: StyleOpts)
    ensures Defaults(Encode(s)) == s
  {
    ReadsBack(s);
  }

  /** The two defaultings differ only in `include_bg`, and only when its key is
      present: no call site passes that key, so at every call site they agree. */
  lemma AsWrittenAgreesWithoutKey(opts: Opts)
    ensures DefaultsAsWritten(opts) == Defaults(opts).(includeBg := DefaultsAsWritten(opts).includeBg)
    ensures IncludeBg !in opts ==> DefaultsAsWritten(opts) == Defaults(opts)
  {
  }

  /** As written, a caller asking for background controls with `include_bg` but
      leaving `include_color` out gets none, and one switching them off while keeping
      colours still gets them. */
  lemma IncludeBgIgnored()
    ensures !DefaultsAsWritten(map[IncludeBg := B(true)]).includeBg
    ensures Defaults(map[IncludeBg := B(true)]).includeBg
    ensures DefaultsAsWritten(map[IncludeBg := B(false), IncludeColor := B(true)]).includeBg
    ensures !Defaults(map[IncludeBg := B(false), IncludeColor := B(true)]).includeBg
  {
  }

  /** As written, passing every option explicitly loses `include_bg`: it comes back
      as `include_color`. */
  lemma AsWrittenEncode(s: StyleOpts)
    ensures DefaultsAsWritten(Encode(s)) == s.(includeBg := s.includeColor)
  {
    ReadsBack(s);
  }
}
