/**
 * The two style-control generators every widget file carries a copy of: the
 * margin/padding pair and the typography-and-tabs block (an optional typography
 * control, then a NORMAL, a HOVER and optionally a focus tab).
 *
 * The tab generator is described by slots: each tab considers the same nine
 * parts in a fixed order and registers those its options enable.
 */
module Generators {
  import opened Php
  import opened Controls
  import opened StyleOptions

  const DimUnits: seq<string> := ["px", "%", "em"]
  const Devices: seq<string> := ["desktop", "tablet", "mobile"]
  const BackgroundTypes: seq<string> := ["classic", "gradient", "video"]

  // ---------------------------------------------------------------------------
  // generate_margin_padding_controls
  // ---------------------------------------------------------------------------

  /** Two responsive dimension controls, `SECTION_margin` then `SECTION_padding`,
      both on the selector `{{WRAPPER}} .CLASS` and on every device. */
  function MarginPadding(section: string, htmlClass: string,
                         defaultPadding: Assoc<string> := [], defaultMargin: Assoc<string> := []): (r: seq<Control>)
    ensures |r| == 2
    ensures r[0].name == section + "_margin" && r[1].name == section + "_padding"
    ensures forall c :: c in r ==> c.kind == Dimensions(DimUnits) && c.responsive && c.devices == Devices
    ensures r[0].target == Selectors([(Wrap(htmlClass), MarginRule)])
    ensures r[1].target == Selectors([(Wrap(htmlClass), PaddingRule)])
    ensures r[0].default == Dims(defaultMargin) && r[1].default == Dims(defaultPadding)
  {
    [ Control(section + "_margin", Dimensions(DimUnits), Translated("Margin"), true, Devices, "",
              Dims(defaultMargin), Selectors([(Wrap(htmlClass), MarginRule)])),
      Control(section + "_padding", Dimensions(DimUnits), Translated("Padding"), true, Devices, "after",
              Dims(defaultPadding), Selectors([(Wrap(htmlClass), PaddingRule)])) ]
  }

  // ---------------------------------------------------------------------------
  // generate_typography_tabs_controls: slots
  // ---------------------------------------------------------------------------

  /** The three tabs; `Active` is the one whose caption defaults to FOCUS. */
  datatype State = Normal | Hover | Active

  /** What a tab may hold; the extra colour and extra background are the
      `additional_color` and `additional_background` controls. */
  datatype Part =
    | ColorPart | ExtraColorPart | BackgroundPart | ExtraBackgroundPart | TransitionPart
    | DividerPart | BorderPart | RadiusPart | ShadowPart

  /** The order in which every tab considers its parts. */
  const PartOrder: seq<Part> := [
    ColorPart, ExtraColorPart, BackgroundPart, ExtraBackgroundPart, TransitionPart,
    DividerPart, BorderPart, RadiusPart, ShadowPart
  ]

  datatype Slot = TypographySlot | TabSlot(state: State, part: Part)

  /** Whether the options register the control of a slot. */
  predicate Enabled(o: StyleOpts, s: Slot) {
    match s
    case TypographySlot => o.includeTypography
    case TabSlot(t, p) =>
      (t != Active || o.includeActiveTab) &&
      match p
      case ColorPart => o.includeColor
      case ExtraColorPart => o.additionalColor
      case BackgroundPart => o.includeBg
      case ExtraBackgroundPart => o.additionalBackground && t != Active
      case TransitionPart => o.includeTransition && t == Hover
      case DividerPart => true
      case BorderPart => o.includeBorder
      case RadiusPart => true
      case ShadowPart => true
  }

  /** The enabled slots of `xs`, in order. */
  function Filter(o: StyleOpts, xs: seq<Slot>): (r: seq<Slot>)
    ensures forall s :: s in r <==> s in xs && Enabled(o, s)
    ensures |r| <= |xs|
    decreases |xs|
  {
    if xs == [] then []
    else (if Enabled(o, xs[0]) then [xs[0]] else []) + Filter(o, xs[1..])
  }

  function PartsOf(t: State): (r: seq<Slot>)
    ensures |r| == |PartOrder|
    ensures forall i :: 0 <= i < |r| ==> r[i] == TabSlot(t, PartOrder[i])
  {
    seq(|PartOrder|, i requires 0 <= i < |PartOrder| => TabSlot(t, PartOrder[i]))
  }

  /** The slots of one tab, in registration order. */
  function TabSlots(o: StyleOpts, t: State): seq<Slot> {
    Filter(o, PartsOf(t))
  }

  // ---------------------------------------------------------------------------
  // The control of each slot
  // ---------------------------------------------------------------------------

  function StateWord(t: State): string {
    match t
    case Normal => "normal"
    case Hover => "hover"
    case Active => "active"
  }

  const TextColor: string := "_text_color"

  /** The name ending of the extra colour and extra background controls:
      `_normal_text_color`, `_hover_text_color` or `_active_text_color`. */
  function TextColorSuffix(t: State): string {
    "_" + StateWord(t) + TextColor
  }

  /** The part of a control's name after the section id. */
  function Suffix(o: StyleOpts, s: Slot): string {
    match s
    case TypographySlot => "_typography"
    case TabSlot(t, ExtraColorPart) => "_" + o.additionalColorName + TextColorSuffix(t)
    case TabSlot(t, ExtraBackgroundPart) => "_" + o.additionalBackgroundName + TextColorSuffix(t)
    case TabSlot(t, p) => FixedSuffix(t, p)
  }

  /** The literal name endings. The transition control only exists in HOVER. */
  function FixedSuffix(t: State, p: Part): string {
    match (t, p)
    case (Normal, ColorPart) => TextColorSuffix(Normal)
    case (Hover, ColorPart) => "_hover_color"
    case (Active, ColorPart) => "_active_color"
    case (Normal, BackgroundPart) => "_normal_background"
    case (Hover, BackgroundPart) => "_background_hover"
    case (Active, BackgroundPart) => "_background_active"
    case (_, TransitionPart) => "_hover_transition"
    case (Normal, DividerPart) => "_separate_normal"
    case (Hover, DividerPart) => "_separate_hover"
    case (Active, DividerPart) => "_separate_active"
    case (Normal, BorderPart) => "_border_normal"
    case (Hover, BorderPart) => "_border_hover"
    case (Active, BorderPart) => "_border_active"
    case (Normal, RadiusPart) => "_border_radius_normal"
    case (Hover, RadiusPart) => "_border_radius_hover"
    case (Active, RadiusPart) => "_border_radius_active"
    case (Normal, ShadowPart) => "_box_shadow_normal"
    case (Hover, ShadowPart) => "_box_shadow_hover"
    case (Active, ShadowPart) => "_box_shadow_active"
    case (_, _) => ""
  }

  /** The selector a tab's background, border, radius and shadow controls target. */
  function StateSelector(o: StyleOpts, t: State): string {
    match t
    case Normal => Wrap(o.htmlClass)
    case Hover => Wrap(o.htmlClass) + ":hover"
    case Active => Wrap(o.activeClass)
  }

  function ColorClass(o: StyleOpts, t: State): string {
    match t
    case Normal => o.colorClass
    case Hover => o.colorHoverClass
    case Active => o.colorActiveClass
  }

  function ExtraColorClass(o: StyleOpts, t: State): string {
    match t
    case Normal => o.additionalColorClass
    case Hover => o.additionalColorHoverClass
    case Active => o.additionalColorActiveClass
  }

  function KindOf(s: Slot): Kind {
    match s
    case TypographySlot => TypographyGroup
    case TabSlot(_, p) =>
      match p
      case ColorPart => ColorPicker
      case ExtraColorPart => ColorPicker
      case BackgroundPart => BackgroundGroup(BackgroundTypes)
      case ExtraBackgroundPart => ColorPicker
      case TransitionPart => Slider(["s"], 1, 50, 1)
      case DividerPart => Divider
      case BorderPart => BorderGroup
      case RadiusPart => Dimensions(DimUnits)
      case ShadowPart => BoxShadowGroup
  }

  function CaptionOf(o: StyleOpts, s: Slot): Label {
    match s
    case TypographySlot => Escaped(o.typographyName)
    case TabSlot(_, p) =>
      match p
      case ColorPart => Escaped(o.colorPrefix + "Color")
      case ExtraColorPart => Escaped(o.additionalColorName)
      case BackgroundPart => Translated("Background type")
      case ExtraBackgroundPart => Escaped(o.additionalBackgroundName)
      case TransitionPart => Translated("Hover transition duration")
      case DividerPart => NoLabel
      case BorderPart => Translated("Border Type")
      case RadiusPart => Translated("Border radius")
      case ShadowPart => Translated("Box Shadow")
  }

  /** In NORMAL and HOVER the radius rule also goes on a second selector from the
      options (merged with the first when it is the same text). */
  function RadiusRules(o: StyleOpts, t: State): Assoc<Rule> {
    match t
    case Normal => Put([(StateSelector(o, t), RadiusRule)], o.additionalBorderRadiusClass, RadiusRule)
    case Hover => Put([(StateSelector(o, t), RadiusRule)], o.additionalBorderRadiusHoverClass, RadiusRule)
    case Active => [(StateSelector(o, t), RadiusRule)]
  }

  function TargetOf(o: StyleOpts, s: Slot): Target {
    match s
    case TypographySlot => Selector(Wrap(o.typographyClass))
    case TabSlot(t, p) =>
      match p
      case ColorPart => Selectors([(Wrap(ColorClass(o, t)), ColorRule)])
      case ExtraColorPart => Selectors([(Wrap(ExtraColorClass(o, t)), ColorRule)])
      case BackgroundPart => Selector(StateSelector(o, t))
      case ExtraBackgroundPart =>
        var sel := Wrap(o.additionalBackgroundClass);
        Selectors([(if t == Hover then sel + ":hover" else sel, BackgroundRule)])
      case TransitionPart =>
        Selectors(Put([(Wrap(o.htmlClass), TransitionRule)], o.additionalTransitionSelector, TransitionRuleTwice))
      case DividerPart => NoTarget
      case BorderPart => Selector(StateSelector(o, t))
      case RadiusPart => Selectors(RadiusRules(o, t))
      case ShadowPart => Selector(StateSelector(o, t))
  }

  /** Only the transition slider has a default: 0 seconds. */
  function DefaultOf(s: Slot): Default {
    if s == TabSlot(Hover, TransitionPart) then Size("s", 0) else NoDefault
  }

  function ControlOf(section: string, o: StyleOpts, s: Slot): Control {
    Control(section + Suffix(o, s), KindOf(s), CaptionOf(o, s), s.TabSlot? && s.part == RadiusPart,
            [], "", DefaultOf(s), TargetOf(o, s))
  }

  function ControlsOf(section: string, o: StyleOpts, slots: seq<Slot>): (r: seq<Control>)
    ensures |r| == |slots|
    ensures forall i :: 0 <= i < |r| ==> r[i] == ControlOf(section, o, slots[i])
  {
    seq(|slots|, i requires 0 <= i < |slots| => ControlOf(section, o, slots[i]))
  }

  // ---------------------------------------------------------------------------
  // Tabs and the whole block
  // ---------------------------------------------------------------------------

  function TabId(section: string, t: State): string {
    match t
    case Normal => section + "_normal_style_tab"
    case Hover => section + "_hover_style_tab"
    case Active => section + "_focus_style_tab"
  }

  function TabCaption(o: StyleOpts, t: State): Label {
    match t
    case Normal => Translated("NORMAL")
    case Hover => Translated("HOVER")
    case Active => Escaped(o.activeTabName)
  }

  function TabOf(section: string, o: StyleOpts, t: State): Tab {
    Tab(TabId(section, t), TabCaption(o, t), ControlsOf(section, o, TabSlots(o, t)))
  }

  /** The registrations for already defaulted options. */
  function Emit(section: string, o: StyleOpts): seq<Item> {
    Adds(ControlsOf(section, o, Filter(o, [TypographySlot])))
    + [StartTabs(section + "_style_tabs")]
    + TabItems(TabOf(section, o, Normal))
    + TabItems(TabOf(section, o, Hover))
    + (if o.includeActiveTab then TabItems(TabOf(section, o, Active)) else [])
    + [EndTabs]
  }

  /** generate_typography_tabs_controls exactly as written. */
  function TypographyTabsAsWritten(section: string, opts: Opts): seq<Item> {
    Emit(section, DefaultsAsWritten(opts))
  }

  /** generate_typography_tabs_controls with `include_bg` read from its own key. */
  function TypographyTabs(section: string, opts: Opts): seq<Item> {
    Emit(section, Defaults(opts))
  }
}
