/**
 * What the tab generator promises whatever its options: the layout it
 * registers, the controls every tab carries, where the transition control can
 * appear, and when the control names it registers are pairwise distinct.
 */
module GeneratorLemmas {
  import opened Php
  import opened Controls
  import opened StyleOptions
  import opened Generators

  // ---------------------------------------------------------------------------
  // Filtering
  // ---------------------------------------------------------------------------

  predicate NoDup<T(==)>(s: seq<T>) {
    forall i, j :: 0 <= i < j < |s| ==> s[i] != s[j]
  }

  lemma {:induction false} FilterConcat(o: StyleOpts, a: seq<Slot>, b: seq<Slot>)
    ensures Filter(o, a + b) == Filter(o, a) + Filter(o, b)
    decreases |a|
  {
    if a == [] {
      assert a + b == b;
    } else {
      assert (a + b)[0] == a[0];
      assert (a + b)[1..] == a[1..] + b;
      FilterConcat(o, a[1..], b);
    }
  }

  lemma {:induction false} FilterNoDup(o: StyleOpts, xs: seq<Slot>)
    requires NoDup(xs)
    ensures NoDup(Filter(o, xs))
    decreases |xs|
  {
    if xs != [] {
      assert NoDup(xs[1..]) by {
        forall i, j | 0 <= i < j < |xs[1..]| ensures xs[1..][i] != xs[1..][j] {
          assert xs[1..][i] == xs[i + 1] && xs[1..][j] == xs[j + 1];
        }
      }
      FilterNoDup(o, xs[1..]);
      assert xs[0] !in xs[1..] by {
        forall k | 0 <= k < |xs[1..]| ensures xs[1..][k] != xs[0] {
          assert xs[1..][k] == xs[k + 1];
        }
      }
      NoDupConcat((if Enabled(o, xs[0]) then [xs[0]] else []), Filter(o, xs[1..]));
    }
  }

  lemma NoDupConcat<T>(a: seq<T>, b: seq<T>)
    requires NoDup(a) && NoDup(b)
    requires forall x :: x in a ==> x !in b
    ensures NoDup(a + b)
  {
    forall i, j | 0 <= i < j < |a + b| ensures (a + b)[i] != (a + b)[j] {
      if j < |a| {
        assert (a + b)[i] == a[i] && (a + b)[j] == a[j];
      } else if i >= |a| {
        assert (a + b)[i] == b[i - |a|] && (a + b)[j] == b[j - |a|];
      } else {
        assert (a + b)[i] == a[i] && (a + b)[j] == b[j - |a|];
        assert a[i] in a && b[j - |a|] in b;
      }
    }
  }

  lemma PartOrderNoDup()
    ensures NoDup(PartOrder)
  {
  }

  lemma PartsOfNoDup(t: State)
    ensures NoDup(PartsOf(t))
  {
    PartOrderNoDup();
    var r := PartsOf(t);
    forall i, j | 0 <= i < j < |r| ensures r[i] != r[j] {
      assert r[i].part == PartOrder[i] && r[j].part == PartOrder[j];
    }
  }

  /** Every slot of a tab belongs to that tab's state. */
  lemma TabSlotsOfState(o: StyleOpts, t: State, s: Slot)
    requires s in TabSlots(o, t)
    ensures s.TabSlot? && s.state == t && Enabled(o, s)
  {
    var k :| 0 <= k < |PartsOf(t)| && PartsOf(t)[k] == s;
  }

  // ---------------------------------------------------------------------------
  // Layout and tab contents
  // ---------------------------------------------------------------------------

  function Tabs(section: string, o: StyleOpts): seq<Tab> {
    [TabOf(section, o, Normal), TabOf(section, o, Hover)]
    + (if o.includeActiveTab then [TabOf(section, o, Active)] else [])
  }

  function Typography(section: string, o: StyleOpts): seq<Control> {
    ControlsOf(section, o, Filter(o, [TypographySlot]))
  }

  lemma TabsItemsTwo(x: Tab, y: Tab)
    ensures TabsItems([x, y]) == TabItems(x) + TabItems(y)
  {
    assert [x, y][1..] == [y];
    assert [y][1..] == [];
    assert TabsItems([y]) == TabItems(y) + [];
  }

  lemma TabsItemsThree(x: Tab, y: Tab, z: Tab)
    ensures TabsItems([x, y, z]) == TabItems(x) + TabItems(y) + TabItems(z)
  {
    assert [x, y, z][1..] == [y, z];
    TabsItemsTwo(y, z);
  }

  lemma LayoutOfTwo(b: seq<Control>, id: string, x: Tab, y: Tab)
    ensures Adds(b) + [StartTabs(id)] + TabItems(x) + TabItems(y) + [] + [EndTabs]
            == LayoutItems(Layout(b, id, [x, y], []))
  {
    TabsItemsTwo(x, y);
    assert Adds([]) == [];
  }

  lemma LayoutOfThree(b: seq<Control>, id: string, x: Tab, y: Tab, z: Tab)
    ensures Adds(b) + [StartTabs(id)] + TabItems(x) + TabItems(y) + TabItems(z) + [EndTabs]
            == LayoutItems(Layout(b, id, [x, y, z], []))
  {
    TabsItemsThree(x, y, z);
    assert Adds([]) == [];
  }

  lemma EmitIsLayout(section: string, o: StyleOpts)
    ensures Emit(section, o) == LayoutItems(Layout(Typography(section, o), section + "_style_tabs", Tabs(section, o), []))
  {
    var n, h, a := TabOf(section, o, Normal), TabOf(section, o, Hover), TabOf(section, o, Active);
    if o.includeActiveTab {
      LayoutOfThree(Typography(section, o), section + "_style_tabs", n, h, a);
      assert Tabs(section, o) == [n, h, a];
    } else {
      LayoutOfTwo(Typography(section, o), section + "_style_tabs", n, h);
      assert Tabs(section, o) == [n, h];
    }
  }

  /** Reading the registrations back gives the optional typography control, then
      the tab group `SECTION_style_tabs` holding NORMAL, HOVER and, only when asked
      for, the focus tab, and nothing after the group. */
  lemma EmitLayout(section: string, o: StyleOpts)
    ensures ReadLayout(Emit(section, o)).Some?
    ensures var l := ReadLayout(Emit(section, o)).value;
            && l.tabsId == section + "_style_tabs"
            && l.before == (if o.includeTypography then [ControlOf(section, o, TypographySlot)] else [])
            && |l.tabs| == (if o.includeActiveTab then 3 else 2)
            && l.tabs[0] == TabOf(section, o, Normal)
            && l.tabs[1] == TabOf(section, o, Hover)
            && (o.includeActiveTab ==> l.tabs[2] == TabOf(section, o, Active))
            && l.after == []
  {
    var l := Layout(Typography(section, o), section + "_style_tabs", Tabs(section, o), []);
    EmitIsLayout(section, o);
    ReadLayoutItems(l);
    TypographyBefore(section, o);
    TabsShape(section, o);
  }

  lemma TypographyBefore(section: string, o: StyleOpts)
    ensures Typography(section, o) == (if o.includeTypography then [ControlOf(section, o, TypographySlot)] else [])
  {
    assert [TypographySlot][1..] == [];
  }

  lemma TabsShape(section: string, o: StyleOpts)
    ensures var ts := Tabs(section, o);
            && |ts| == (if o.includeActiveTab then 3 else 2)
            && ts[0] == TabOf(section, o, Normal) && ts[1] == TabOf(section, o, Hover)
            && (o.includeActiveTab ==> ts[2] == TabOf(section, o, Active))
  {
  }

  lemma InControls(section: string, o: StyleOpts, slots: seq<Slot>, c: Control)
    requires c in ControlsOf(section, o, slots)
    ensures exists s :: s in slots && c == ControlOf(section, o, s)
  {
    var k :| 0 <= k < |slots| && ControlsOf(section, o, slots)[k] == c;
    assert slots[k] in slots;
  }

  lemma ControlsIn(section: string, o: StyleOpts, slots: seq<Slot>, s: Slot)
    requires s in slots
    ensures ControlOf(section, o, s) in ControlsOf(section, o, slots)
  {
    var k :| 0 <= k < |slots| && slots[k] == s;
    assert ControlsOf(section, o, slots)[k] == ControlOf(section, o, s);
  }

  lemma FilterPair(o: StyleOpts, x: Slot, y: Slot)
    requires Enabled(o, x) && Enabled(o, y)
    ensures Filter(o, [x, y]) == [x, y]
  {
    assert [x, y][1..] == [y];
    assert [y][1..] == [];
  }

  lemma TabEnds(o: StyleOpts, t: State)
    requires t != Active || o.includeActiveTab
    ensures var r := TabSlots(o, t);
            |r| >= 3 && r[|r| - 2] == TabSlot(t, RadiusPart) && r[|r| - 1] == TabSlot(t, ShadowPart)
            && TabSlot(t, DividerPart) in r
  {
    var front := Filter(o, PartsOf(t)[..7]);
    TabSlotsSplit(o, t);
    PartsOfSplit(t);
    FrameEnabled(o, t);
    FilterKeeps(o, PartsOf(t)[..7], TabSlot(t, DividerPart));
    EndsWithPair(TabSlots(o, t), front, TabSlot(t, RadiusPart), TabSlot(t, ShadowPart));
  }

  lemma TabSlotsSplit(o: StyleOpts, t: State)
    requires t != Active || o.includeActiveTab
    ensures TabSlots(o, t) == Filter(o, PartsOf(t)[..7]) + [TabSlot(t, RadiusPart), TabSlot(t, ShadowPart)]
  {
    PartsOfSplit(t);
    FilterConcat(o, PartsOf(t)[..7], [TabSlot(t, RadiusPart), TabSlot(t, ShadowPart)]);
    FrameEnabled(o, t);
    FilterPair(o, TabSlot(t, RadiusPart), TabSlot(t, ShadowPart));
  }

  /** The last two parts of every tab are the radius and the shadow; the divider
      comes before them. */
  lemma PartsOfSplit(t: State)
    ensures PartsOf(t) == PartsOf(t)[..7] + [TabSlot(t, RadiusPart), TabSlot(t, ShadowPart)]
    ensures TabSlot(t, DividerPart) in PartsOf(t)[..7]
  {
    var ps := PartsOf(t);
    assert ps[7..] == [TabSlot(t, RadiusPart), TabSlot(t, ShadowPart)];
    assert ps == ps[..7] + ps[7..];
    assert ps[..7][5] == TabSlot(t, DividerPart);
  }

  /** A tab that is open always registers its divider, radius and shadow. */
  lemma FrameEnabled(o: StyleOpts, t: State)
    requires t != Active || o.includeActiveTab
    ensures Enabled(o, TabSlot(t, DividerPart))
    ensures Enabled(o, TabSlot(t, RadiusPart)) && Enabled(o, TabSlot(t, ShadowPart))
  {
  }

  lemma FilterKeeps(o: StyleOpts, xs: seq<Slot>, s: Slot)
    requires s in xs && Enabled(o, s)
    ensures s in Filter(o, xs)
  {
  }

  lemma EndsWithPair<T>(r: seq<T>, front: seq<T>, x: T, y: T)
    requires front != [] && r == front + [x, y]
    ensures |r| >= 3 && r[|r| - 2] == x && r[|r| - 1] == y
    ensures forall e :: e in front ==> e in r
  {
  }

  function ControlAt(section: string, o: StyleOpts, t: State, p: Part): Control {
    ControlOf(section, o, TabSlot(t, p))
  }

  lemma RadiusAndShadow(section: string, o: StyleOpts, t: State)
    ensures ControlAt(section, o, t, RadiusPart).kind == Dimensions(DimUnits)
    ensures ControlAt(section, o, t, RadiusPart).responsive
    ensures ControlAt(section, o, t, RadiusPart).name == section + "_border_radius_" + StateWord(t)
    ensures ControlAt(section, o, t, ShadowPart).kind == BoxShadowGroup
    ensures ControlAt(section, o, t, ShadowPart).target == Selector(StateSelector(o, t))
    ensures ControlAt(section, o, t, ShadowPart).name == section + "_box_shadow_" + StateWord(t)
  {
    RadiusControl(section, o, t);
    ShadowControl(section, o, t);
  }

  lemma RadiusControl(section: string, o: StyleOpts, t: State)
    ensures ControlAt(section, o, t, RadiusPart).kind == Dimensions(DimUnits)
    ensures ControlAt(section, o, t, RadiusPart).responsive
    ensures ControlAt(section, o, t, RadiusPart).name == section + "_border_radius_" + StateWord(t)
  {
    RadiusWord(t);
    ConcatAssoc(section, "_border_radius_", StateWord(t));
  }

  lemma ShadowControl(section: string, o: StyleOpts, t: State)
    ensures ControlAt(section, o, t, ShadowPart).kind == BoxShadowGroup
    ensures ControlAt(section, o, t, ShadowPart).target == Selector(StateSelector(o, t))
    ensures ControlAt(section, o, t, ShadowPart).name == section + "_box_shadow_" + StateWord(t)
  {
    ShadowWord(t);
    ConcatAssoc(section, "_box_shadow_", StateWord(t));
  }

  lemma RadiusWord(t: State)
    ensures FixedSuffix(t, RadiusPart) == "_border_radius_" + StateWord(t)
  {
    match t
    case Normal => assert FixedSuffix(t, RadiusPart) == "_border_radius_" + "normal";
    case Hover => assert FixedSuffix(t, RadiusPart) == "_border_radius_" + "hover";
    case Active => assert FixedSuffix(t, RadiusPart) == "_border_radius_" + "active";
  }

  lemma ShadowWord(t: State)
    ensures FixedSuffix(t, ShadowPart) == "_box_shadow_" + StateWord(t)
  {
    match t
    case Normal => assert FixedSuffix(t, ShadowPart) == "_box_shadow_" + "normal";
    case Hover => assert FixedSuffix(t, ShadowPart) == "_box_shadow_" + "hover";
    case Active => assert FixedSuffix(t, ShadowPart) == "_box_shadow_" + "active";
  }

  /** Whatever the options, every tab the generator opens holds a divider, and
      ends with a responsive border-radius control and a box-shadow control on
      the tab's own selector. */
  lemma TabFrame(section: string, o: StyleOpts, t: State)
    requires t != Active || o.includeActiveTab
    ensures var cs := TabOf(section, o, t).controls;
            && |cs| >= 3
            && cs[|cs| - 2].kind == Dimensions(DimUnits) && cs[|cs| - 2].responsive
            && cs[|cs| - 2].name == section + "_border_radius_" + StateWord(t)
            && cs[|cs| - 1].kind == BoxShadowGroup
            && cs[|cs| - 1].target == Selector(StateSelector(o, t))
            && cs[|cs| - 1].name == section + "_box_shadow_" + StateWord(t)
            && (exists c :: c in cs && c.kind == Divider)
  {
    var slots := TabSlots(o, t);
    var cs := ControlsOf(section, o, slots);
    TabEnds(o, t);
    assert cs[|cs| - 2] == ControlAt(section, o, t, RadiusPart);
    assert cs[|cs| - 1] == ControlAt(section, o, t, ShadowPart);
    RadiusAndShadow(section, o, t);
    ControlsIn(section, o, slots, TabSlot(t, DividerPart));
    assert ControlAt(section, o, t, DividerPart).kind == Divider;
  }

  /** The transition slider appears only in HOVER and only when `include_transition`
      holds; it is `SECTION_hover_transition`, defaulting to 0 seconds. */
  lemma TransitionOnlyInHover(section: string, o: StyleOpts, t: State)
    requires t != Active || o.includeActiveTab
    ensures (exists c :: c in TabOf(section, o, t).controls && c.kind.Slider?) <==> (t == Hover && o.includeTransition)
    ensures forall c :: c in TabOf(section, o, t).controls && c.kind.Slider? ==>
              c.name == section + "_hover_transition" && c.default == Size("s", 0)
  {
    var slots := TabSlots(o, t);
    forall c | c in ControlsOf(section, o, slots)
      ensures c.kind.Slider? <==> c == ControlOf(section, o, TabSlot(t, TransitionPart))
      ensures c.kind.Slider? ==> t == Hover && o.includeTransition
    {
      InControls(section, o, slots, c);
      var s :| s in slots && c == ControlOf(section, o, s);
      TabSlotsOfState(o, t, s);
      SlotSlider(o, t, s);
    }
    if t == Hover && o.includeTransition {
      assert PartsOf(t)[4] == TabSlot(t, TransitionPart);
      ControlsIn(section, o, slots, TabSlot(t, TransitionPart));
    }
  }

  /** Only the transition slot holds a slider, and it is enabled only in HOVER. */
  lemma SlotSlider(o: StyleOpts, t: State, s: Slot)
    requires s.TabSlot? && s.state == t && Enabled(o, s)
    ensures KindOf(s).Slider? <==> s == TabSlot(t, TransitionPart)
    ensures KindOf(s).Slider? ==> t == Hover && o.includeTransition
  {
  }

  /** The focus tab registers neither a transition slider nor an
      additional-background control. */
  lemma FocusTabClean(section: string, o: StyleOpts)
    ensures forall c :: c in TabOf(section, o, Active).controls ==>
              !c.kind.Slider? && (c.target.Selectors? ==> forall e :: e in c.target.rules ==> e.1 != BackgroundRule)
  {
    var slots := TabSlots(o, Active);
    forall c | c in ControlsOf(section, o, slots)
      ensures !c.kind.Slider? && (c.target.Selectors? ==> forall e :: e in c.target.rules ==> e.1 != BackgroundRule)
    {
      InControls(section, o, slots, c);
      var s :| s in slots && c == ControlOf(section, o, s);
      TabSlotsOfState(o, Active, s);
      ActiveSlotClean(o, s);
    }
  }

  lemma ActiveSlotClean(o: StyleOpts, s: Slot)
    requires s.TabSlot? && s.state == Active && Enabled(o, s)
    ensures !KindOf(s).Slider?
    ensures TargetOf(o, s).Selectors? ==> forall e :: e in TargetOf(o, s).rules ==> e.1 != BackgroundRule
  {
    match s.part
    case RadiusPart =>
      assert TargetOf(o, s).rules == [(StateSelector(o, Active), RadiusRule)];
    case _ =>
  }

  /** Every rule of a target sits on the selector `sel`. */
  predicate TargetsOnly(t: Target, sel: string) {
    match t
    case NoTarget => true
    case Selector(x) => x == sel
    case Selectors(rs) => forall e :: e in rs ==> e.0 == sel
  }

  /** When the focus colour class is the focus class and there is no extra colour,
      every control of the focus tab except its divider targets
      `{{WRAPPER}} .ACTIVE_CLASS` and nothing else. */
  lemma FocusTargets(section: string, o: StyleOpts)
    requires !o.additionalColor && o.colorActiveClass == o.activeClass
    ensures forall c :: c in TabOf(section, o, Active).controls ==>
              TargetsOnly(c.target, Wrap(o.activeClass)) && (c.kind != Divider ==> !c.target.NoTarget?)
  {
    var slots := TabSlots(o, Active);
    forall c | c in ControlsOf(section, o, slots)
      ensures TargetsOnly(c.target, Wrap(o.activeClass)) && (c.kind != Divider ==> !c.target.NoTarget?)
    {
      InControls(section, o, slots, c);
      var s :| s in slots && c == ControlOf(section, o, s);
      TabSlotsOfState(o, Active, s);
      ActiveSlotTargets(o, s);
    }
  }

  lemma ActiveSlotTargets(o: StyleOpts, s: Slot)
    requires !o.additionalColor && o.colorActiveClass == o.activeClass
    requires s.TabSlot? && s.state == Active && Enabled(o, s)
    ensures TargetsOnly(TargetOf(o, s), Wrap(o.activeClass))
    ensures KindOf(s) != Divider ==> !TargetOf(o, s).NoTarget?
  {
    match s.part
    case RadiusPart =>
      assert TargetOf(o, s).rules == [(StateSelector(o, Active), RadiusRule)];
    case _ =>
  }

  predicate HasKind(cs: seq<Control>, k: Kind) {
    exists c :: c in cs && c.kind == k
  }

  /** Every part is considered by every tab. */
  lemma PartConsidered(t: State, p: Part)
    ensures TabSlot(t, p) in PartsOf(t)
  {
    var k := match p
      case ColorPart => 0 case ExtraColorPart => 1 case BackgroundPart => 2
      case ExtraBackgroundPart => 3 case TransitionPart => 4 case DividerPart => 5
      case BorderPart => 6 case RadiusPart => 7 case ShadowPart => 8;
    assert PartsOf(t)[k] == TabSlot(t, p);
  }

  lemma WitnessPart(section: string, o: StyleOpts, t: State, p: Part)
    requires Enabled(o, TabSlot(t, p))
    ensures HasKind(TabOf(section, o, t).controls, KindOf(TabSlot(t, p)))
  {
    PartConsidered(t, p);
    FilterKeeps(o, PartsOf(t), TabSlot(t, p));
    ControlsIn(section, o, TabSlots(o, t), TabSlot(t, p));
  }

  /** A tab holds a background group exactly when `include_bg` holds, a border
      group exactly when `include_border` holds, and a colour picker exactly when
      one of the colour options or (outside the focus tab) the extra background
      is on. */
  lemma TabKinds(section: string, o: StyleOpts, t: State)
    requires t != Active || o.includeActiveTab
    ensures HasKind(TabOf(section, o, t).controls, BackgroundGroup(BackgroundTypes)) <==> o.includeBg
    ensures HasKind(TabOf(section, o, t).controls, BorderGroup) <==> o.includeBorder
    ensures HasKind(TabOf(section, o, t).controls, ColorPicker)
            <==> o.includeColor || o.additionalColor || (o.additionalBackground && t != Active)
  {
    TabKindsSound(section, o, t);
    if o.includeBg { WitnessPart(section, o, t, BackgroundPart); }
    if o.includeBorder { WitnessPart(section, o, t, BorderPart); }
    if o.includeColor { WitnessPart(section, o, t, ColorPart); }
    else if o.additionalColor { WitnessPart(section, o, t, ExtraColorPart); }
    else if o.additionalBackground && t != Active { WitnessPart(section, o, t, ExtraBackgroundPart); }
  }

  lemma TabKindsSound(section: string, o: StyleOpts, t: State)
    ensures HasKind(TabOf(section, o, t).controls, BackgroundGroup(BackgroundTypes)) ==> o.includeBg
    ensures HasKind(TabOf(section, o, t).controls, BorderGroup) ==> o.includeBorder
    ensures HasKind(TabOf(section, o, t).controls, ColorPicker)
            ==> o.includeColor || o.additionalColor || (o.additionalBackground && t != Active)
  {
    forall c | c in TabOf(section, o, t).controls
      ensures c.kind == BackgroundGroup(BackgroundTypes) ==> o.includeBg
      ensures c.kind == BorderGroup ==> o.includeBorder
      ensures c.kind == ColorPicker ==> o.includeColor || o.additionalColor || (o.additionalBackground && t != Active)
    {
      ControlKind(section, o, t, c);
    }
  }

  lemma ControlKind(section: string, o: StyleOpts, t: State, c: Control)
    requires c in TabOf(section, o, t).controls
    ensures c.kind == BackgroundGroup(BackgroundTypes) ==> o.includeBg
    ensures c.kind == BorderGroup ==> o.includeBorder
    ensures c.kind == ColorPicker ==> o.includeColor || o.additionalColor || (o.additionalBackground && t != Active)
  {
    var slots := TabSlots(o, t);
    InControls(section, o, slots, c);
    var s :| s in slots && c == ControlOf(section, o, s);
    TabSlotsOfState(o, t, s);
    SlotKind(o, t, s);
  }

  lemma SlotKind(o: StyleOpts, t: State, s: Slot)
    requires s.TabSlot? && s.state == t && Enabled(o, s)
    ensures KindOf(s) == BackgroundGroup(BackgroundTypes) ==> o.includeBg
    ensures KindOf(s) == BorderGroup ==> o.includeBorder
    ensures KindOf(s) == ColorPicker ==> o.includeColor || o.additionalColor || (o.additionalBackground && t != Active)
  {
    match s.part
    case _ =>
  }

  /** Without an `include_bg` key the generator as written and the corrected one
      register the same controls. */
  lemma TypographyTabsAgree(section: string, opts: Opts)
    requires IncludeBg !in opts
    ensures TypographyTabsAsWritten(section, opts) == TypographyTabs(section, opts)
  {
    AsWrittenAgreesWithoutKey(opts);
  }

  /** `include_bg => true` without `include_color` loses every background control
      as written, though the corrected generator keeps them. */
  lemma AsWrittenDropsBackground(section: string)
    ensures var opts := map[IncludeBg := B(true)];
            && !HasKind(TabOf(section, DefaultsAsWritten(opts), Normal).controls, BackgroundGroup(BackgroundTypes))
            && HasKind(TabOf(section, Defaults(opts), Normal).controls, BackgroundGroup(BackgroundTypes))
  {
    var opts := map[IncludeBg := B(true)];
    IncludeBgIgnored();
    TabKinds(section, DefaultsAsWritten(opts), Normal);
    TabKinds(section, Defaults(opts), Normal);
  }

  // ---------------------------------------------------------------------------
  // Control names
  // ---------------------------------------------------------------------------

  /** Every slot the block registers, in registration order. */
  function AllSlots(o: StyleOpts): seq<Slot> {
    Filter(o, [TypographySlot]) + TabSlots(o, Normal) + TabSlots(o, Hover)
    + (if o.includeActiveTab then TabSlots(o, Active) else [])
  }

  function NameList(section: string, o: StyleOpts, slots: seq<Slot>): (r: seq<string>)
    ensures |r| == |slots|
    ensures forall i :: 0 <= i < |r| ==> r[i] == section + Suffix(o, slots[i])
  {
    seq(|slots|, i requires 0 <= i < |slots| => section + Suffix(o, slots[i]))
  }

  lemma ControlNames(section: string, o: StyleOpts, slots: seq<Slot>)
    ensures Names(Adds(ControlsOf(section, o, slots))) == NameList(section, o, slots)
  {
    NamesAdds(ControlsOf(section, o, slots));
  }

  lemma {:induction false} TabNames(section: string, o: StyleOpts, t: State)
    ensures Names(TabItems(TabOf(section, o, t))) == NameList(section, o, TabSlots(o, t))
  {
    var tab := TabOf(section, o, t);
    var body := Adds(tab.controls);
    NamesConcat([StartTab(tab.id, tab.caption)] + body, [EndTab]);
    NamesConcat([StartTab(tab.id, tab.caption)], body);
    ControlNames(section, o, TabSlots(o, t));
  }

  lemma NameListConcat(section: string, o: StyleOpts, a: seq<Slot>, b: seq<Slot>)
    ensures NameList(section, o, a + b) == NameList(section, o, a) + NameList(section, o, b)
  {
  }

  lemma NamesOfFive(a: seq<Item>, b: seq<Item>, c: seq<Item>, d: seq<Item>, e: seq<Item>, f: seq<Item>)
    requires Names(b) == [] && Names(f) == []
    ensures Names(a + b + c + d + e + f) == Names(a) + Names(c) + Names(d) + Names(e)
  {
    var ab := a + b;
    NamesConcat(a, b);
    assert Names(ab) == Names(a);
    var abc := ab + c;
    NamesConcat(ab, c);
    var abcd := abc + d;
    NamesConcat(abc, d);
    var abcde := abcd + e;
    NamesConcat(abcd, e);
    NamesConcat(abcde, f);
    assert Names(abcde + f) == Names(abcde);
  }

  /** The names the block registers are the section id followed by each slot's suffix. */
  lemma EmitNames(section: string, o: StyleOpts)
    ensures Names(Emit(section, o)) == NameList(section, o, AllSlots(o))
  {
    var typo := Filter(o, [TypographySlot]);
    var last := if o.includeActiveTab then TabItems(TabOf(section, o, Active)) else [];
    NamesOfFive(Adds(ControlsOf(section, o, typo)), [StartTabs(section + "_style_tabs")],
                TabItems(TabOf(section, o, Normal)), TabItems(TabOf(section, o, Hover)), last, [EndTabs]);
    ControlNames(section, o, typo);
    TabNames(section, o, Normal);
    TabNames(section, o, Hover);
    var lastSlots := if o.includeActiveTab then TabSlots(o, Active) else [];
    if o.includeActiveTab {
      TabNames(section, o, Active);
    }
    assert Names(last) == NameList(section, o, lastSlots);
    NameListConcat(section, o, typo + TabSlots(o, Normal) + TabSlots(o, Hover), lastSlots);
    NameListConcat(section, o, typo + TabSlots(o, Normal), TabSlots(o, Hover));
    NameListConcat(section, o, typo, TabSlots(o, Normal));
  }

  /** Every control name the tab generator registers starts with the section id. */
  lemma NamesStartWithSection(section: string, o: StyleOpts)
    ensures forall n :: n in Names(Emit(section, o)) ==> section <= n
  {
    EmitNames(section, o);
  }

  lemma AllSlotsEnabled(o: StyleOpts, s: Slot)
    requires s in AllSlots(o)
    ensures Enabled(o, s)
  {
  }

  lemma AllSlotsNoDup(o: StyleOpts)
    ensures NoDup(AllSlots(o))
  {
    var typo := Filter(o, [TypographySlot]);
    var n, h, a := TabSlots(o, Normal), TabSlots(o, Hover), TabSlots(o, Active);
    var last := if o.includeActiveTab then a else [];
    PartsOfNoDup(Normal);
    PartsOfNoDup(Hover);
    PartsOfNoDup(Active);
    FilterNoDup(o, PartsOf(Normal));
    FilterNoDup(o, PartsOf(Hover));
    FilterNoDup(o, PartsOf(Active));
    forall s | s in typo + n ensures s !in h && s !in last {
      if s in n { TabSlotsOfState(o, Normal, s); }
      if s in h { TabSlotsOfState(o, Hover, s); }
      if s in a { TabSlotsOfState(o, Active, s); }
    }
    forall s | s in typo + n + h ensures s !in last {
      if s in h { TabSlotsOfState(o, Hover, s); }
      if s in a { TabSlotsOfState(o, Active, s); }
    }
    forall s | s in typo ensures s !in n {
      if s in n { TabSlotsOfState(o, Normal, s); }
    }
    NoDupConcat(typo, n);
    NoDupConcat(typo + n, h);
    NoDupConcat(typo + n + h, last);
  }

  /** The two extra controls of one tab share a name exactly when both are on
      and carry the same name. */
  predicate Collision(o: StyleOpts) {
    o.additionalColor && o.additionalBackground && o.additionalColorName == o.additionalBackgroundName
  }

  predicate Extra(s: Slot) {
    s.TabSlot? && (s.part == ExtraColorPart || s.part == ExtraBackgroundPart)
  }

  /** The letter just before `_text_color` in each state's ending. */
  function Mark(t: State): char {
    match t
    case Normal => 'l'
    case Hover => 'r'
    case Active => 'e'
  }

  lemma EndOfConcat(p: string, q: string, k: nat)
    requires k <= |q|
    ensures (p + q)[|p + q| - k..] == q[|q| - k..]
  {
  }

  lemma TextColorSuffixShape(t: State)
    ensures var q := TextColorSuffix(t);
            |q| >= 17 && q[|q| - 11..] == TextColor && q[|q| - 12] == Mark(t) && (t != Hover ==> |q| >= 18)
  {
    var w := StateWord(t);
    var q := "_" + w + TextColor;
    EndOfConcat("_" + w, TextColor, 11);
    assert q[|q| - 12] == w[|w| - 1];
  }

  /** The name ending of an extra control. */
  lemma ExtraShape(n: string, t: State)
    ensures var s := "_" + n + TextColorSuffix(t);
            |s| >= 18 && s[|s| - 11..] == TextColor && s[|s| - 12] == Mark(t) && (t != Hover ==> |s| >= 19)
  {
    var q := TextColorSuffix(t);
    TextColorSuffixShape(t);
    EndOfConcat("_" + n, q, 11);
    var s := "_" + n + q;
    assert s[|s| - 12] == q[|q| - 12];
  }

  /** Of the literal endings only the NORMAL colour's ends in `_text_color`. */
  lemma FixedShape(o: StyleOpts, s: Slot)
    requires Enabled(o, s) && !Extra(s)
    ensures var f := Suffix(o, s);
            |f| < 12 || f[|f| - 11..] != TextColor || (s == TabSlot(Normal, ColorPart) && |f| == 18 && f[|f| - 12] == 'l')
  {
    if s.TabSlot? {
      match s.state
      case Normal => FixedShapeNormal(s.part);
      case Hover => FixedShapeHover(s.part);
      case Active => FixedShapeActive(s.part);
    }
  }

  /** What a fixed ending looks like at the place where `_text_color` would sit. */
  predicate NotTextColor(f: string) {
    |f| < 12 || f[|f| - 11..] != TextColor
  }

  lemma FixedShapeNormal(p: Part)
    requires p != ExtraColorPart && p != ExtraBackgroundPart
    ensures var f := FixedSuffix(Normal, p);
            NotTextColor(f) || (p == ColorPart && |f| == 18 && f[|f| - 12] == 'l')
  {
    match p
    case ColorPart => TextColorSuffixShape(Normal);
    case _ =>
  }

  lemma FixedShapeHover(p: Part)
    requires p != ExtraColorPart && p != ExtraBackgroundPart
    ensures NotTextColor(FixedSuffix(Hover, p))
  {
  }

  lemma FixedShapeActive(p: Part)
    requires p != ExtraColorPart && p != ExtraBackgroundPart
    ensures NotTextColor(FixedSuffix(Active, p))
  {
  }

  /** A decoder for the literal endings. */
  function DecodeFixed(f: string): Option<Slot> {
    if f == "_typography" then Some(TypographySlot)
    else if f == "_normal_text_color" then Some(TabSlot(Normal, ColorPart))
    else if f == "_hover_color" then Some(TabSlot(Hover, ColorPart))
    else if f == "_active_color" then Some(TabSlot(Active, ColorPart))
    else if f == "_normal_background" then Some(TabSlot(Normal, BackgroundPart))
    else if f == "_background_hover" then Some(TabSlot(Hover, BackgroundPart))
    else if f == "_background_active" then Some(TabSlot(Active, BackgroundPart))
    else if f == "_hover_transition" then Some(TabSlot(Hover, TransitionPart))
    else if f == "_separate_normal" then Some(TabSlot(Normal, DividerPart))
    else if f == "_separate_hover" then Some(TabSlot(Hover, DividerPart))
    else if f == "_separate_active" then Some(TabSlot(Active, DividerPart))
    else if f == "_border_normal" then Some(TabSlot(Normal, BorderPart))
    else if f == "_border_hover" then Some(TabSlot(Hover, BorderPart))
    else if f == "_border_active" then Some(TabSlot(Active, BorderPart))
    else if f == "_border_radius_normal" then Some(TabSlot(Normal, RadiusPart))
    else if f == "_border_radius_hover" then Some(TabSlot(Hover, RadiusPart))
    else if f == "_border_radius_active" then Some(TabSlot(Active, RadiusPart))
    else if f == "_box_shadow_normal" then Some(TabSlot(Normal, ShadowPart))
    else if f == "_box_shadow_hover" then Some(TabSlot(Hover, ShadowPart))
    else if f == "_box_shadow_active" then Some(TabSlot(Active, ShadowPart))
    else None
  }

  lemma DecodeFixedSuffix(o: StyleOpts, s: Slot)
    requires Enabled(o, s) && !Extra(s)
    ensures DecodeFixed(Suffix(o, s)) == Some(s)
  {
    if s.TabSlot? {
      match s.state
      case Normal => DecodeNormal(s.part);
      case Hover => DecodeHover(s.part);
      case Active => DecodeActive(s.part);
    }
  }

  lemma DecodeNormal(p: Part)
    requires p != ExtraColorPart && p != ExtraBackgroundPart && p != TransitionPart
    ensures DecodeFixed(FixedSuffix(Normal, p)) == Some(TabSlot(Normal, p))
  {
    if p == ColorPart { NormalTextColor(); }
  }

  lemma NormalTextColor()
    ensures TextColorSuffix(Normal) == "_normal_text_color"
  {
    assert TextColorSuffix(Normal) == "_" + "normal" + "_text_color";
  }

  lemma DecodeHover(p: Part)
    requires p != ExtraColorPart && p != ExtraBackgroundPart
    ensures DecodeFixed(FixedSuffix(Hover, p)) == Some(TabSlot(Hover, p))
  {
  }

  lemma DecodeActive(p: Part)
    requires p != ExtraColorPart && p != ExtraBackgroundPart && p != TransitionPart
    ensures DecodeFixed(FixedSuffix(Active, p)) == Some(TabSlot(Active, p))
  {
  }

  /** Two registered slots share a suffix only when they are the same slot or
      the extra colour and extra background collide. */
  lemma SuffixInjective(o: StyleOpts, a: Slot, b: Slot)
    requires Enabled(o, a) && Enabled(o, b)
    ensures Suffix(o, a) == Suffix(o, b) ==> a == b || Collision(o)
  {
    if !Extra(a) && !Extra(b) {
      DecodeFixedSuffix(o, a);
      DecodeFixedSuffix(o, b);
    } else if Extra(a) && !Extra(b) {
      ExtraNotFixed(o, a, b);
    } else if !Extra(a) && Extra(b) {
      ExtraNotFixed(o, b, a);
    } else {
      ExtrasInjective(o, a, b);
    }
  }

  /** The name of the extra control of `s` in its ending. */
  function ExtraName(o: StyleOpts, s: Slot): string
    requires Extra(s)
  {
    if s.part == ExtraColorPart then o.additionalColorName else o.additionalBackgroundName
  }

  lemma ExtraSuffix(o: StyleOpts, s: Slot)
    requires Extra(s)
    ensures Suffix(o, s) == "_" + ExtraName(o, s) + TextColorSuffix(s.state)
  {
  }

  /** An extra ending is longer than, or differs at its state letter from, the
      one fixed ending that also closes on `_text_color`. */
  lemma ExtraNotFixed(o: StyleOpts, a: Slot, b: Slot)
    requires Extra(a) && Enabled(o, b) && !Extra(b)
    ensures Suffix(o, a) != Suffix(o, b)
  {
    ExtraSuffix(o, a);
    ExtraShape(ExtraName(o, a), a.state);
    FixedShape(o, b);
  }

  lemma ExtrasInjective(o: StyleOpts, a: Slot, b: Slot)
    requires Enabled(o, a) && Enabled(o, b) && Extra(a) && Extra(b)
    ensures Suffix(o, a) == Suffix(o, b) ==> a == b || Collision(o)
  {
    var na := ExtraName(o, a);
    var nb := ExtraName(o, b);
    ExtraSuffix(o, a);
    ExtraSuffix(o, b);
    ExtraShape(na, a.state);
    ExtraShape(nb, b.state);
    if Suffix(o, a) == Suffix(o, b) && a.state == b.state {
      var q := TextColorSuffix(a.state);
      var s := Suffix(o, a);
      assert s[..|s| - |q|] == "_" + na == "_" + nb;
      assert ("_" + na)[1..] == na;
      assert ("_" + nb)[1..] == nb;
    }
  }

  lemma PrefixCancel(p: string, x: string, y: string)
    requires p + x == p + y
    ensures x == y
  {
    assert (p + x)[|p|..] == x;
    assert (p + y)[|p|..] == y;
  }

  lemma ExtrasRegistered(o: StyleOpts)
    requires Collision(o)
    ensures TabSlot(Normal, ExtraColorPart) in AllSlots(o)
    ensures TabSlot(Normal, ExtraBackgroundPart) in AllSlots(o)
  {
    var a, b := TabSlot(Normal, ExtraColorPart), TabSlot(Normal, ExtraBackgroundPart);
    var ps := PartsOf(Normal);
    assert ps[1] == a && ps[3] == b;
    assert a in ps && b in ps;
    assert Enabled(o, a) && Enabled(o, b);
    var n := TabSlots(o, Normal);
    assert a in n && b in n;
    InSecond(Filter(o, [TypographySlot]), n, TabSlots(o, Hover) + (if o.includeActiveTab then TabSlots(o, Active) else []), a);
    InSecond(Filter(o, [TypographySlot]), n, TabSlots(o, Hover) + (if o.includeActiveTab then TabSlots(o, Active) else []), b);
  }

  lemma InSecond<T>(x: seq<T>, y: seq<T>, z: seq<T>, e: T)
    requires e in y
    ensures e in x + y + z
  {
  }

  lemma Repeated<T>(s: seq<T>, i: nat, j: nat)
    requires i < |s| && j < |s| && i != j && s[i] == s[j]
    ensures !NoDup(s)
  {
    if j < i {
      assert !(s[j] != s[i]);
    } else {
      assert !(s[i] != s[j]);
    }
  }

  lemma CollisionRepeats(section: string, o: StyleOpts)
    requires Collision(o)
    ensures !NoDup(NameList(section, o, AllSlots(o)))
  {
    var slots := AllSlots(o);
    var names := NameList(section, o, slots);
    var a, b := TabSlot(Normal, ExtraColorPart), TabSlot(Normal, ExtraBackgroundPart);
    ExtrasRegistered(o);
    var i :| 0 <= i < |slots| && slots[i] == a;
    var j :| 0 <= j < |slots| && slots[j] == b;
    CollidingSuffixes(o);
    Repeated(names, i, j);
  }

  lemma CollidingSuffixes(o: StyleOpts)
    requires Collision(o)
    ensures Suffix(o, TabSlot(Normal, ExtraColorPart)) == Suffix(o, TabSlot(Normal, ExtraBackgroundPart))
  {
  }

  lemma NoCollisionDistinct(section: string, o: StyleOpts)
    requires !Collision(o)
    ensures NoDup(NameList(section, o, AllSlots(o)))
  {
    var slots := AllSlots(o);
    var names := NameList(section, o, slots);
    AllSlotsNoDup(o);
    forall i, j | 0 <= i < j < |names| ensures names[i] != names[j] {
      AllSlotsEnabled(o, slots[i]);
      AllSlotsEnabled(o, slots[j]);
      SuffixInjective(o, slots[i], slots[j]);
      if names[i] == names[j] {
        PrefixCancel(section, Suffix(o, slots[i]), Suffix(o, slots[j]));
      }
    }
  }

  /** Within one generator call the registered control names are pairwise
      distinct exactly when the extra colour and extra background do not collide;
      when they do, their NORMAL names coincide. */
  lemma NamesDistinct(section: string, o: StyleOpts)
    ensures NoDup(Names(Emit(section, o))) <==> !Collision(o)
  {
    EmitNames(section, o);
    if Collision(o) {
      CollisionRepeats(section, o);
    } else {
      NoCollisionDistinct(section, o);
    }
  }
}
