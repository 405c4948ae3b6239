/**
 * The search widget: the four style sections it registers through the two
 * generators, the search field's being the one section of the plugin with a
 * focus tab, and its `render`, which passes the title to the host's classic
 * search widget inside the default wrapper markup.
 */
module SearchWidget {
  import opened Php
  import opened Markup
  import opened Wp
  import opened Controls
  import opened StyleOptions
  import opened Generators
  import opened GeneratorLemmas
  import opened Sections
  import opened DefaultArgs
  import opened WidgetRender

  /** The type name the widget passes to the wrapper builder. */
  const WidgetType: string := "search"

  lemma WidgetTypePlain()
    ensures Plain(WidgetType)
  {
  }

  // ---------------------------------------------------------------------------
  // Style sections
  // ---------------------------------------------------------------------------

  const SearchTitle: string := "mdp-widgeter-search-title"
  const SearchBox: string := "mdp-widgeter-search-elementor-box"
  const LabelClass: string := SearchBox + " label"
  const FieldClass: string := "search-field"
  const FocusClass: string := FieldClass + ":focus"
  const SubmitClass: string := "search-submit"

  const TitleSection: Call := Call("section_style_title", Some(SearchTitle), map[
    HtmlClass := S(SearchTitle),
    TypographyClass := S(SearchTitle),
    AdditionalColor := B(true),
    AdditionalColorName := S("Icon color"),
    AdditionalColorClass := S(TitleIconClass),
    AdditionalColorHoverClass := S(SearchTitle + ":hover ." + TitleIconClass),
    AdditionalTransitionSelector := S(Wrap(TitleIconClass)),
    ColorClass := S(SearchTitle),
    ColorHoverClass := S(SearchTitle + ":hover")])

  const LabelSection: Call := Call("section_style_search_label", Some(LabelClass), map[
    HtmlClass := S(LabelClass),
    TypographyClass := S(LabelClass),
    ColorClass := S(LabelClass),
    ColorHoverClass := S(LabelClass + ":hover")])

  const FieldSection: Call := Call("section_style_search_field", Some(FieldClass), map[
    HtmlClass := S(FieldClass),
    TypographyClass := S(FieldClass),
    ColorClass := S(FieldClass),
    ColorHoverClass := S(FieldClass + ":hover"),
    IncludeActiveTab := B(true),
    ActiveClass := S(FocusClass),
    ColorActiveClass := S(FocusClass)])

  const ButtonSection: Call := Call("section_style_search_button", Some(SubmitClass), map[
    HtmlClass := S(SearchBox + " ." + SubmitClass),
    TypographyClass := S(SubmitClass),
    ColorClass := S(SubmitClass),
    ColorHoverClass := S(SubmitClass + ":hover")])

  /** The style tab, in registration order. */
  const StyleSections: seq<Call> := [TitleSection, LabelSection, FieldSection, ButtonSection]

  /** What every search section leaves out of its options; only the field
      section asks for the focus tab. */
  lemma SectionKeys(c: Call)
    requires c in StyleSections
    ensures IncludeBg !in c.opts && AdditionalBackground !in c.opts && c.boxClass.Some?
    ensures IncludeActiveTab in c.opts <==> c.id == FieldSection.id
    ensures c.id == FieldSection.id ==> c.opts[IncludeActiveTab] == B(true)
  {
    TitleSectionKeys();
    LabelSectionKeys();
    FieldSectionKeys();
    ButtonSectionKeys();
  }

  lemma TitleSectionKeys()
    ensures IncludeBg !in TitleSection.opts && AdditionalBackground !in TitleSection.opts && TitleSection.boxClass.Some?
    ensures IncludeActiveTab in TitleSection.opts <==> TitleSection.id == FieldSection.id
  {
  }

  lemma LabelSectionKeys()
    ensures IncludeBg !in LabelSection.opts && AdditionalBackground !in LabelSection.opts && LabelSection.boxClass.Some?
    ensures IncludeActiveTab in LabelSection.opts <==> LabelSection.id == FieldSection.id
  {
  }

  lemma ButtonSectionKeys()
    ensures IncludeBg !in ButtonSection.opts && AdditionalBackground !in ButtonSection.opts && ButtonSection.boxClass.Some?
    ensures IncludeActiveTab in ButtonSection.opts <==> ButtonSection.id == FieldSection.id
  {
  }

  lemma FieldSectionKeys()
    ensures IncludeBg !in FieldSection.opts && AdditionalBackground !in FieldSection.opts
    ensures AdditionalColor !in FieldSection.opts && IncludeColor !in FieldSection.opts
    ensures IncludeBorder !in FieldSection.opts
    ensures FieldSection.boxClass.Some? && FieldSection.opts[IncludeActiveTab] == B(true)
  {
  }

  /** No search section passes `include_bg` or `additional_background`: the
      generator's `include_bg` slip does not reach them and their control names
      are pairwise distinct. The field section alone has a third, focus tab. */
  lemma StyleSectionsWellFormed(c: Call)
    requires c in StyleSections
    ensures Adds(Boxes(c)) + TypographyTabsAsWritten(c.id, c.opts) == SectionItems(c)
    ensures NoDup(Names(TypographyTabs(c.id, c.opts)))
    ensures ReadLayout(SectionItems(c)).Some?
    ensures |ReadLayout(SectionItems(c)).value.tabs| == 3 <==> c.id == FieldSection.id
    ensures |ReadLayout(SectionItems(c)).value.tabs| == 2 <==> c.id != FieldSection.id
  {
    SectionKeys(c);
    SectionUnaffected(c);
    SectionNamesDistinct(c);
    SectionLayout(c);
  }

  /** The field section's defaulted options: a focus tab styled through the
      focused field, no extra colour or background, and every group on. */
  lemma FieldOptions()
    ensures var o := Defaults(FieldSection.opts);
            && o.includeActiveTab && !o.additionalColor && !o.additionalBackground
            && o.activeClass == FocusClass && o.colorActiveClass == FocusClass
            && o.activeTabName == "FOCUS" && o.includeColor && o.includeBg && o.includeBorder
  {
    FieldFlags();
    FieldNames();
  }

  lemma FieldFlags()
    ensures var o := Defaults(FieldSection.opts);
            && o.includeActiveTab && !o.additionalColor && !o.additionalBackground
            && o.includeColor && o.includeBg && o.includeBorder
  {
    FieldSectionKeys();
    DefaultsTabOptions(FieldSection.opts);
  }

  lemma FieldNames()
    ensures var o := Defaults(FieldSection.opts);
            o.activeClass == FocusClass && o.colorActiveClass == FocusClass && o.activeTabName == "FOCUS"
  {
    DefaultsTabOptions(FieldSection.opts);
  }

  /** The field's focus tab: every control in it targets only the focused field,
      every one but the divider has a target, it has a colour picker, a
      background, a border, a radius and a shadow, and no transition. */
  lemma FocusTab()
    ensures var o := Defaults(FieldSection.opts);
            var cs := TabOf(FieldSection.id, o, Active).controls;
            && (forall c :: c in cs ==> TargetsOnly(c.target, Wrap(FocusClass)) && (c.kind != Divider ==> !c.target.NoTarget?))
            && HasKind(cs, ColorPicker) && HasKind(cs, BackgroundGroup(BackgroundTypes)) && HasKind(cs, BorderGroup)
            && HasKind(cs, Dimensions(DimUnits)) && HasKind(cs, BoxShadowGroup)
            && (forall c :: c in cs ==> !c.kind.Slider?)
  {
    var o := Defaults(FieldSection.opts);
    FieldOptions();
    FocusTargets(FieldSection.id, o);
    TabKinds(FieldSection.id, o, Active);
    TabFrame(FieldSection.id, o, Active);
    var cs := TabOf(FieldSection.id, o, Active).controls;
    assert cs[|cs| - 2] in cs && cs[|cs| - 1] in cs;
    TransitionOnlyInHover(FieldSection.id, o, Active);
  }

  // ---------------------------------------------------------------------------
  // Render
  // ---------------------------------------------------------------------------

  /** The settings `render` reads; the icon is the argument as passed to the builder. */
  datatype Settings = Settings(
    titleTag: string,
    enableTitleIcon: string,
    titleIcon: IconArg,
    iconPosition: string,
    title: string
  )

  function Args(h: Host, s: Settings): WidgetArgs {
    WidgetDefaultArgs(h, WidgetType, h.escAttr(TitleTag(s.titleTag)), Yes(s.enableTitleIcon),
                      s.titleIcon, h.escAttr(s.iconPosition))
  }

  function Render(h: Host, s: Settings): (r: WidgetCall)
    ensures r.widget == "WP_Widget_Search"
    ensures Keys(r.instance) == ["title"]
  {
    WidgetCall("WP_Widget_Search", [("title", Text(h.escAttr(StripTitle(s.title))))], Args(h, s))
  }

  /** The title reaches the widget escaped, after every stripped character is
      gone and every other one kept in order. */
  lemma RenderTitle(h: Host, s: Settings)
    ensures exists t :: Get(Render(h, s).instance, "title") == Some(Text(h.escAttr(t)))
                        && t == Keep(Stripped, s.title)
                        && (forall c :: c in t ==> c !in Stripped)
  {
    StripTitleSpec(s.title);
    var t := StripTitle(s.title);
    assert Get(Render(h, s).instance, "title") == Some(Text(h.escAttr(t)));
  }

  /** The outer box is the default one with no alignment class. */
  lemma RenderBox(h: Host, s: Settings)
    ensures Render(h, s).args.beforeWidget == DefaultBeforeWidget(WidgetType, "", Yes(s.enableTitleIcon))
  {
    assert !Truthy("");
    assert Render(h, s).args == Args(h, s);
  }

  /** The search box carries the generic and the search box classes and then its
      alignment classes, whatever the icon switch: only the RSS box hides a
      built-in icon. */
  lemma BoxClassList(alignClass: string, iconEnabled: bool)
    ensures ClassNames(BoxClassValue(WidgetType, alignClass, DisableClassFor(WidgetType, iconEnabled)))
            == [BoxClass, TypeClass(WidgetType, "-elementor-box")] + ClassNames(alignClass)
  {
    WidgetTypePlain();
    BoxClasses(WidgetType, alignClass, iconEnabled);
  }

  /** With escaping that removes `<` and `"` and keeps tag names, the title
      strings balance and the title closes with an allowed tag. */
  lemma TitleBalancedInRender(h: Host, s: Settings)
    requires AttrSafe(h) && KeepsValidTags(h)
    requires s.titleIcon.IconSpec? ==> s.titleIcon.library != "svg"
    ensures Render(h, s).args.afterTitle == "</" + TitleTag(s.titleTag) + "></div>"
    ensures Balanced(TagEvents(Render(h, s).args.beforeTitle) + TagEvents(Render(h, s).args.afterTitle))
  {
    assert Render(h, s).args == Args(h, s);
    WidgetTypePlain();
    TitleWrapBalanced(h, WidgetType, s.titleTag, Yes(s.enableTitleIcon), s.titleIcon,
                      h.escAttr(s.iconPosition), "", "");
  }

  /** The default box and `after_widget` balance. */
  lemma BoxBalancedInRender(h: Host, s: Settings)
    ensures Balanced(TagEvents(Render(h, s).args.beforeWidget) + TagEvents(Render(h, s).args.afterWidget))
  {
    assert Render(h, s).args == Args(h, s);
    WidgetTypePlain();
    BoxBalanced(h, WidgetType, h.escAttr(TitleTag(s.titleTag)), Yes(s.enableTitleIcon), s.titleIcon,
                h.escAttr(s.iconPosition), "");
  }
}
