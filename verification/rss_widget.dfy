/**
 * The RSS feed widget: the seven style sections it registers through the two
 * generators, and its `render`, which passes the feed settings to the host's
 * classic RSS widget inside the plugin's wrapper markup.
 */
module RssWidget {
  import opened Php
  import opened Markup
  import opened Wp
  import opened Controls
  import opened StyleOptions
  import opened Generators
  import opened GeneratorLemmas
  import opened Sections
  import opened DefaultArgs
  import opened WidgetRender

  /** The type name the widget passes to the wrapper builder. */
  const WidgetType: string := "rss-feed"

  lemma WidgetTypePlain()
    ensures Plain(WidgetType)
  {
  }

  // ---------------------------------------------------------------------------
  // Style sections
  // ---------------------------------------------------------------------------

  const FeedTitle: string := "mdp-widgeter-rss-feed-title"
  const FeedBox: string := "mdp-widgeter-rss-feed-elementor-box"
  const ItemsList: string := FeedBox + " ul"
  const ItemList: string := ItemsList + " li"
  const AuthorClass: string := ItemList + " cite"
  const ItemTitleClass: string := ItemList + " .rsswidget"

  const TitleSection: Call := Call("section_style_title", Some(FeedTitle), map[
    HtmlClass := S(FeedTitle),
    TypographyClass := S(FeedTitle + " a"),
    AdditionalColor := B(true),
    AdditionalColorName := S("Icon color"),
    AdditionalColorClass := S(TitleIconClass),
    AdditionalColorHoverClass := S("mdp-widgeter-rss-title:hover ." + TitleIconClass),
    AdditionalTransitionSelector := S(Wrap(TitleIconClass)),
    ColorClass := S(FeedTitle + " a"),
    ColorHoverClass := S(FeedTitle + " a:hover")])

  const ItemsBlockSection: Call := Call("section_style_rss_feed_items_block", Some(ItemsList), map[
    HtmlClass := S(ItemsList),
    IncludeTypography := B(false),
    IncludeColor := B(false)])

  const ItemBoxSection: Call := Call("section_style_rss_feed_item_box", Some(ItemList), map[
    HtmlClass := S(ItemList),
    IncludeTypography := B(false),
    IncludeColor := B(false)])

  /** The item title and item author sections have no margin/padding pair; the
      hand-written padding control each registers in its place is not modelled. */
  const ItemTitleSection: Call := Call("section_style_rss_feed_item_title", None, map[
    HtmlClass := S(ItemTitleClass),
    TypographyClass := S(ItemTitleClass),
    ColorClass := S(ItemTitleClass + ", {{WRAPPER}} ." + ItemList),
    ColorHoverClass := S(ItemTitleClass + ":hover, {{WRAPPER}} ." + ItemList + ":hover")])

  const ItemAuthorSection: Call := Call("section_style_rss_feed_item_author", None, map[
    HtmlClass := S(AuthorClass),
    TypographyClass := S(AuthorClass),
    ColorClass := S(AuthorClass + ", {{WRAPPER}} ." + AuthorClass),
    ColorHoverClass := S(AuthorClass + ":hover")])

  const ContentSection: Call := Call("section_style_rss_feed_item_content", Some("rssSummary"), map[
    HtmlClass := S("rssSummary"),
    TypographyClass := S("rssSummary"),
    ColorClass := S("rssSummary"),
    ColorHoverClass := S("rssSummary:hover")])

  const DateSection: Call := Call("section_style_rss_feed_item_date", Some("rss-date"), map[
    HtmlClass := S("rss-date"),
    TypographyClass := S("rss-date"),
    ColorClass := S("rss-date"),
    ColorHoverClass := S("rss-date:hover")])

  /** The style tab, in registration order. */
  const StyleSections: seq<Call> :=
    [TitleSection, ItemsBlockSection, ItemBoxSection, ItemTitleSection, ItemAuthorSection,
     ContentSection, DateSection]

  /** No RSS section passes `include_bg`, `additional_background` or
      `include_active_tab`: the generator's `include_bg` slip does not reach
      them, their control names are pairwise distinct, and each has exactly the
      NORMAL and HOVER tabs. */
  lemma StyleSectionsWellFormed(c: Call)
    requires c in StyleSections
    ensures Adds(Boxes(c)) + TypographyTabsAsWritten(c.id, c.opts) == SectionItems(c)
    ensures NoDup(Names(TypographyTabs(c.id, c.opts)))
    ensures ReadLayout(SectionItems(c)).Some?
    ensures |ReadLayout(SectionItems(c)).value.tabs| == 2
  {
    SectionsPlain(c);
    PlainSectionWellFormed(c);
  }

  lemma SectionsPlain(c: Call)
    requires c in StyleSections
    ensures PlainSection(c)
  {
    TitleSectionPlain();
    ItemsBlockSectionPlain();
    ItemBoxSectionPlain();
    ItemTitleSectionPlain();
    ItemAuthorSectionPlain();
    ContentSectionPlain();
    DateSectionPlain();
  }

  lemma TitleSectionPlain() ensures PlainSection(TitleSection) { }
  lemma ItemsBlockSectionPlain() ensures PlainSection(ItemsBlockSection) { }
  lemma ItemBoxSectionPlain() ensures PlainSection(ItemBoxSection) { }
  lemma ItemTitleSectionPlain() ensures PlainSection(ItemTitleSection) { }
  lemma ItemAuthorSectionPlain() ensures PlainSection(ItemAuthorSection) { }
  lemma ContentSectionPlain() ensures PlainSection(ContentSection) { }
  lemma DateSectionPlain() ensures PlainSection(DateSection) { }

  /** The two list sections style boxes: each of their tabs has a background and
      no text colour. */
  lemma {:induction false} ListSectionsAreBoxes(c: Call, t: State)
    requires c == ItemsBlockSection || c == ItemBoxSection
    requires t != Active
    ensures HasKind(TabOf(c.id, Defaults(c.opts), t).controls, BackgroundGroup(BackgroundTypes))
    ensures !HasKind(TabOf(c.id, Defaults(c.opts), t).controls, ColorPicker)
  {
    BoxSectionTabs(c, t);
  }

  // ---------------------------------------------------------------------------
  // Render
  // ---------------------------------------------------------------------------

  /** The settings `render` reads. `itemsSize` is the slider's `size`, absent when
      the slider holds none; the icon is the argument as passed to the builder. */
  datatype Settings = Settings(
    titleTag: string,
    enableTitleIcon: string,
    titleIcon: IconArg,
    iconPosition: string,
    listAlignment: string,
    feedTitle: string,
    itemsSize: Option<string>,
    feedUrl: string,
    displayContent: string,
    displayAuthor: string,
    displayDate: string
  )

  const AlignPrefix: string := Mdp + Elementor + "list-" + "align-"

  lemma AlignPrefixNoTag()
    ensures '<' !in AlignPrefix
  {
    PlainElementor();
    assert Plain("list-") && Plain("align-");
    PrefixedPlain(Elementor, "list-", "align-");
  }

  function AlignClass(h: Host, s: Settings): string {
    AlignPrefix + h.escAttr(s.listAlignment)
  }

  /** `size ?? '0'`. */
  function ItemCount(s: Settings): string {
    match s.itemsSize
    case Some(n) => n
    case None => "0"
  }

  /** The instance array handed to the classic RSS widget. */
  function Instance(h: Host, s: Settings): (r: Assoc<Value>)
    ensures DistinctKeys(r)
    ensures Keys(r) == ["title", "url", "items", "show_summary", "show_author", "show_date"]
  {
    var r := [
      ("title", Text(h.escAttr(StripTitle(s.feedTitle)))),
      ("url", Text(h.escUrl(s.feedUrl))),
      ("items", Text(h.escAttr(ItemCount(s)))),
      ("show_summary", Flag(Yes(s.displayContent))),
      ("show_author", Flag(Yes(s.displayAuthor))),
      ("show_date", Flag(Yes(s.displayDate)))];
    assert Keys(r) == ["title", "url", "items", "show_summary", "show_author", "show_date"];
    r
  }

  /** The wrapper strings, from the builder with the list alignment and no override. */
  function Args(h: Host, s: Settings): WidgetArgs {
    WidgetDefaultArgs(h, WidgetType, h.escAttr(TitleTag(s.titleTag)), Yes(s.enableTitleIcon),
                      s.titleIcon, h.escAttr(s.iconPosition), AlignClass(h, s))
  }

  function Render(h: Host, s: Settings): (r: WidgetCall)
    ensures r.widget == "WP_Widget_RSS"
    ensures Keys(r.instance) == ["title", "url", "items", "show_summary", "show_author", "show_date"]
  {
    WidgetCall("WP_Widget_RSS", Instance(h, s), Args(h, s))
  }

  /** What each key of the instance holds. */
  lemma Lookups(h: Host, s: Settings)
    ensures Get(Instance(h, s), "title") == Some(Text(h.escAttr(StripTitle(s.feedTitle))))
    ensures Get(Instance(h, s), "items") == Some(Text(h.escAttr(ItemCount(s))))
    ensures Get(Instance(h, s), "show_summary") == Some(Flag(Yes(s.displayContent)))
    ensures Get(Instance(h, s), "show_author") == Some(Flag(Yes(s.displayAuthor)))
    ensures Get(Instance(h, s), "show_date") == Some(Flag(Yes(s.displayDate)))
  {
    var r := Instance(h, s);
    GetAt(r, 0);
    GetAt(r, 2);
    GetAt(r, 3);
    GetAt(r, 4);
    GetAt(r, 5);
  }

  /** The feed title reaches the widget escaped, after every stripped character
      is gone and every other one kept in order. */
  lemma RenderTitle(h: Host, s: Settings)
    ensures exists t :: Get(Render(h, s).instance, "title") == Some(Text(h.escAttr(t)))
                        && t == Keep(Stripped, s.feedTitle)
                        && (forall c :: c in t ==> c !in Stripped)
  {
    StripTitleSpec(s.feedTitle);
    Lookups(h, s);
    var t := StripTitle(s.feedTitle);
    assert Get(Render(h, s).instance, "title") == Some(Text(h.escAttr(t)));
  }

  /** The item count is the slider's size when it has one and "0" otherwise. */
  lemma RenderItems(h: Host, s: Settings)
    ensures s.itemsSize.Some? ==> Get(Render(h, s).instance, "items") == Some(Text(h.escAttr(s.itemsSize.value)))
    ensures s.itemsSize.None? ==> Get(Render(h, s).instance, "items") == Some(Text(h.escAttr("0")))
  {
    Lookups(h, s);
  }

  /** Each display flag is on exactly when its switcher holds `yes`. */
  lemma RenderFlags(h: Host, s: Settings)
    ensures Get(Render(h, s).instance, "show_summary") == Some(Flag(true)) <==> s.displayContent == "yes"
    ensures Get(Render(h, s).instance, "show_author") == Some(Flag(true)) <==> s.displayAuthor == "yes"
    ensures Get(Render(h, s).instance, "show_date") == Some(Flag(true)) <==> s.displayDate == "yes"
  {
    Lookups(h, s);
  }

  /** The outer box is the default one, aligned by the list alignment. */
  lemma RenderBox(h: Host, s: Settings)
    ensures Render(h, s).args.beforeWidget == DefaultBeforeWidget(WidgetType, AlignClass(h, s), Yes(s.enableTitleIcon))
  {
    assert !Truthy("");
    assert Render(h, s).args == Args(h, s);
  }

  /** The box hides the feed's own icon exactly when the title icon is switched
      on, unless the alignment value itself carries that class. */
  lemma BoxHidesFeedIcon(h: Host, s: Settings)
    requires DisableIconClass !in ClassNames(AlignClass(h, s))
    ensures DisableIconClass in ClassNames(BoxClassValue(WidgetType, AlignClass(h, s),
                                                         DisableClassFor(WidgetType, Yes(s.enableTitleIcon))))
            <==> s.enableTitleIcon == "yes"
  {
    WidgetTypePlain();
    DisableClassIff(WidgetType, AlignClass(h, s), Yes(s.enableTitleIcon));
  }

  /** With escaping that removes `<` and `"` and keeps tag names, the title
      strings balance and the title closes with an allowed tag. */
  lemma TitleBalancedInRender(h: Host, s: Settings)
    requires AttrSafe(h) && KeepsValidTags(h)
    requires s.titleIcon.IconSpec? ==> s.titleIcon.library != "svg"
    ensures Render(h, s).args.afterTitle == "</" + TitleTag(s.titleTag) + "></div>"
    ensures Balanced(TagEvents(Render(h, s).args.beforeTitle) + TagEvents(Render(h, s).args.afterTitle))
  {
    assert Render(h, s).args == Args(h, s);
    WidgetTypePlain();
    TitleWrapBalanced(h, WidgetType, s.titleTag, Yes(s.enableTitleIcon), s.titleIcon,
                      h.escAttr(s.iconPosition), AlignClass(h, s), "");
  }

  /** With escaping that removes `<`, the outer box and `after_widget` balance. */
  lemma BoxBalancedInRender(h: Host, s: Settings)
    requires AttrSafe(h)
    ensures Balanced(TagEvents(Render(h, s).args.beforeWidget) + TagEvents(Render(h, s).args.afterWidget))
  {
    assert Render(h, s).args == Args(h, s);
    AlignPrefixNoTag();
    assert '<' !in h.escAttr(s.listAlignment);
    assert '<' !in AlignClass(h, s);
    WidgetTypePlain();
    BoxBalanced(h, WidgetType, h.escAttr(TitleTag(s.titleTag)), Yes(s.enableTitleIcon), s.titleIcon,
                h.escAttr(s.iconPosition), AlignClass(h, s));
  }
}
