/**
 * The navigation menu widget: the menu picker of its content tab, the five style
 * sections it registers through the two generators, and its `render`, which
 * supplies its own outer box and passes the chosen menu to the host's classic
 * navigation menu widget.
 */
module MenuWidget {
  import opened Php
  import opened Markup
  import opened Wp
  import opened Controls
  import opened StyleOptions
  import opened Generators
  import opened GeneratorLemmas
  import opened Sections
  import opened DefaultArgs
  import opened WidgetRender

  /** The type name the widget passes to the wrapper builder. */
  const WidgetType: string := "nav-menu"

  lemma WidgetTypePlain()
    ensures Plain(WidgetType)
  {
  }

  // ---------------------------------------------------------------------------
  // The menu picker
  // ---------------------------------------------------------------------------

  /** A menu of the site: its term id and its name, as the host lists them. */
  type Menu = (nat, string)

  /** The content control that lets the editor choose a menu, or the notice shown
      in its place. */
  datatype MenuControl =
    | MenuSelect(name: string, caption: Label, options: seq<Menu>, default: nat, saveDefault: bool)
    | MenuNotice(name: string, raw: string, separator: string, contentClasses: string)

  const NoMenusText: string := "There are no menus in your site."
  const LinkAttrsEnd: string := "\" target=\"_blank\">"
  const MenusScreen: string := "nav-menus.php?action=edit&menu=0"
  const AlertClasses: string := "elementor-panel-alert elementor-panel-alert-info"

  /** The notice text: the translated sentence in `strong`, a `br`, then "Go to
      the Menus screen to create one." with "Menus screen" linked to `url` in a
      new tab. `wp_kses_post` keeps the link template as it is, since it uses only
      an `a` element with `href` and `target`. */
  function NoticeMarkup(sentence: string, url: string): string {
    OpenEl("strong", ">") + (sentence + (CloseEl("strong") + (OpenEl("br", ">") + NoticeLink(url))))
  }

  function NoticeLink(url: string): string {
    "Go to the " + (LinkOpen + url + (LinkAttrsEnd + "Menus screen") + (CloseEl("a") + " to create one."))
  }

  /** The notice as registered: the `%s` is the menus screen's admin address. */
  function NoticeText(h: Host): string {
    NoticeMarkup(h.translate(NoMenusText), h.adminUrl(MenusScreen))
  }

  /** The menu picker for the site's menus, in the order the host lists them. */
  function MenuChoice(h: Host, menus: seq<Menu>): (r: MenuControl)
    ensures r.MenuSelect? <==> menus != []
    ensures r.MenuSelect? ==> r.name == "navigation_menu" && r.options == menus && r.saveDefault
                              && r.caption == Translated("Select menu")
    ensures r.MenuNotice? ==> r.name == "navigation_menu_link" && r.separator == "after"
                              && r.contentClasses == AlertClasses
  {
    if menus != [] then MenuSelect("navigation_menu", Translated("Select menu"), menus, menus[0].0, true)
    else MenuNotice("navigation_menu_link", NoticeText(h), "after", AlertClasses)
  }

  /** Exactly one of the two controls is registered, and a picker starts on the
      first menu the host lists, which is one of its options. */
  lemma MenuChoiceDefault(h: Host, menus: seq<Menu>)
    ensures var r := MenuChoice(h, menus);
            (r.name == "navigation_menu") != (r.name == "navigation_menu_link")
    ensures var r := MenuChoice(h, menus);
            r.MenuSelect? ==> r.default == r.options[0].0 && r.default == menus[0].0
  {
  }

  /**
   * When neither the translated sentence nor the admin address holds a `<`, the
   * notice opens and closes a `strong`, then a `br`, then opens and closes one
   * link; and when the address also holds no `"`, that link's one address is the
   * menus screen's admin address.
   */
  lemma NoticeLinks(h: Host)
    requires '<' !in h.translate(NoMenusText) && '<' !in h.adminUrl(MenusScreen)
    ensures MenuChoice(h, []).MenuNotice?
    ensures TagEvents(MenuChoice(h, []).raw)
            == [Open("strong"), Close("strong"), Open("br"), Open("a"), Close("a")]
    ensures '"' !in h.adminUrl(MenusScreen) ==> Hrefs(MenuChoice(h, []).raw) == [h.adminUrl(MenusScreen)]
  {
    NoticeTags(h.translate(NoMenusText), h.adminUrl(MenusScreen));
    if '"' !in h.adminUrl(MenusScreen) {
      NoticeHrefs(h.translate(NoMenusText), h.adminUrl(MenusScreen));
    }
  }

  lemma NoticeTags(sentence: string, url: string)
    requires '<' !in sentence && '<' !in url
    ensures TagEvents(NoticeMarkup(sentence, url))
            == [Open("strong"), Close("strong"), Open("br"), Open("a"), Close("a")]
  {
    var link := NoticeLink(url);
    assert IsTagName("strong") && IsTagName("br") && IsTagName("a");
    assert AttrText(">");
    OpenElEvents("strong", ">", sentence + (CloseEl("strong") + (OpenEl("br", ">") + link)));
    TagEventsText(sentence, CloseEl("strong") + (OpenEl("br", ">") + link));
    CloseElEvents("strong", OpenEl("br", ">") + link);
    OpenElEvents("br", ">", link);
    LinkTags(url);
    Cons5(Open("strong"), Close("strong"), Open("br"), Open("a"), Close("a"));
  }

  lemma Cons5<T>(a: T, b: T, c: T, d: T, e: T)
    ensures [a] + ([b] + ([c] + [d, e])) == [a, b, c, d, e]
  {
  }

  lemma LinkTags(url: string)
    requires '<' !in url
    ensures TagEvents(NoticeLink(url)) == [Open("a"), Close("a")]
  {
    var attrs := " href=\"" + url + (LinkAttrsEnd + "Menus screen");
    LinkAttrsEndShape();
    assert '<' !in "Go to the " && '<' !in " href=\"" && '<' !in "Menus screen" && '<' !in " to create one.";
    HeadOfConcat(" href=\"", url);
    HeadOfConcat(" href=\"" + url, LinkAttrsEnd + "Menus screen");
    assert IsTagName("a");
    LinkText(url);
    ElementTags("Go to the ", "a", attrs, " to create one.");
  }

  /** Text, one element with no tag inside, text. */
  lemma ElementTags(pre: string, name: string, attrs: string, post: string)
    requires '<' !in pre && IsTagName(name) && name[0] != '/' && AttrText(attrs) && '<' !in post
    ensures TagEvents(pre + (OpenEl(name, attrs) + (CloseEl(name) + post))) == [Open(name), Close(name)]
  {
    TagEventsText(pre, OpenEl(name, attrs) + (CloseEl(name) + post));
    OpenElEvents(name, attrs, CloseEl(name) + post);
    CloseElEvents(name, post);
    TagEventsText(post, "");
    assert post + "" == post;
  }

  /** The link part of the notice regrouped as an `a` element. */
  lemma LinkText(url: string)
    ensures NoticeLink(url)
            == "Go to the " + (OpenEl("a", " href=\"" + url + (LinkAttrsEnd + "Menus screen"))
                               + (CloseEl("a") + " to create one."))
  {
    var h := " href=\"";
    var t := LinkAttrsEnd + "Menus screen";
    assert LinkOpen == "<" + "a" + h;
    ConcatAssoc("<" + "a", h, url);
    ConcatAssoc("<" + "a", h + url, t);
  }

  lemma NoticeHrefs(sentence: string, url: string)
    requires '<' !in sentence && '"' !in url
    ensures Hrefs(NoticeMarkup(sentence, url)) == [url]
  {
    var link := NoticeLink(url);
    HrefsOtherTag("strong", ">", sentence + (CloseEl("strong") + (OpenEl("br", ">") + link)));
    HrefsText(sentence, CloseEl("strong") + (OpenEl("br", ">") + link));
    HrefsCloseTag("strong", OpenEl("br", ">") + link);
    HrefsOtherTag("br", ">", link);
    LinkHrefs(url);
  }

  lemma LinkHrefs(url: string)
    requires '"' !in url
    ensures Hrefs(NoticeLink(url)) == [url]
  {
    LinkAttrsEndShape();
    HeadOfConcat(LinkAttrsEnd, "Menus screen");
    assert '<' !in "Go to the " && '<' !in "Menus screen" && '<' !in " to create one.";
    LinkAddressIn("Go to the ", url, LinkAttrsEnd + "Menus screen", " to create one.");
  }

  lemma LinkAttrsEndShape()
    ensures LinkAttrsEnd != [] && LinkAttrsEnd[0] == '"' && '<' !in LinkAttrsEnd
  {
  }

  lemma HeadOfConcat(a: string, b: string)
    requires a != []
    ensures (a + b)[0] == a[0]
  {
  }

  /** Text, one link whose address is followed by its closing quote, text: the
      one address is the link's. */
  lemma LinkAddressIn(pre: string, url: string, t: string, post: string)
    requires '<' !in pre && '"' !in url && t != [] && t[0] == '"' && '<' !in t && '<' !in post
    ensures Hrefs(pre + (LinkOpen + url + t + (CloseEl("a") + post))) == [url]
  {
    var after := CloseEl("a") + post;
    HrefsText(pre, LinkOpen + url + t + after);
    ConcatAssoc(LinkOpen + url, t, after);
    HeadOfConcat(t, after);
    HrefsLink(url, t + after);
    HrefsText(t, after);
    HrefsCloseTag("a", post);
    HrefsText(post, "");
    assert post + "" == post;
  }

  // ---------------------------------------------------------------------------
  // Style sections
  // ---------------------------------------------------------------------------

  const MenuTitle: string := "mdp-widgeter-nav-menu-title"
  const NavBoxClass: string := Mdp + "nav-menu-" + Elementor + "box"
  const MenuList: string := NavBoxClass + " ul"
  const SubmenuList: string := MenuList + ".sub-menu"
  const MenuItem: string := "menu-item a"
  const SubmenuItem: string := "sub-menu .menu-item a"

  const TitleSection: Call := Call("section_style_title", Some(MenuTitle), map[
    HtmlClass := S(MenuTitle),
    TypographyClass := S(MenuTitle),
    AdditionalColor := B(true),
    AdditionalColorName := S("Icon color"),
    AdditionalColorClass := S(TitleIconClass),
    AdditionalColorHoverClass := S(MenuTitle + ":hover ." + TitleIconClass),
    AdditionalTransitionSelector := S(Wrap(TitleIconClass)),
    ColorClass := S(MenuTitle),
    ColorHoverClass := S(MenuTitle + ":hover")])

  const MenuSection: Call := Call("section_style_menu", Some(MenuList), map[
    HtmlClass := S(MenuList),
    IncludeTypography := B(false),
    IncludeColor := B(false)])

  const SubmenuSection: Call := Call("section_style_submenu", Some(SubmenuList), map[
    HtmlClass := S(SubmenuList),
    IncludeTypography := B(false),
    IncludeColor := B(false)])

  const MenuItemSection: Call := Call("section_style_menu_item", Some(MenuItem), map[
    HtmlClass := S(MenuItem),
    TypographyClass := S(MenuItem),
    ColorClass := S(MenuItem),
    ColorHoverClass := S(MenuItem + ":hover")])

  const SubmenuItemSection: Call := Call("section_style_submenu_item", Some(SubmenuItem), map[
    HtmlClass := S(SubmenuItem),
    TypographyClass := S(SubmenuItem),
    ColorClass := S(SubmenuItem),
    ColorHoverClass := S(SubmenuItem + ":hover")])

  /** The style tab, in registration order. */
  const StyleSections: seq<Call> :=
    [TitleSection, MenuSection, SubmenuSection, MenuItemSection, SubmenuItemSection]

  /** What every menu section leaves out of its options, and that each has a
      margin/padding pair. */
  lemma SectionKeys(c: Call)
    requires c in StyleSections
    ensures PlainSection(c)
    ensures c.boxClass.Some?
  {
    TitleSectionPlain();
    MenuSectionPlain();
    SubmenuSectionPlain();
    MenuItemSectionPlain();
    SubmenuItemSectionPlain();
  }

  lemma TitleSectionPlain() ensures PlainSection(TitleSection) && TitleSection.boxClass.Some? { }
  lemma MenuSectionPlain() ensures PlainSection(MenuSection) && MenuSection.boxClass.Some? { }
  lemma SubmenuSectionPlain() ensures PlainSection(SubmenuSection) && SubmenuSection.boxClass.Some? { }
  lemma MenuItemSectionPlain() ensures PlainSection(MenuItemSection) && MenuItemSection.boxClass.Some? { }
  lemma SubmenuItemSectionPlain() ensures PlainSection(SubmenuItemSection) && SubmenuItemSection.boxClass.Some? { }

  /** No menu section passes `include_bg`, `additional_background` or
      `include_active_tab`: the generator's `include_bg` slip does not reach
      them, their control names are pairwise distinct, and each has its
      margin/padding pair and exactly the NORMAL and HOVER tabs. */
  lemma StyleSectionsWellFormed(c: Call)
    requires c in StyleSections
    ensures Adds(Boxes(c)) + TypographyTabsAsWritten(c.id, c.opts) == SectionItems(c)
    ensures NoDup(Names(TypographyTabs(c.id, c.opts)))
    ensures ReadLayout(SectionItems(c)).Some?
    ensures |ReadLayout(SectionItems(c)).value.tabs| == 2
    ensures |Boxes(c)| == 2
  {
    SectionKeys(c);
    PlainSectionWellFormed(c);
  }

  /** The menu and submenu sections turn the text colour off, yet each of their
      tabs still has a background. */
  lemma ListSectionsAreBoxes(c: Call, t: State)
    requires c == MenuSection || c == SubmenuSection
    requires t != Active
    ensures HasKind(TabOf(c.id, Defaults(c.opts), t).controls, BackgroundGroup(BackgroundTypes))
    ensures !HasKind(TabOf(c.id, Defaults(c.opts), t).controls, ColorPicker)
  {
    BoxSectionTabs(c, t);
  }

  // ---------------------------------------------------------------------------
  // Render
  // ---------------------------------------------------------------------------

  /** The settings `render` reads; the icon and its position reach the builder
      unescaped. */
  datatype Settings = Settings(
    titleTag: string,
    enableTitleIcon: string,
    titleIcon: IconArg,
    iconPosition: string,
    orientation: string,
    alignment: string,
    title: string,
    navigationMenu: string
  )

  const OrientationPrefix: string := Mdp + Elementor + "orientation-"
  const AlignmentPrefix: string := Mdp + Elementor + "alignment-"

  /** A line break followed by `n` spaces of indentation. */
  function Line(n: nat): string {
    "\n" + Spaces(n)
  }

  /** The class attribute value of the menu's own outer box. */
  function MenuBoxClassValue(orientation: string, alignment: string): string {
    BoxClass + (" " + Line(27))
      + (NavBoxClass + Line(27) + ((OrientationPrefix + orientation) + Line(27) + (AlignmentPrefix + alignment)))
  }

  /** The text of the menu box's tag after `<div`, around its class value. */
  function MenuBoxAttrs(value: string): string {
    " " + Line(20) + "class=\"" + value + "\"" + Line(18) + ">"
  }

  /** The `before_widget` the menu builds for itself from its layout settings. */
  function MenuBox(h: Host, s: Settings): string {
    OpenEl("div", MenuBoxAttrs(MenuBoxClassValue(h.escAttr(s.orientation), h.escAttr(s.alignment))))
  }

  /** The instance array: the escaped title, and the menu id only when one is chosen. */
  function Instance(h: Host, s: Settings): Assoc<Value> {
    var base := [("title", Text(h.escHtml(s.title)))];
    if Truthy(s.navigationMenu) then Put(base, "nav_menu", Text(h.escAttr(s.navigationMenu))) else base
  }

  function Args(h: Host, s: Settings): WidgetArgs {
    WidgetDefaultArgs(h, WidgetType, h.escAttr(TitleTag(s.titleTag)), Yes(s.enableTitleIcon),
                      s.titleIcon, s.iconPosition, "", MenuBox(h, s))
  }

  function Render(h: Host, s: Settings): (r: WidgetCall)
    ensures r.widget == "WP_Nav_Menu_Widget"
  {
    WidgetCall("WP_Nav_Menu_Widget", Instance(h, s), Args(h, s))
  }

  /** The instance always has the title; it has `nav_menu` exactly when a menu is
      chosen (a setting other than "" and "0"), holding the escaped choice. */
  lemma RenderInstance(h: Host, s: Settings)
    ensures Keys(Render(h, s).instance) == ["title"] + (if Truthy(s.navigationMenu) then ["nav_menu"] else [])
    ensures Get(Render(h, s).instance, "title") == Some(Text(h.escHtml(s.title)))
    ensures Get(Render(h, s).instance, "nav_menu").Some? <==> Truthy(s.navigationMenu)
    ensures Truthy(s.navigationMenu) ==> Get(Render(h, s).instance, "nav_menu") == Some(Text(h.escAttr(s.navigationMenu)))
  {
    var t := Text(h.escHtml(s.title));
    Single("title", t);
    if Truthy(s.navigationMenu) {
      assert "nav_menu" != "title";
      PutSecond("title", t, "nav_menu", Text(h.escAttr(s.navigationMenu)));
    } else {
      assert "nav_menu" !in ["title"];
    }
  }

  lemma TruthyPrefix(p: string, rest: string)
    requires |p| >= 2
    ensures Truthy(p + rest)
  {
    assert |p + rest| >= 2;
  }

  /** The menu's own box replaces the default one; the title strings and
      `after_widget` are the ones the builder makes without an override. */
  lemma RenderArgs(h: Host, s: Settings)
    ensures var r := Render(h, s).args;
            var d := WidgetDefaultArgs(h, WidgetType, h.escAttr(TitleTag(s.titleTag)), Yes(s.enableTitleIcon),
                                       s.titleIcon, s.iconPosition);
            && r.beforeWidget == MenuBox(h, s)
            && r.afterWidget == d.afterWidget
            && r.beforeTitle == d.beforeTitle
            && r.afterTitle == d.afterTitle
  {
    TruthyPrefix("<" + "div", MenuBoxAttrs(MenuBoxClassValue(h.escAttr(s.orientation), h.escAttr(s.alignment))));
    assert Render(h, s).args == Args(h, s);
  }

  lemma LineGap(n: nat)
    ensures Gap(Line(n)) && Gap(" " + Line(n))
  {
    assert IsSpace(Line(n)[0]);
    assert forall i :: 1 <= i < |Line(n)| ==> Line(n)[i] == Spaces(n)[i - 1];
  }

  /** Two words, then two further values, each separated by a run of separators. */
  lemma FourParts(w1: string, g1: string, w2: string, g2: string, x: string, g3: string, y: string)
    requires Word(w1) && Gap(g1) && Word(w2) && Gap(g2) && Gap(g3)
    ensures ClassNames(w1 + g1 + (w2 + g2 + (x + g3 + y))) == [w1, w2] + ClassNames(x) + ClassNames(y)
  {
    WordThen(w1, g1, w2 + g2 + (x + g3 + y));
    WordThen(w2, g2, x + g3 + y);
    ClassNamesJoin(x, g3, y);
  }

  /** The menu box carries the generic box class, the menu box class, then the
      classes of the orientation and of the alignment value. */
  lemma MenuBoxClasses(o: string, a: string)
    ensures ClassNames(MenuBoxClassValue(o, a))
            == [BoxClass, NavBoxClass] + ClassNames(OrientationPrefix + o) + ClassNames(AlignmentPrefix + a)
  {
    BoxClassPlain();
    PlainClasses();
    LineGap(27);
    FourParts(BoxClass, " " + Line(27), NavBoxClass, Line(27), OrientationPrefix + o, Line(27), AlignmentPrefix + a);
  }

  lemma PrefixedWord(p: string, x: string)
    requires Word(p) && NoSpace(x)
    ensures ClassNames(p + x) == [p + x]
  {
    NoSpaceConcat(p, x);
    ClassNamesWord(p + x);
  }

  lemma PlainClasses()
    ensures Word(NavBoxClass) && '<' !in NavBoxClass
    ensures Word(OrientationPrefix) && '<' !in OrientationPrefix
    ensures Word(AlignmentPrefix) && '<' !in AlignmentPrefix
  {
    PlainElementor();
    assert Plain("nav-menu-") && Plain("box") && Plain("orientation-") && Plain("alignment-");
    PrefixedPlain("nav-menu-", Elementor, "box");
    PrefixedPlain(Elementor, "orientation-", "");
    assert OrientationPrefix == Mdp + Elementor + "orientation-" + "";
    PrefixedPlain(Elementor, "alignment-", "");
    assert AlignmentPrefix == Mdp + Elementor + "alignment-" + "";
  }

  /** With single-word settings, the box has exactly four classes. */
  lemma MenuBoxFourClasses(o: string, a: string)
    requires NoSpace(o) && NoSpace(a)
    ensures ClassNames(MenuBoxClassValue(o, a)) == [BoxClass, NavBoxClass, OrientationPrefix + o, AlignmentPrefix + a]
  {
    MenuBoxClasses(o, a);
    PlainClasses();
    PrefixedWord(OrientationPrefix, o);
    PrefixedWord(AlignmentPrefix, a);
  }

  lemma LineNoTag(n: nat)
    ensures '<' !in Line(n)
  {
    SpacesNoTag(n);
  }

  /** The menu box text holds no `<` after its opening `<div`. */
  lemma MenuBoxText(h: Host, s: Settings)
    requires AttrSafe(h)
    ensures '<' !in MenuBoxClassValue(h.escAttr(s.orientation), h.escAttr(s.alignment))
  {
    BoxClassPlain();
    PlainClasses();
    LineNoTag(27);
  }

  lemma MenuBoxAttrsText(v: string)
    requires '<' !in v
    ensures AttrText(MenuBoxAttrs(v))
  {
    LineNoTag(20);
    LineNoTag(18);
  }

  /** With escaping that removes `<`, the menu box opens exactly one `div`. */
  lemma MenuBoxTags(h: Host, s: Settings)
    requires AttrSafe(h)
    ensures TagEvents(MenuBox(h, s)) == [Open("div")]
  {
    var v := MenuBoxClassValue(h.escAttr(s.orientation), h.escAttr(s.alignment));
    MenuBoxText(h, s);
    MenuBoxAttrsText(v);
    DivName();
    OpenElEvents("div", MenuBoxAttrs(v), "");
    assert MenuBox(h, s) + "" == MenuBox(h, s);
  }

  /** With escaping that removes `<`, the menu box and `after_widget` balance. */
  lemma MenuBoxBalanced(h: Host, s: Settings)
    requires AttrSafe(h)
    ensures Balanced(TagEvents(Render(h, s).args.beforeWidget) + TagEvents(Render(h, s).args.afterWidget))
  {
    MenuBoxTags(h, s);
    RenderArgs(h, s);
    CloseDivTags();
    BalancedEmpty();
    Wrapped("div", []);
    assert [Open("div")] + [] + [Close("div")] == [Open("div")] + [Close("div")];
  }

  /** With escaping that removes `<` and `"` and keeps tag names, the title
      strings balance and the title closes with an allowed tag. */
  lemma TitleBalancedInRender(h: Host, s: Settings)
    requires AttrSafe(h) && KeepsValidTags(h)
    requires s.titleIcon.IconSpec? ==> s.titleIcon.library != "svg"
    ensures Render(h, s).args.afterTitle == "</" + TitleTag(s.titleTag) + "></div>"
    ensures Balanced(TagEvents(Render(h, s).args.beforeTitle) + TagEvents(Render(h, s).args.afterTitle))
  {
    assert Render(h, s).args == Args(h, s);
    WidgetTypePlain();
    TitleWrapBalanced(h, WidgetType, s.titleTag, Yes(s.enableTitleIcon), s.titleIcon,
                      s.iconPosition, "", MenuBox(h, s));
  }
}
