/**
 * The wrapper markup every widget of the plugin is rendered with: the four
 * `before_widget` / `after_widget` / `before_title` / `after_title` strings the
 * host's widget renderer wraps around a classic widget, and the optional icon
 * fragment placed at the start of the title.
 */
module DefaultArgs {
  import opened Php
  import opened Markup
  import opened Wp

  /** The icon argument: empty (null, '' or an empty array) or an icon array. */
  datatype IconArg = NoIcon | IconSpec(value: string, library: string)

  datatype WidgetArgs = WidgetArgs(
    beforeWidget: string,
    afterWidget: string,
    beforeTitle: string,
    afterTitle: string
  )

  /** The plugin's class-name prefix, and the word most of its classes continue with. */
  const Mdp: string := "mdp-widgeter-"
  const Elementor: string := "elementor-"

  const BoxClass: string := Mdp + Elementor + "box"
  const DisableIconClass: string := Mdp + "disable-" + "default-" + "icon"
  const TitleClass: string := Mdp + "title"
  const PositionClassPrefix: string := Mdp + Elementor + "icon-" + "position-"
  const TitleIconClass: string := Mdp + Elementor + "title-" + "icon"
  const TitleWrapperClass: string := Mdp + Elementor + "title-" + "wrapper"

  function Spaces(n: nat): (r: string)
    ensures |r| == n && AllSpace(r)
    ensures forall i :: 0 <= i < n ==> r[i] == ' '
  {
    seq(n, _ => ' ')
  }

  /** The separator between the two leading classes of the default box. */
  const BoxGap: string := "  \n" + Spaces(32)
  /** The separator before each class of the title element. */
  const TitleGap: string := "\n" + Spaces(40)

  /** The per-widget-type class `mdp-widgeter-<type><suffix>`. */
  function TypeClass(widgetType: string, suffix: string): string {
    Mdp + widgetType + suffix
  }

  /** ` class="<value>">`: a class attribute that ends its tag. */
  function ClassAttr(value: string): string {
    " class=\"" + value + "\">"
  }

  /** The markup of the icon itself: the uploaded SVG, or an `<i>` element whose
      class is the icon's value. */
  function IconMarkup(h: Host, value: string, library: string): string {
    if library == "svg" then h.svgIcon(value)
    else OpenEl("i", ClassAttr(h.escAttr(value))) + CloseEl("i")
  }

  /** The title icon fragment (create_widgeter_title_icon): empty for a missing
      icon or a disabled switch, else the icon inside its own `div`. */
  function TitleIcon(h: Host, icon: IconArg, enabled: bool): (r: string)
    ensures r == "" <==> icon.NoIcon? || !enabled
  {
    if icon.NoIcon? || !enabled then ""
    else OpenEl("div", ClassAttr(TitleIconClass)) + (IconMarkup(h, icon.value, icon.library) + CloseEl("div"))
  }

  /** The extra class that hides the RSS widget's own feed icon. */
  function DisableClassFor(widgetType: string, iconEnabled: bool): string {
    if widgetType == "rss-feed" && iconEnabled then DisableIconClass else ""
  }

  /** The class attribute value of the default outer box. */
  function BoxClassValue(widgetType: string, alignClass: string, disable: string): string {
    BoxClass + BoxGap + (TypeClass(widgetType, "-elementor-box") + " " + (alignClass + " " + (disable + " ")))
  }

  /** The text of the default box's tag after `<div`, around its class value. */
  function BoxAttrs(value: string): string {
    " \n" + Spaces(32) + "class=\"" + value + "\"\n" + Spaces(32) + ">"
  }

  function DefaultBeforeWidget(widgetType: string, alignClass: string, iconEnabled: bool): string {
    OpenEl("div", BoxAttrs(BoxClassValue(widgetType, alignClass, DisableClassFor(widgetType, iconEnabled))))
  }

  /** The class attribute value of the title element. */
  function TitleClassValue(widgetType: string, position: string): string {
    TitleGap + (TitleClass + (" " + TitleGap)
                + (TypeClass(widgetType, "-title") + (" " + TitleGap) + (PositionClassPrefix + position)))
  }

  /** The text of the title wrapper's tag after `<div`, with the indentation after it. */
  const WrapperAttrs: string := ClassAttr(TitleWrapperClass) + " \n" + Spaces(35)

  function BeforeTitle(h: Host, widgetType: string, titleTag: string, iconEnabled: bool,
                       icon: IconArg, iconPosition: string): string {
    OpenEl("div", WrapperAttrs)
      + (OpenEl(titleTag, ClassAttr(TitleClassValue(widgetType, h.escAttr(iconPosition))))
         + TitleIcon(h, icon, iconEnabled))
  }

  /**
   * widgeter_get_widget_default_args: `alignClass` and `beforeWidget` are the
   * optional trailing arguments (default ""); a non-empty `beforeWidget` replaces
   * the default outer box and nothing else.
   */
  function WidgetDefaultArgs(h: Host, widgetType: string, titleTag: string, iconEnabled: bool,
                             icon: IconArg, iconPosition: string,
                             alignClass: string := "", beforeWidget: string := ""): (r: WidgetArgs)
    ensures r.afterWidget == CloseEl("div") == "</div>"
    ensures r.afterTitle == CloseEl(titleTag) + CloseEl("div") == "</" + titleTag + "></div>"
    ensures r.beforeTitle == BeforeTitle(h, widgetType, titleTag, iconEnabled, icon, iconPosition)
    ensures Truthy(beforeWidget) ==> r.beforeWidget == beforeWidget
    ensures !Truthy(beforeWidget) ==> r.beforeWidget == DefaultBeforeWidget(widgetType, alignClass, iconEnabled)
  {
    ClosingText(titleTag);
    var args := WidgetArgs(
      DefaultBeforeWidget(widgetType, alignClass, iconEnabled),
      CloseEl("div"),
      BeforeTitle(h, widgetType, titleTag, iconEnabled, icon, iconPosition),
      CloseEl(titleTag) + CloseEl("div"));
    if Truthy(beforeWidget) then args.(beforeWidget := beforeWidget) else args
  }

  lemma ClosingText(titleTag: string)
    ensures CloseEl("div") == "</div>"
    ensures CloseEl(titleTag) + CloseEl("div") == "</" + titleTag + "></div>"
  {
    assert "</div>" == "</" + "div" + ">";
    assert "></div>" == ">" + "</div>";
  }

  // ---------------------------------------------------------------------------
  // Class lists
  // ---------------------------------------------------------------------------

  /** Text that can be glued into one class name: no separator and no `<`. */
  predicate Plain(s: string) {
    NoSpace(s) && '<' !in s
  }

  lemma PlainConcat(a: string, b: string)
    requires Plain(a) && Plain(b)
    ensures Plain(a + b)
  {
    NoSpaceConcat(a, b);
  }

  lemma PlainMdp()
    ensures Plain(Mdp)
  {
  }

  lemma PlainElementor()
    ensures Plain(Elementor)
  {
  }

  /** Three plain pieces after the prefix make a class name. */
  lemma PrefixedPlain(a: string, b: string, c: string)
    requires Plain(a) && Plain(b) && Plain(c)
    ensures Word(Mdp + a + b + c) && '<' !in Mdp + a + b + c
  {
    PlainMdp();
    PlainConcat(Mdp, a);
    PlainConcat(Mdp + a, b);
    PlainConcat(Mdp + a + b, c);
  }

  lemma BoxClassPlain()
    ensures Word(BoxClass) && '<' !in BoxClass
  {
    PlainElementor();
    assert Plain("box");
    PrefixedPlain(Elementor, "box", "");
    assert BoxClass == Mdp + Elementor + "box" + "";
  }

  lemma DisableIconClassPlain()
    ensures Word(DisableIconClass) && '<' !in DisableIconClass
  {
    assert Plain("disable-") && Plain("default-") && Plain("icon");
    PrefixedPlain("disable-", "default-", "icon");
  }

  lemma TitleClassPlain()
    ensures Word(TitleClass) && '<' !in TitleClass
  {
    assert Plain("title");
    PrefixedPlain("title", "", "");
    assert TitleClass == Mdp + "title" + "" + "";
  }

  lemma PositionClassPrefixPlain()
    ensures Word(PositionClassPrefix) && '<' !in PositionClassPrefix
  {
    PlainElementor();
    assert Plain("icon-") && Plain("position-");
    PrefixedPlain(Elementor, "icon-", "position-");
  }

  lemma TitleIconClassPlain()
    ensures Word(TitleIconClass) && '<' !in TitleIconClass
  {
    PlainElementor();
    assert Plain("title-") && Plain("icon");
    PrefixedPlain(Elementor, "title-", "icon");
  }

  lemma TitleWrapperClassPlain()
    ensures Word(TitleWrapperClass) && '<' !in TitleWrapperClass
  {
    PlainElementor();
    assert Plain("title-") && Plain("wrapper");
    PrefixedPlain(Elementor, "title-", "wrapper");
  }

  lemma TypeClassWord(widgetType: string, suffix: string)
    requires NoSpace(widgetType) && Word(suffix)
    ensures Word(TypeClass(widgetType, suffix))
  {
    PlainMdp();
    NoSpaceConcat(Mdp, widgetType);
    NoSpaceConcat(Mdp + widgetType, suffix);
  }

  lemma GapsAreGaps()
    ensures Gap(BoxGap) && Gap(TitleGap) && Gap(" " + TitleGap)
  {
    assert IsSpace(BoxGap[0]) && IsSpace(BoxGap[1]) && IsSpace(BoxGap[2]);
    assert forall i :: 3 <= i < |BoxGap| ==> BoxGap[i] == Spaces(32)[i - 3];
    assert IsSpace(TitleGap[0]);
    assert forall i :: 1 <= i < |TitleGap| ==> TitleGap[i] == Spaces(40)[i - 1];
    var sg := " " + TitleGap;
    assert forall i :: 1 <= i < |sg| ==> sg[i] == TitleGap[i - 1];
  }

  lemma ClassNamesLast(d: string)
    ensures ClassNames(d + " ") == ClassNames(d)
  {
    assert d + " " == d + [' '] + "";
    ClassNamesSplit(d, ' ', "");
    assert ClassNames(d) + [] == ClassNames(d);
  }

  lemma Regroup<T>(x: T, y: T, p: seq<T>, q: seq<T>)
    ensures [x] + ([y] + (p + q)) == [x, y] + p + q
  {
  }

  lemma BoxShape(w1: string, g: string, w2: string, a: string, d: string)
    requires Word(w1) && Gap(g) && Word(w2)
    ensures ClassNames(w1 + g + (w2 + " " + (a + " " + (d + " "))))
            == [w1, w2] + ClassNames(a) + ClassNames(d)
  {
    WordThen(w1, g, w2 + " " + (a + " " + (d + " ")));
    ClassNamesSplit(w2, ' ', a + " " + (d + " "));
    ClassNamesWord(w2);
    ClassNamesSplit(a, ' ', d + " ");
    ClassNamesLast(d);
    Regroup(w1, w2, ClassNames(a), ClassNames(d));
  }

  /**
   * The classes of the default outer box: the generic box class, the per-type box
   * class, the alignment classes, and the icon-disabling class exactly for an RSS
   * widget with its title icon enabled.
   */
  lemma BoxClasses(widgetType: string, alignClass: string, iconEnabled: bool)
    requires NoSpace(widgetType)
    ensures ClassNames(BoxClassValue(widgetType, alignClass, DisableClassFor(widgetType, iconEnabled)))
            == [BoxClass, TypeClass(widgetType, "-elementor-box")] + ClassNames(alignClass)
               + (if widgetType == "rss-feed" && iconEnabled then [DisableIconClass] else [])
  {
    BoxClassesShape(widgetType, alignClass, DisableClassFor(widgetType, iconEnabled));
    DisableClassNames(widgetType, iconEnabled);
  }

  lemma {:induction false} BoxClassesShape(widgetType: string, alignClass: string, disable: string)
    requires NoSpace(widgetType)
    ensures ClassNames(BoxClassValue(widgetType, alignClass, disable))
            == [BoxClass, TypeClass(widgetType, "-elementor-box")] + ClassNames(alignClass) + ClassNames(disable)
  {
    BoxClassPlain();
    GapsAreGaps();
    TypeClassWord(widgetType, "-elementor-box");
    BoxShape(BoxClass, BoxGap, TypeClass(widgetType, "-elementor-box"), alignClass, disable);
  }

  lemma DisableClassNames(widgetType: string, iconEnabled: bool)
    ensures ClassNames(DisableClassFor(widgetType, iconEnabled))
            == if widgetType == "rss-feed" && iconEnabled then [DisableIconClass] else []
  {
    if widgetType == "rss-feed" && iconEnabled {
      DisableIconClassPlain();
      ClassNamesWord(DisableIconClass);
    }
  }

  /** The icon-disabling class is on the box exactly for an RSS widget with its
      title icon enabled, unless the alignment classes already carry it. */
  lemma DisableClassIff(widgetType: string, alignClass: string, iconEnabled: bool)
    requires NoSpace(widgetType) && DisableIconClass !in ClassNames(alignClass)
    ensures DisableIconClass in ClassNames(BoxClassValue(widgetType, alignClass, DisableClassFor(widgetType, iconEnabled)))
            <==> widgetType == "rss-feed" && iconEnabled
  {
    BoxClasses(widgetType, alignClass, iconEnabled);
    var typeBox := TypeClass(widgetType, "-elementor-box");
    assert typeBox[|typeBox| - 1] == 'x';
    assert DisableIconClass[|DisableIconClass| - 1] == 'n';
    assert BoxClass[|BoxClass| - 1] == 'x';
  }

  lemma TitleShape(g: string, sg: string, w1: string, w2: string, w3: string)
    requires AllSpace(g) && Gap(sg) && Word(w1) && Word(w2) && Word(w3)
    ensures ClassNames(g + (w1 + sg + (w2 + sg + w3))) == [w1, w2, w3]
  {
    ClassNamesLeadingSpace(g, w1 + sg + (w2 + sg + w3));
    WordThen(w1, sg, w2 + sg + w3);
    WordThen(w2, sg, w3);
    ClassNamesWord(w3);
  }

  /** The title element carries the generic title class, the per-type title class
      and the icon-position class, in that order. */
  lemma TitleClasses(widgetType: string, position: string)
    requires NoSpace(widgetType) && NoSpace(position)
    ensures ClassNames(TitleClassValue(widgetType, position))
            == [TitleClass, TypeClass(widgetType, "-title"), PositionClassPrefix + position]
  {
    TitleClassPlain();
    assert Word("-title");
    TypeClassWord(widgetType, "-title");
    PositionClassPrefixPlain();
    NoSpaceConcat(PositionClassPrefix, position);
    GapsAreGaps();
    TitleShape(TitleGap, " " + TitleGap, TitleClass, TypeClass(widgetType, "-title"), PositionClassPrefix + position);
  }

  // ---------------------------------------------------------------------------
  // Tags
  // ---------------------------------------------------------------------------

  /** The allowed title tags are plain tag names. */
  predicate PlainTag(tag: string) {
    IsTagName(tag) && tag[0] != '/'
  }

  lemma DivName()
    ensures PlainTag("div") && PlainTag("i")
  {
  }

  lemma SpacesNoTag(n: nat)
    ensures '<' !in Spaces(n)
  {
  }

  lemma ClassAttrText(value: string)
    requires '<' !in value
    ensures AttrText(ClassAttr(value))
  {
  }

  lemma BoxAttrsText(value: string)
    requires '<' !in value
    ensures AttrText(BoxAttrs(value))
  {
    SpacesNoTag(32);
  }

  lemma WrapperAttrsText()
    ensures AttrText(WrapperAttrs)
  {
    TitleWrapperClassPlain();
    ClassAttrText(TitleWrapperClass);
    SpacesNoTag(35);
  }

  lemma TypeClassNoTag(widgetType: string, suffix: string)
    requires '<' !in widgetType && '<' !in suffix
    ensures '<' !in TypeClass(widgetType, suffix)
  {
    PlainMdp();
  }

  lemma BoxValueNoTag(widgetType: string, alignClass: string, iconEnabled: bool)
    requires '<' !in widgetType && '<' !in alignClass
    ensures '<' !in BoxClassValue(widgetType, alignClass, DisableClassFor(widgetType, iconEnabled))
  {
    BoxClassPlain();
    DisableIconClassPlain();
    assert '<' !in "-elementor-box";
    SpacesNoTag(32);
    TypeClassNoTag(widgetType, "-elementor-box");
  }

  lemma TitleValueNoTag(widgetType: string, position: string)
    requires '<' !in widgetType && '<' !in position
    ensures '<' !in TitleClassValue(widgetType, position)
  {
    TitleClassPlain();
    PositionClassPrefixPlain();
    assert '<' !in "-title";
    SpacesNoTag(40);
    TypeClassNoTag(widgetType, "-title");
  }

  /** The default outer box opens exactly one `div`. */
  lemma BoxTags(widgetType: string, alignClass: string, iconEnabled: bool)
    requires '<' !in widgetType && '<' !in alignClass
    ensures TagEvents(DefaultBeforeWidget(widgetType, alignClass, iconEnabled)) == [Open("div")]
  {
    var v := BoxClassValue(widgetType, alignClass, DisableClassFor(widgetType, iconEnabled));
    BoxValueNoTag(widgetType, alignClass, iconEnabled);
    BoxAttrsText(v);
    DivName();
    OpenElEvents("div", BoxAttrs(v), "");
    assert OpenEl("div", BoxAttrs(v)) + "" == OpenEl("div", BoxAttrs(v));
  }

  /** `after_widget` closes one `div`. */
  lemma CloseDivTags()
    ensures TagEvents(CloseEl("div")) == [Close("div")]
  {
    DivName();
    CloseElAlone("div");
  }

  /** An icon given by class opens and closes a `div` around an `i`. */
  lemma IconTags(h: Host, icon: IconArg, enabled: bool)
    requires AttrSafe(h)
    requires icon.IconSpec? ==> icon.library != "svg"
    ensures TagEvents(TitleIcon(h, icon, enabled))
            == if icon.IconSpec? && enabled then [Open("div"), Open("i"), Close("i"), Close("div")] else []
  {
    if icon.IconSpec? && enabled {
      DivName();
      var c := ClassAttr(h.escAttr(icon.value));
      var cd := CloseEl("div");
      TitleIconClassPlain();
      ClassAttrText(TitleIconClass);
      ClassAttrText(h.escAttr(icon.value));
      OpenElEvents("div", ClassAttr(TitleIconClass), OpenEl("i", c) + CloseEl("i") + cd);
      ConcatAssoc(OpenEl("i", c), CloseEl("i"), cd);
      OpenElEvents("i", c, CloseEl("i") + cd);
      CloseElEvents("i", cd);
      CloseElAlone("div");
      Cons4(Open("div"), Open("i"), Close("i"), Close("div"));
    }
  }

  /** Reads `<name class="v">inner</name>` back into `v` and `inner`; nothing when
      `s` is not one such element. */
  function ReadClassElement(name: string, s: string): Option<(string, string)> {
    var head := OpenEl(name, " class=\"");
    var close := CloseEl(name);
    if |s| < |head| || s[..|head|] != head then None
    else
      var rest := s[|head|..];
      var q := QuoteAt(rest);
      if q + 2 + |close| <= |rest| && rest[q..q + 2] == "\">" && rest[|rest| - |close|..] == close
      then Some((rest[..q], rest[q + 2..|rest| - |close|]))
      else None
  }

  /** An element with a quote-free class reads back as its class and its content. */
  lemma ReadClassElementOf(name: string, v: string, inner: string)
    requires '"' !in v
    ensures ReadClassElement(name, OpenEl(name, ClassAttr(v)) + inner + CloseEl(name)) == Some((v, inner))
  {
    var head := OpenEl(name, " class=\"");
    var rest := v + ("\">" + (inner + CloseEl(name)));
    ClassElementText(name, v, inner);
    HeadThenRest(head, rest);
    ClassElementRest(v, inner, CloseEl(name));
  }

  lemma ClassElementText(name: string, v: string, inner: string)
    ensures OpenEl(name, ClassAttr(v)) + inner + CloseEl(name)
            == OpenEl(name, " class=\"") + (v + ("\">" + (inner + CloseEl(name))))
  {
    var c := " class=\"";
    var e := "\">";
    assert OpenEl(name, ClassAttr(v)) == "<" + name + (c + v + e);
    ConcatAssoc("<" + name, c + v, e);
    ConcatAssoc("<" + name, c, v);
    ConcatAssoc4(OpenEl(name, c), v, e, inner + CloseEl(name));
    ConcatAssoc(OpenEl(name, c) + v + e, inner, CloseEl(name));
  }

  lemma HeadThenRest<T>(head: seq<T>, rest: seq<T>)
    ensures |head + rest| >= |head|
    ensures (head + rest)[..|head|] == head && (head + rest)[|head|..] == rest
  {
  }

  /** After the class attribute's opening quote: the value, `">`, the content and
      the closing tag, each found where the reader looks for it. */
  lemma ClassElementRest(v: string, inner: string, close: string)
    requires '"' !in v
    ensures var rest := v + ("\">" + (inner + close));
            && QuoteAt(rest) == |v| && |v| + 2 + |close| <= |rest|
            && rest[|v|..|v| + 2] == "\">" && rest[|rest| - |close|..] == close
            && rest[..|v|] == v && rest[|v| + 2..|rest| - |close|] == inner
  {
    var tail := "\">" + (inner + close);
    var rest := v + tail;
    QuoteAtEnd(v, tail);
    assert rest[..|v|] == v && rest[|v|..] == tail;
    assert tail[..2] == "\">" && tail[2..] == inner + close;
    assert rest[|v|..|v| + 2] == tail[..2];
    SplitAfter(inner, close);
    assert rest[|v| + 2..] == inner + close;
    assert rest[|rest| - |close|..] == (inner + close)[|inner|..];
    assert rest[|v| + 2..|rest| - |close|] == (inner + close)[..|inner|];
  }

  lemma TitleIconClassUnquoted()
    ensures '"' !in TitleIconClass
  {
  }

  /** The icon's wrapper carries the single class `mdp-widgeter-elementor-title-icon`. */
  lemma TitleIconClassList()
    ensures ClassNames(TitleIconClass) == [TitleIconClass]
  {
    TitleIconClassPlain();
    ClassNamesWord(TitleIconClass);
  }

  /**
   * A shown icon reads back as one `div` of class `mdp-widgeter-elementor-title-icon`
   * around the icon: for the `svg` library exactly the host's rendering of the
   * uploaded file, otherwise an empty `i` element whose class is the escaped icon
   * value.
   */
  lemma TitleIconFragment(h: Host, icon: IconArg, enabled: bool)
    ensures icon.IconSpec? && enabled && icon.library == "svg"
            ==> ReadClassElement("div", TitleIcon(h, icon, enabled)) == Some((TitleIconClass, h.svgIcon(icon.value)))
    ensures icon.IconSpec? && enabled && icon.library != "svg" && '"' !in h.escAttr(icon.value)
            ==> && ReadClassElement("div", TitleIcon(h, icon, enabled)).Some?
                && ReadClassElement("div", TitleIcon(h, icon, enabled)).value.0 == TitleIconClass
                && ReadClassElement("i", ReadClassElement("div", TitleIcon(h, icon, enabled)).value.1)
                   == Some((h.escAttr(icon.value), ""))
  {
    if icon.IconSpec? && enabled {
      IconWrapper(h, icon.value, icon.library);
      if icon.library != "svg" && '"' !in h.escAttr(icon.value) {
        IconElement(h, icon.value);
      }
    }
  }

  lemma IconWrapper(h: Host, value: string, library: string)
    ensures ReadClassElement("div", TitleIcon(h, IconSpec(value, library), true))
            == Some((TitleIconClass, IconMarkup(h, value, library)))
  {
    var m := IconMarkup(h, value, library);
    TitleIconClassUnquoted();
    ReadClassElementOf("div", TitleIconClass, m);
    ConcatAssoc(OpenEl("div", ClassAttr(TitleIconClass)), m, CloseEl("div"));
  }

  lemma IconElement(h: Host, value: string)
    requires '"' !in h.escAttr(value)
    ensures ReadClassElement("i", IconMarkup(h, value, "")) == Some((h.escAttr(value), ""))
  {
    ReadClassElementOf("i", h.escAttr(value), "");
    assert OpenEl("i", ClassAttr(h.escAttr(value))) + "" == OpenEl("i", ClassAttr(h.escAttr(value)));
  }

  lemma Cons4<T>(a: T, b: T, c: T, d: T)
    ensures [a] + ([b] + ([c] + [d])) == [a, b, c, d]
  {
  }

  lemma Cons2<T>(a: T, b: T, s: seq<T>)
    ensures [a] + ([b] + s) == [a, b] + s
  {
  }

  /** `before_title` opens the title wrapper and the title element, followed by a
      closed icon `div` around an `i` when an icon class is shown. */
  lemma BeforeTitleTags(h: Host, widgetType: string, titleTag: string, iconEnabled: bool,
                        icon: IconArg, iconPosition: string)
    requires AttrSafe(h) && PlainTag(titleTag) && '<' !in widgetType
    requires icon.IconSpec? ==> icon.library != "svg"
    ensures TagEvents(BeforeTitle(h, widgetType, titleTag, iconEnabled, icon, iconPosition))
            == [Open("div"), Open(titleTag)]
               + (if icon.IconSpec? && iconEnabled then [Open("div"), Open("i"), Close("i"), Close("div")] else [])
  {
    var ca := ClassAttr(TitleClassValue(widgetType, h.escAttr(iconPosition)));
    var ti := TitleIcon(h, icon, iconEnabled);
    DivName();
    WrapperAttrsText();
    TitleValueNoTag(widgetType, h.escAttr(iconPosition));
    ClassAttrText(TitleClassValue(widgetType, h.escAttr(iconPosition)));
    OpenElEvents("div", WrapperAttrs, OpenEl(titleTag, ca) + ti);
    OpenElEvents(titleTag, ca, ti);
    IconTags(h, icon, iconEnabled);
    Cons2(Open("div"), Open(titleTag), TagEvents(ti));
  }

  /** `after_title` closes the title element and then the wrapper. */
  lemma AfterTitleTags(titleTag: string)
    requires PlainTag(titleTag)
    ensures TagEvents(CloseEl(titleTag) + CloseEl("div")) == [Close(titleTag), Close("div")]
  {
    DivName();
    CloseElEvents(titleTag, CloseEl("div"));
    CloseElAlone("div");
  }

  lemma NestedBalanced(a: string, b: string, inner: seq<TagEvent>)
    requires Balanced(inner)
    ensures Balanced([Open(a), Open(b)] + inner + [Close(b), Close(a)])
  {
    Wrapped(b, inner);
    Wrapped(a, [Open(b)] + inner + [Close(b)]);
    assert [Open(a)] + ([Open(b)] + inner + [Close(b)]) + [Close(a)]
        == [Open(a), Open(b)] + inner + [Close(b), Close(a)];
  }

  lemma IconBalanced(shown: bool)
    ensures Balanced(if shown then [Open("div"), Open("i"), Close("i"), Close("div")] else [])
  {
    BalancedEmpty();
    if shown {
      NestedBalanced("div", "i", []);
      assert [Open("div"), Open("i")] + [] + [Close("i"), Close("div")]
          == [Open("div"), Open("i"), Close("i"), Close("div")];
    }
  }

  /** The title wrapper strings close, innermost first, everything they open. */
  lemma TitleBalanced(h: Host, widgetType: string, titleTag: string, iconEnabled: bool,
                      icon: IconArg, iconPosition: string, alignClass: string, beforeWidget: string)
    requires AttrSafe(h) && PlainTag(titleTag) && '<' !in widgetType
    requires icon.IconSpec? ==> icon.library != "svg"
    ensures var r := WidgetDefaultArgs(h, widgetType, titleTag, iconEnabled, icon, iconPosition, alignClass, beforeWidget);
            Balanced(TagEvents(r.beforeTitle) + TagEvents(r.afterTitle))
  {
    BeforeTitleTags(h, widgetType, titleTag, iconEnabled, icon, iconPosition);
    AfterTitleTags(titleTag);
    IconBalanced(icon.IconSpec? && iconEnabled);
    NestedBalanced("div", titleTag, if icon.IconSpec? && iconEnabled then [Open("div"), Open("i"), Close("i"), Close("div")] else []);
  }

  /** The default outer box and `after_widget` are balanced together. */
  lemma BoxBalanced(h: Host, widgetType: string, titleTag: string, iconEnabled: bool,
                    icon: IconArg, iconPosition: string, alignClass: string)
    requires '<' !in widgetType && '<' !in alignClass
    ensures var r := WidgetDefaultArgs(h, widgetType, titleTag, iconEnabled, icon, iconPosition, alignClass);
            Balanced(TagEvents(r.beforeWidget) + TagEvents(r.afterWidget))
  {
    BoxTags(widgetType, alignClass, iconEnabled);
    CloseDivTags();
    BalancedEmpty();
    Wrapped("div", []);
    assert [Open("div")] + [] + [Close("div")] == [Open("div")] + [Close("div")];
  }
}
