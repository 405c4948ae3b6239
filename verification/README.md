# Selection Lite: a Dafny model of its widget core

Selection Lite is a WordPress plugin that adds three page-builder (Elementor)
widgets: an RSS feed, a navigation menu and a search box. Each one wraps one of
WordPress's classic widgets. This project models the plugin's core and proves
properties of the model:

- **The wrapper builder.** `widgeter_get_widget_default_args` builds the four
  `before_widget` / `after_widget` / `before_title` / `after_title` strings, with
  the optional title-icon fragment (`default_args.dfy`). Two small readers,
  class names of a class attribute and the open/close tag sequence of a fragment
  (`markup.dfy`), let the contracts say what the strings mean: which classes the
  box carries, and that the markup is balanced.
- **The duplicate-plugin detector.** It lists stand-alone `<name>-elementor`
  plugins whose widget Selection already provides and has switched on. It also
  builds the admin notice and the snackbar that report them (`duplicates.dfy`).
- **The breadcrumb decision tree** of `get_data_breadcrumbs` (`breadcrumbs.dfy`).
  It is written once as the sequence of array assignments the source performs.
  It is written a second time as an entry-by-entry listing per kind of view, and
  a lemma proves the two equal.
- **The two style-control generators** that every widget file carries a copy of:
  - `generate_margin_padding_controls`, in `generators.dfy`;
  - `generate_typography_tabs_controls`, in `style_options.dfy` for the option
    defaulting and in `generators.dfy` for the controls.

  Their output is read back into a tab layout by a parser (`controls.dfy`), and
  the layout, control names, kinds and selectors are proved in
  `generator_lemmas.dfy`.
- **Each widget's `section_style_*` methods** (`sections.dfy`), as instances of
  the generators. The constants of every call are copied into
  `rss_widget.dfy`, `menu_widget.dfy` and `search_widget.dfy`.
- **Each widget's `render`.** This covers:
  - the title-tag allow-list with its `h5` fallback;
  - the stripping of seven characters from the RSS and search titles;
  - the instance array handed to the classic widget;
  - the menu widget's own outer box;
  - the menu picker of the menu widget's content tab.

  The shared parts are in `widget_render.dfy`.

The host's functions are uninterpreted function values of a `Host` record
(`wp.dfy`): `esc_attr`, `esc_html`, `esc_url`, `esc_html__`, `admin_url` and the
SVG icon renderer. Two host assumptions are stated as predicates and are only
required where a lemma needs them:
- `AttrSafe`: attribute escaping leaves no `<` and no `"`;
- `KeepsValidTags`: attribute escaping leaves the allowed tag names unchanged.

What the host reports about a request is passed in as a record, as are the
plugin options and the active-plugin list.

PHP semantics the model writes out:
- truthiness of strings (`""` and `"0"` are falsy);
- arrays as ordered key/value lists, where assigning a new key appends;
- `strpos`, whose position 0 is falsy;
- `explode`, `implode`, `str_replace` and `ucfirst`.

The duplicate detector `ucfirst`s the names it collects, so `foo-elementor` is
listed as `Foo` (Caster.php:320-331).

The menu and search widget files hold copies of both generators that are
identical to the RSS file's copy (menu.elementor.php:471-932,
search.elementor.php:378-839). The table cites the RSS copy.

## Model

| member | source | states |
|---|---|---|
| DefaultArgs.TitleIcon | src/Merkulove/SelectionLite/Caster.php:154-156 | The icon fragment is empty exactly when there is no icon or it is disabled. |
| DefaultArgs.WidgetDefaultArgs | src/Merkulove/SelectionLite/Caster.php:260-289 | `after_widget` is `</div>`; `after_title` closes the given tag and the wrapper; a truthy `before_widget` argument replaces the default box and nothing else, a falsy one leaves the default box. |
| DefaultArgs.BoxClasses | src/Merkulove/SelectionLite/Caster.php:261-266 | The default box's classes are, in order, the generic box class, the per-type box class, the alignment classes, and the icon-disabling class only for an RSS widget with its title icon on. |
| DefaultArgs.DisableClassIff | src/Merkulove/SelectionLite/Caster.php:261 | The icon-disabling class is on the box if and only if the widget is the RSS feed and its title icon is on, when the alignment value does not carry that class itself. |
| DefaultArgs.TitleClasses | src/Merkulove/SelectionLite/Caster.php:268-277 | The title element's classes are the generic title class, the per-type title class and the icon-position class. |
| DefaultArgs.BoxTags | src/Merkulove/SelectionLite/Caster.php:264-267 | The default box opens exactly one `div` when the type and alignment hold no `<`. |
| DefaultArgs.IconTags | src/Merkulove/SelectionLite/Caster.php:152-166 | An icon given by class yields an `i` inside a `div`, both closed; a disabled or missing icon yields no tags. |
| DefaultArgs.ReadClassElementOf | src/Merkulove/SelectionLite/Caster.php:160-163 | An element `<name class="v">inner</name>` with a quote-free class reads back, through an independent reader, as exactly `v` and `inner`. |
| DefaultArgs.TitleIconClassList | src/Merkulove/SelectionLite/Caster.php:163 | The icon wrapper's class attribute holds the single class `mdp-widgeter-elementor-title-icon`. |
| DefaultArgs.TitleIconFragment | src/Merkulove/SelectionLite/Caster.php:158-165 | A shown icon reads back as one `div` of the title-icon class around the icon: for the `svg` library exactly the host's rendering of the uploaded file, otherwise an empty `i` element whose class is the escaped icon value (when that holds no `"`). |
| DefaultArgs.TitleBalanced | src/Merkulove/SelectionLite/Caster.php:268-281 | `before_title` followed by `after_title` is balanced for a plain tag name and attribute-safe escaping. |
| DefaultArgs.BoxBalanced | src/Merkulove/SelectionLite/Caster.php:264-268 | The default box followed by `after_widget` is balanced. |
| Duplicates.Slug | src/Merkulove/SelectionLite/Caster.php:320 | The directory part of a plugin path is a prefix of it with no `/`, and is the whole path when it has none. |
| Duplicates.Contribution | src/Merkulove/SelectionLite/Caster.php:320-331 | An active plugin adds at most one name: if and only if its slug has the marker after position 0 and the setting under the marker-free slug is `on`, and then the ucfirsted marker-free slug. |
| Duplicates.ActiveMerkulovePlugins | src/Merkulove/SelectionLite/Caster.php:294-337 | The stored list only grows. It is unchanged without a screen, off the two screens or when an option is not an array; otherwise the names found are appended. |
| Duplicates.QualifiesIff | src/Merkulove/SelectionLite/Caster.php:323 | A slug qualifies exactly when the marker occurs in it and the slug does not start with it. |
| Duplicates.FoundConcat | src/Merkulove/SelectionLite/Caster.php:318-335 | Scanning two halves of the active list gives the two lists concatenated. |
| Duplicates.FoundMembers | src/Merkulove/SelectionLite/Caster.php:318-335 | A name is listed if and only if some active plugin qualifies, has its setting on and yields that name. |
| Duplicates.RunsAccumulate | src/Merkulove/SelectionLite/Caster.php:329 | A second run on the same data lists every name twice, since the static list is never cleared. |
| Duplicates.FooExample | src/Merkulove/SelectionLite/Caster.php:318-335 | Example (one input): `foo-elementor/foo-elementor.php` with `foo` switched on lists `Foo`. |
| Duplicates.LeadingMarkerIgnored | src/Merkulove/SelectionLite/Caster.php:323 | A slug starting with the marker is never listed, because position 0 is falsy. |
| Duplicates.ForElementor | src/Merkulove/SelectionLite/Caster.php:348 | Each name gets ` for Elementor` appended when it does not end in a line break. |
| Duplicates.NoticeFor | src/Merkulove/SelectionLite/Caster.php:342-360 | No notice exactly when the list is empty. |
| Duplicates.SnackbarFor | src/Merkulove/SelectionLite/Caster.php:364-386 | No snackbar exactly when the list is empty; otherwise a closable warning that stays, with one button. |
| Duplicates.MessagesAgree | src/Merkulove/SelectionLite/Caster.php:342-386 | Notice and snackbar appear together and carry the same list text. |
| Duplicates.ListTextRoundTrip | src/Merkulove/SelectionLite/Caster.php:348-353 | Splitting the list text on `, ` and removing the suffix gives back the names, when no name has a comma or a final line break. |
| Duplicates.TrailingBreakSuffixedTwice | src/Merkulove/SelectionLite/Caster.php:348 | A name ending in a line break gets the suffix both before and after the break. |
| Breadcrumbs.ElementEntry | src/Merkulove/SelectionLite/Caster.php:499-509 | A category-parent entry is inactive; it has markup exactly when the piece at its index survived the filter, and then holds that piece. |
| Breadcrumbs.GetDataBreadcrumbsIsReference | src/Merkulove/SelectionLite/Caster.php:448-692 | The assignments of the decision tree produce exactly the entry-by-entry listing of each kind of view. |
| Breadcrumbs.ActiveIsCurrentView | src/Merkulove/SelectionLite/Caster.php:448-692 | The active entries are exactly the entry of the current view, so at most one entry is active. |
| Breadcrumbs.HomeFirst | src/Merkulove/SelectionLite/Caster.php:472-495 | Off the front page, outside the shop pages, the trail starts with the inactive home entry. |
| Breadcrumbs.FrontPageTrail | src/Merkulove/SelectionLite/Caster.php:459-471 | On the front page the trail is empty on page 1 and otherwise the single active home entry. |
| Breadcrumbs.PageParentAndChild | src/Merkulove/SelectionLite/Caster.php:522-568 | On a page the parent entry holds the last ancestor of the walk and the child entry the last child, each absent when there is none; the page entry is active. |
| Breadcrumbs.PostElements | src/Merkulove/SelectionLite/Caster.php:496-521 | A categorised post's trail is home, then as many entries as there are non-empty category pieces, numbered from 0, each looking up the piece at its own number, then the active post entry. |
| Breadcrumbs.KeysDistinct | src/Merkulove/SelectionLite/Caster.php:448-692 | No trail holds a key twice. |
| Breadcrumbs.ElementsHoldPieces | src/Merkulove/SelectionLite/Caster.php:498-509 | When every piece but possibly the last is non-empty, every element entry holds the piece at its number. |
| Breadcrumbs.ElementsSkipAfterGap | src/Merkulove/SelectionLite/Caster.php:498-509 | Example (one input): with an empty piece in the middle, the loop reads the hole and never reaches the last piece. |
| StyleOptions.EmptyTakesDefaults | src/Merkulove/SelectionLite/Elementor/widgets/Selection/rss.elementor.php:499-556 | With no options every option takes its listed default, under both defaultings. |
| StyleOptions.DefaultsEncode | src/Merkulove/SelectionLite/Elementor/widgets/Selection/rss.elementor.php:499-556 | Passing every option explicitly gives back exactly those options under the corrected defaulting. |
| StyleOptions.AsWrittenAgreesWithoutKey | src/Merkulove/SelectionLite/Elementor/widgets/Selection/rss.elementor.php:509-510 | The as-written defaulting differs from the corrected one only in `include_bg`, and not at all when that key is absent. |
| StyleOptions.IncludeBgIgnored | src/Merkulove/SelectionLite/Elementor/widgets/Selection/rss.elementor.php:509-510 | As written, `include_bg` true without `include_color` gives no background, and `include_bg` false with `include_color` true gives one; the corrected defaulting does the opposite. |
| StyleOptions.AsWrittenEncode | src/Merkulove/SelectionLite/Elementor/widgets/Selection/rss.elementor.php:509-510 | As written, passing every option gives them back except that `include_bg` takes the value of `include_color`. |
| Generators.MarginPadding | src/Merkulove/SelectionLite/Elementor/widgets/Selection/rss.elementor.php:458-487 | Exactly two responsive dimension controls, margin then padding, on desktop, tablet and mobile, each on `{{WRAPPER}} .` plus the class, with the given defaults. |
| Generators.Filter | src/Merkulove/SelectionLite/Elementor/widgets/Selection/rss.elementor.php:572-909 | A control is registered exactly when its slot is enabled by the options. |
| GeneratorLemmas.EmitLayout | src/Merkulove/SelectionLite/Elementor/widgets/Selection/rss.elementor.php:558-909 | The output reads back as the typography control when included, then one tab group `SECTION_style_tabs` holding NORMAL, HOVER and, exactly when `include_active_tab`, the focus tab, with nothing after it. |
| GeneratorLemmas.TabFrame | src/Merkulove/SelectionLite/Elementor/widgets/Selection/rss.elementor.php:638-679 | Every opened tab has a divider and ends with a responsive radius control named `SECTION_border_radius_STATE` and a box shadow on the tab's selector. |
| GeneratorLemmas.TransitionOnlyInHover | src/Merkulove/SelectionLite/Elementor/widgets/Selection/rss.elementor.php:746-770 | A tab has a slider if and only if it is HOVER and `include_transition` holds; that slider is `SECTION_hover_transition` with default size 0 in `s`. |
| GeneratorLemmas.FocusTabClean | src/Merkulove/SelectionLite/Elementor/widgets/Selection/rss.elementor.php:816-905 | The focus tab has no transition and no additional-background rule. |
| GeneratorLemmas.FocusTargets | src/Merkulove/SelectionLite/Elementor/widgets/Selection/rss.elementor.php:816-905 | Without an extra colour and with the colour class equal to the active class, every focus-tab control targets only `{{WRAPPER}} .` plus the active class, and every one but the divider has a target. |
| GeneratorLemmas.TabKinds | src/Merkulove/SelectionLite/Elementor/widgets/Selection/rss.elementor.php:572-905 | A tab has a background group if and only if `include_bg`; a border group if and only if `include_border`; a colour picker if and only if a colour, an extra colour or (outside the focus tab) an extra background is asked for. |
| GeneratorLemmas.TypographyTabsAgree | src/Merkulove/SelectionLite/Elementor/widgets/Selection/rss.elementor.php:509-510 | Without the `include_bg` key the as-written and the corrected generator register the same controls. |
| GeneratorLemmas.AsWrittenDropsBackground | src/Merkulove/SelectionLite/Elementor/widgets/Selection/rss.elementor.php:509-510 | With only `include_bg` true, the as-written NORMAL tab has no background group while the corrected one has. |
| GeneratorLemmas.EmitNames | src/Merkulove/SelectionLite/Elementor/widgets/Selection/rss.elementor.php:558-909 | The registered names are the section id followed by each enabled slot's suffix, in slot order. |
| GeneratorLemmas.NamesStartWithSection | src/Merkulove/SelectionLite/Elementor/widgets/Selection/rss.elementor.php:558-909 | Every registered control name starts with the section id. |
| GeneratorLemmas.SuffixInjective | src/Merkulove/SelectionLite/Elementor/widgets/Selection/rss.elementor.php:572-905 | Two slots share a name suffix only when they are the same slot, or when the extra colour and the extra background are both on under the same name. |
| GeneratorLemmas.NamesDistinct | src/Merkulove/SelectionLite/Elementor/widgets/Selection/rss.elementor.php:558-909 | The registered names are pairwise distinct if and only if there is no extra-colour/extra-background name collision. |
| Controls.ReadLayoutItems | src/Merkulove/SelectionLite/Elementor/widgets/Selection/rss.elementor.php:570-909 | Reading the registrations of a tab layout gives the layout back. |
| Sections.SectionLayout | src/Merkulove/SelectionLite/Elementor/widgets/Selection/rss.elementor.php:920-1275 | A style section reads back as its margin/padding pair when it has a box class (none otherwise: the RSS item title and item author sections register a hand-written padding control there instead, which is left out), then its typography control, then one tab group with the tabs the generator makes. |
| Sections.SectionUnaffected | src/Merkulove/SelectionLite/Elementor/widgets/Selection/rss.elementor.php:509-510 | A section not passing `include_bg` registers the same controls under both generators. |
| Sections.SectionNamesDistinct | src/Merkulove/SelectionLite/Elementor/widgets/Selection/rss.elementor.php:558-909 | A section not passing `additional_background` registers distinct names. |
| Sections.BoxSectionTabs | src/Merkulove/SelectionLite/Elementor/widgets/Selection/rss.elementor.php:1091-1095 | A section with `include_color` false still has a background group and no colour picker in every tab it opens. |
| WidgetRender.TitleTag | src/Merkulove/SelectionLite/Elementor/widgets/Selection/rss.elementor.php:1288-1289 | The chosen tag is always allowed; it is the setting exactly when the setting is allowed, and `h5` otherwise. |
| WidgetRender.TitleTagIdempotent | src/Merkulove/SelectionLite/Elementor/widgets/Selection/rss.elementor.php:1288-1289 | Choosing the tag again changes nothing. |
| WidgetRender.TitleWrapBalanced | src/Merkulove/SelectionLite/Caster.php:268-281 | Built from the escaped chosen tag, the title strings balance and close with that tag. |
| WidgetRender.Keep | src/Merkulove/SelectionLite/Elementor/widgets/Selection/rss.elementor.php:1300 | The reference filter: no listed character remains, every other character is kept. |
| WidgetRender.ReplaceAllIsKeep | src/Merkulove/SelectionLite/Elementor/widgets/Selection/rss.elementor.php:1300 | Replacing each character in turn by nothing is the reference filter. |
| WidgetRender.StripTitleSpec | src/Merkulove/SelectionLite/Elementor/widgets/Selection/search.elementor.php:1100 | Title stripping equals the reference filter: none of the seven characters survives, all others stay in order, and a second pass changes nothing. |
| RssWidget.StyleSectionsWellFormed | src/Merkulove/SelectionLite/Elementor/widgets/Selection/rss.elementor.php:920-1275 | Each of the seven RSS sections is unaffected by the `include_bg` slip, has distinct names and has exactly two tabs. |
| RssWidget.ListSectionsAreBoxes | src/Merkulove/SelectionLite/Elementor/widgets/Selection/rss.elementor.php:1021-1129 | The items block and item box sections have a background and no colour picker in NORMAL and HOVER. |
| RssWidget.Instance | src/Merkulove/SelectionLite/Elementor/widgets/Selection/rss.elementor.php:1303-1310 | The instance has the six keys title, url, items, show_summary, show_author and show_date, each once. |
| RssWidget.RenderTitle | src/Merkulove/SelectionLite/Elementor/widgets/Selection/rss.elementor.php:1300-1304 | The title reaches the widget escaped after stripping, with no stripped character in it. |
| RssWidget.RenderItems | src/Merkulove/SelectionLite/Elementor/widgets/Selection/rss.elementor.php:1301-1306 | The item count is the slider's size when present and `0` otherwise. |
| RssWidget.RenderFlags | src/Merkulove/SelectionLite/Elementor/widgets/Selection/rss.elementor.php:1307-1309 | Each display flag is true if and only if its switcher is exactly `yes`. |
| RssWidget.RenderBox | src/Merkulove/SelectionLite/Elementor/widgets/Selection/rss.elementor.php:1291-1298 | The outer box is the default box with the list-alignment class. |
| RssWidget.BoxHidesFeedIcon | src/Merkulove/SelectionLite/Elementor/widgets/Selection/rss.elementor.php:1291-1298 | The RSS box hides the feed icon if and only if the title icon switcher is `yes`. |
| RssWidget.TitleBalancedInRender | src/Merkulove/SelectionLite/Elementor/widgets/Selection/rss.elementor.php:1288-1298 | The title strings balance and close with an allowed tag. |
| RssWidget.BoxBalancedInRender | src/Merkulove/SelectionLite/Elementor/widgets/Selection/rss.elementor.php:1291-1298 | The outer box and `after_widget` balance. |
| MenuWidget.MenuChoice | src/Merkulove/SelectionLite/Elementor/widgets/Selection/menu.elementor.php:427-452 | A `navigation_menu` picker over the menus exactly when there are menus, otherwise the `navigation_menu_link` notice, never both. |
| MenuWidget.MenuChoiceDefault | src/Merkulove/SelectionLite/Elementor/widgets/Selection/menu.elementor.php:429-439 | The two control names exclude each other, and the picker starts on the first listed menu's id. |
| MenuWidget.NoticeLinks | src/Merkulove/SelectionLite/Elementor/widgets/Selection/menu.elementor.php:441-449 | With no `<` in the translated sentence or the admin address, the notice opens and closes a `strong`, then a `br`, then one link; with no `"` in the address either, that link's only address is the admin address of the menus screen. |
| MenuWidget.StyleSectionsWellFormed | src/Merkulove/SelectionLite/Elementor/widgets/Selection/menu.elementor.php:933-1144 | Each of the five menu sections is unaffected by the `include_bg` slip, has distinct names, a margin/padding pair and exactly two tabs. |
| MenuWidget.ListSectionsAreBoxes | src/Merkulove/SelectionLite/Elementor/widgets/Selection/menu.elementor.php:1041-1081 | The menu and submenu sections turn colour off yet have a background in NORMAL and HOVER. |
| MenuWidget.RenderInstance | src/Merkulove/SelectionLite/Elementor/widgets/Selection/menu.elementor.php:1185-1191 | The instance has the escaped title, and `nav_menu` if and only if a menu is chosen (not `""` or `"0"`), holding the escaped choice. |
| MenuWidget.RenderArgs | src/Merkulove/SelectionLite/Elementor/widgets/Selection/menu.elementor.php:1164-1183 | The menu's own box replaces the default one; the other three strings equal the builder's without override. |
| MenuWidget.MenuBoxClasses | src/Merkulove/SelectionLite/Elementor/widgets/Selection/menu.elementor.php:1164-1173 | The menu box's classes are the generic box class, the menu box class, then the orientation and alignment classes. |
| MenuWidget.MenuBoxFourClasses | src/Merkulove/SelectionLite/Elementor/widgets/Selection/menu.elementor.php:1164-1173 | With single-word settings the box has exactly four classes. |
| MenuWidget.MenuBoxTags | src/Merkulove/SelectionLite/Elementor/widgets/Selection/menu.elementor.php:1164-1173 | The menu box opens exactly one `div`. |
| MenuWidget.MenuBoxBalanced | src/Merkulove/SelectionLite/Elementor/widgets/Selection/menu.elementor.php:1164-1191 | The menu box and `after_widget` balance. |
| MenuWidget.TitleBalancedInRender | src/Merkulove/SelectionLite/Elementor/widgets/Selection/menu.elementor.php:1161-1183 | The title strings balance and close with an allowed tag. |
| SearchWidget.StyleSectionsWellFormed | src/Merkulove/SelectionLite/Elementor/widgets/Selection/search.elementor.php:840-1071 | Each search section is unaffected by the `include_bg` slip and has distinct names; the field section alone has three tabs, the others two. |
| SearchWidget.FocusTab | src/Merkulove/SelectionLite/Elementor/widgets/Selection/search.elementor.php:1008-1016 | The field's focus tab targets only `{{WRAPPER}} .search-field:focus`; it has a colour, background, border, radius and shadow control, and no transition. |
| SearchWidget.RenderTitle | src/Merkulove/SelectionLite/Elementor/widgets/Selection/search.elementor.php:1100-1103 | The title reaches the widget escaped after stripping, with no stripped character in it. |
| SearchWidget.RenderBox | src/Merkulove/SelectionLite/Elementor/widgets/Selection/search.elementor.php:1092-1098 | The outer box is the default box with no alignment class. |
| SearchWidget.BoxClassList | src/Merkulove/SelectionLite/Elementor/widgets/Selection/search.elementor.php:1092-1098 | The search box never carries the icon-disabling class, whatever the icon switch. |
| SearchWidget.TitleBalancedInRender | src/Merkulove/SelectionLite/Elementor/widgets/Selection/search.elementor.php:1088-1098 | The title strings balance and close with an allowed tag. |
| SearchWidget.BoxBalancedInRender | src/Merkulove/SelectionLite/Elementor/widgets/Selection/search.elementor.php:1092-1098 | The outer box and `after_widget` balance. |

## Left out

- Hook wiring, the custom CSS file write, script and style enqueueing, the admin
  body class and the widget category registration: WordPress plumbing with no
  logic to prove.
- The host's query functions (`is_front_page`, `get_post_type`, `get_option`,
  `get_category_parents`, the parent walk, the child query and the rest): their
  results are fields of `Breadcrumbs.Query` and arguments of the detector. The
  parent walk is taken as a finite list of ancestors.
- `get_menus` / `wp_get_nav_menus`: the menu list is an input of
  `MenuWidget.MenuChoice`, so distinct term ids are not assumed or checked.
- Escaping, translation, `admin_url` and the SVG icon renderer are uninterpreted
  host functions. `wp_kses_post` on the fixed notice link template is taken to
  return it unchanged, because the template uses only an `a` element with `href`
  and `target`. The menu picker's text domain differs from the plugin's and is not
  modelled.
- MenuWidget.NoticeLinks: states the notice's tags only when the translated
  sentence and the admin address hold no `<`, and its link address only when the
  address also holds no `"`, because translation and `admin_url` are
  uninterpreted here.
- DefaultArgs.TitleIconFragment: reads the `i` element's class back only when
  the escaped icon value holds no `"` (which attribute escaping guarantees); the
  SVG renderer's output is not read further.
- Duplicates.NoticeFor: the notice is modelled as its three text parts (the
  translated lead, the escaped list, the translated tail) without the fixed
  markup echoed around them at Caster.php:350-356: the dismissible warning `div`,
  its `p`, `<strong>Selection</strong>`, the `strong` around the list and the
  `.` after it (Caster.php:353).
- RssWidget.Render and SearchWidget.Render take the title icon argument as given
  to the builder. The source passes `esc_attr` of the icon setting array, and
  nothing is proved about the icon at those call sites.
- The page builder's template substitution (`{{WRAPPER}}`, `{{VALUE}}` and the
  rest) and the classic widgets' own output (`the_widget`): the model stops at the
  arguments passed to them.
- Metadata getters (`get_name`, `get_title`, `get_icon`, `get_categories`,
  documentation links) and the hand-written content and style controls that some
  sections register between the margin/padding pair and the tab block (widths,
  list style, icon size and margin).
- RssWidget.ItemAuthorSection and RssWidget.ItemTitleSection: each of these two
  sections registers, in place of the margin/padding pair and before its
  typography control, one hand-written responsive padding control
  (`section_style_rss_feed_item_author_padding` on `{{WRAPPER}} cite`,
  rss.elementor.php:1149-1161, and `section_style_rss_feed_item_title_padding`
  on `{{WRAPPER}} .rsswidget`, rss.elementor.php:1190-1202). The model gives
  them no box class and leaves that control out, so Sections.SectionLayout reads
  them back with nothing before the typography control.
- Section headers (`start_controls_section`: label, tab and condition) are not
  modelled, including the item author section's condition that shows it only
  when `display_item_author` is `yes` (rss.elementor.php:1144-1146).
- Settings are strings. So the loose `in_array` of the RSS and search title tags
  and the strict one of the menu agree, because no allowed tag is numeric.
- Title stripping works on characters (code points), while `str_replace` works on
  the UTF-8 bytes. The two agree because each stripped character is replaced whole.
- The generator options are an enumeration of the keys the generator reads. Any
  other key is ignored by the source and cannot be written here. Controls and
  breadcrumb entries are records, so the order of keys inside a control's or an
  entry's PHP array is not kept (the source puts `is_active` before or after
  `link` depending on the branch, as at Caster.php:543-551).
- The transition slider's range 0.1 to 5 in steps of 0.1 is stored in tenths.
- Template kits (TemplateKitStyles.php), the custom CSS tab (TabCustomCSS.php) and
  the admin script (js/admin.js) are not part of this model.

## Findings

| source | as written | input that shows it | evidently intended | confidence | as-written member | corrected member |
|---|---|---|---|---|---|---|
| src/Merkulove/SelectionLite/Elementor/widgets/Selection/rss.elementor.php:509-510 (same lines in menu.elementor.php:522-523 and search.elementor.php:429-430) | `include_bg` is read from `$opts['include_color']` when the `include_bg` key is present, which is null when `include_color` is absent | options `['include_bg' => true]`: no background controls are registered | `include_bg` read from `$opts['include_bg']`, defaulting to true | not executed | StyleOptions.DefaultsAsWritten, shown by StyleOptions.IncludeBgIgnored and GeneratorLemmas.AsWrittenDropsBackground | StyleOptions.Defaults with StyleOptions.DefaultsEncode, used by Generators.TypographyTabs; no call site passes `include_bg`, so both agree there (Sections.SectionUnaffected) |
