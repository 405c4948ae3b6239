/**
 * Detection of stand-alone "<name>-elementor" plugins whose widget the plugin
 * already provides and has switched on, and the two admin messages (notice and
 * snackbar) that list them.
 */
module Duplicates {
  import opened Php
  import opened Wp

  /** The admin screens on which the detector runs. */
  const Screens: seq<string> := ["plugins", "toplevel_page_mdp_selection_lite_settings"]

  const Marker: string := "-elementor"

  /** The directory part of an active plugin's path (`explode('/', $path)[0]`). */
  function Slug(path: string): (slug: string)
    ensures slug <= path
    ensures '/' !in slug
    ensures '/' !in path ==> slug == path
  {
    ExplodeFirst("/", path);
    StrPosCharAbsent(path, '/');
    var parts := Explode("/", path);
    assert parts[0] in parts;
    StrPosCharAbsent(parts[0], '/');
    parts[0]
  }

  /** `strpos($slug, '-elementor')` is truthy: found, and not at position 0. */
  predicate Qualifies(slug: string) {
    match StrPos(slug, Marker)
    case None => false
    case Some(i) => i > 0
  }

  /** The settings key of a qualifying slug: the slug with every marker removed. */
  function SelectionSlug(slug: string): string {
    StrReplace(Marker, "", slug)
  }

  /** `isset($settings[$key]) && $settings[$key] === 'on'` */
  predicate Enabled(settings: map<string, string>, key: string) {
    key in settings && settings[key] == "on"
  }

  /** What one active plugin path contributes to the list. */
  function Contribution(path: string, settings: map<string, string>): (r: seq<string>)
    ensures |r| <= 1
    ensures r != [] <==> Qualifies(Slug(path)) && Enabled(settings, SelectionSlug(Slug(path)))
    ensures r != [] ==> r[0] == UcFirst(SelectionSlug(Slug(path)))
  {
    var slug := Slug(path);
    if Qualifies(slug) then
      var key := SelectionSlug(slug);
      if Enabled(settings, key) then [UcFirst(key)] else []
    else []
  }

  /** The names found for the active plugins, in the order of the active list. */
  function Found(active: seq<string>, settings: map<string, string>): (r: seq<string>)
    ensures |r| <= |active|
    decreases |active|
  {
    if active == [] then [] else Contribution(active[0], settings) + Found(active[1..], settings)
  }

  /**
   * active_merkulove_plugins: appends the names found to the list gathered so far
   * (`prior`, a static list that is never cleared), or leaves it unchanged when
   * there is no screen, the screen is not one of `Screens`, or either option is not
   * an array.
   */
  function ActiveMerkulovePlugins(prior: seq<string>, screen: Option<string>,
                                  active: Option<seq<string>>,
                                  settings: Option<map<string, string>>): (r: seq<string>)
    ensures prior <= r
    ensures screen.None? || screen.value !in Screens || active.None? || settings.None? ==> r == prior
    ensures screen.Some? && screen.value in Screens && active.Some? && settings.Some?
            ==> r[|prior|..] == Found(active.value, settings.value)
  {
    if screen.None? then prior
    else if screen.value !in Screens then prior
    else if active.None? then prior
    else if settings.None? then prior
    else prior + Found(active.value, settings.value)
  }

  // ---------------------------------------------------------------------------
  // Properties of the detector
  // ---------------------------------------------------------------------------

  /** A slug qualifies exactly when it contains the marker but does not start with it. */
  lemma QualifiesIff(slug: string)
    ensures Qualifies(slug) <==> (exists i :: OccursAt(slug, Marker, i)) && !(Marker <= slug)
  {
    PrefixOccurs(slug, Marker);
    match StrPos(slug, Marker)
    case None =>
    case Some(i) =>
      assert OccursAt(slug, Marker, i);
  }

  /** The list of one run is the lists of the two halves of the active list, concatenated. */
  lemma {:induction false} FoundConcat(a: seq<string>, b: seq<string>, settings: map<string, string>)
    ensures Found(a + b, settings) == Found(a, settings) + Found(b, settings)
    decreases |a|
  {
    if a == [] {
      assert a + b == b;
    } else {
      assert (a + b)[0] == a[0];
      assert (a + b)[1..] == a[1..] + b;
      FoundConcat(a[1..], b, settings);
    }
  }

  /** The plugin at `path` qualifies, has its widget switched on and upper-cases to `x`. */
  predicate Lists(path: string, settings: map<string, string>, x: string) {
    Qualifies(Slug(path)) && Enabled(settings, SelectionSlug(Slug(path)))
    && x == UcFirst(SelectionSlug(Slug(path)))
  }

  lemma ContributionLists(path: string, settings: map<string, string>, x: string)
    ensures x in Contribution(path, settings) <==> Lists(path, settings, x)
  {
  }

  /** A name is listed exactly when some active plugin qualifies, has its widget
      switched on, and upper-cases to that name. */
  lemma {:induction false} FoundMembers(active: seq<string>, settings: map<string, string>, x: string)
    ensures x in Found(active, settings) <==> exists k :: 0 <= k < |active| && Lists(active[k], settings, x)
    decreases |active|
  {
    if active != [] {
      FoundMembers(active[1..], settings, x);
      ContributionLists(active[0], settings, x);
      assert Found(active, settings) == Contribution(active[0], settings) + Found(active[1..], settings);
      if x in Found(active[1..], settings) {
        var k :| 0 <= k < |active[1..]| && Lists(active[1..][k], settings, x);
        assert active[k + 1] == active[1..][k];
      }
      if exists k :: 0 <= k < |active| && Lists(active[k], settings, x) {
        var k :| 0 <= k < |active| && Lists(active[k], settings, x);
        if k > 0 {
          assert active[1..][k - 1] == active[k];
        }
      }
    }
  }

  /** The static list only grows: a second run appends its names again. */
  lemma RunsAccumulate(screen: string, active: seq<string>, settings: map<string, string>)
    requires screen in Screens
    ensures var once := ActiveMerkulovePlugins([], Some(screen), Some(active), Some(settings));
            ActiveMerkulovePlugins(once, Some(screen), Some(active), Some(settings))
            == Found(active, settings) + Found(active, settings)
  {
  }

  /** The shape of the call in the plugin's own documentation: a plugin directory
      `foo-elementor` with the `foo` widget switched on is listed as `Foo`. */
  lemma FooExample()
    ensures Found(["foo-elementor/foo-elementor.php"], map["foo" := "on"]) == ["Foo"]
  {
    var path := "foo-elementor/foo-elementor.php";
    var settings := map["foo" := "on"];
    FoundSingle(path, settings);
    FooContribution();
  }

  lemma FoundSingle(path: string, settings: map<string, string>)
    ensures Found([path], settings) == Contribution(path, settings)
  {
    assert [path][1..] == [];
  }

  lemma FooContribution()
    ensures Contribution("foo-elementor/foo-elementor.php", map["foo" := "on"]) == ["Foo"]
  {
    FooSlug();
    FooKey();
    assert Enabled(map["foo" := "on"], "foo");
    FooUpper();
  }

  lemma FooUpper()
    ensures UcFirst("foo") == "Foo"
  {
    assert IsLowerAscii('f');
    assert UcFirst("foo") == [(('f' as int) - 32) as char] + "oo";
  }

  lemma FooSlug()
    ensures Slug("foo-elementor/foo-elementor.php") == "foo-elementor"
  {
    assert "foo-elementor/foo-elementor.php" == "foo-elementor" + "/" + "foo-elementor.php";
    SlugOf("foo-elementor", "foo-elementor.php");
  }

  lemma FooKey()
    ensures Qualifies("foo-elementor") && SelectionSlug("foo-elementor") == "foo"
  {
    var slug := "foo-elementor";
    assert slug == "foo" + Marker;
    assert "foo" + Marker + "" == slug;
    MarkerAfterStem("foo", "");
    MarkerRemoved("foo", "");
    assert StrReplace(Marker, "", "") == "";
  }

  /** A stem without the marker's first character, then the marker: the marker is
      first found right after the stem. */
  lemma MarkerAfterStem(stem: string, rest: string)
    requires '-' !in stem
    ensures StrPos(stem + Marker + rest, Marker) == Some(|stem|)
  {
    var s := stem + Marker + rest;
    assert s[|stem|..|stem| + |Marker|] == Marker;
    assert OccursAt(s, Marker, |stem|);
    var r := StrPos(s, Marker);
    OccursHead(s, Marker, r.value);
    assert r.value >= |stem|;
  }

  /** ... and removed. */
  lemma MarkerRemoved(stem: string, rest: string)
    requires '-' !in stem
    ensures StrReplace(Marker, "", stem + Marker + rest) == stem + StrReplace(Marker, "", rest)
  {
    MarkerAfterStem(stem, rest);
    StrRemoveAfter(Marker, stem, rest);
  }

  /** The slug of `dir + "/" + file` is `dir` when `dir` has no `/`. */
  lemma SlugOf(dir: string, file: string)
    requires '/' !in dir
    ensures Slug(dir + "/" + file) == dir
  {
    var path := dir + "/" + file;
    StrPosCharAbsent(dir, '/');
    assert path[|dir|..|dir| + 1] == "/";
    assert OccursAt(path, "/", |dir|);
    forall j | 0 <= j < |dir| ensures !OccursAt(path, "/", j) {
      assert path[j] == dir[j];
      if OccursAt(path, "/", j) {
        OccursHead(path, "/", j);
      }
    }
    assert StrPos(path, "/") == Some(|dir|);
    assert path[..|dir|] == dir;
  }

  /** A plugin directory that starts with the marker is never listed: `strpos`
      finds the marker at position 0, which is falsy. */
  lemma LeadingMarkerIgnored(rest: string, file: string, settings: map<string, string>)
    requires '/' !in rest
    ensures Contribution(Marker + rest + "/" + file, settings) == []
  {
    var dir := Marker + rest;
    assert '/' !in dir;
    SlugOf(dir, file);
    PrefixOccurs(dir, Marker);
    assert StrPos(dir, Marker) == Some(0);
  }

  // ---------------------------------------------------------------------------
  // The two messages
  // ---------------------------------------------------------------------------

  const Suffix: string := " for Elementor"
  const Glue: string := ", "

  /**
   * One entry of `preg_filter('/$/', ' for Elementor', …)`: the pattern has no
   * multiline flag, so `$` matches at the end and also just before a final line
   * break; both matches get the suffix.
   */
  function ForElementor(name: string): (r: string)
    ensures |r| >= |name| + |Suffix|
    ensures (|name| == 0 || name[|name| - 1] != '\n') ==> r == name + Suffix
  {
    if |name| > 0 && name[|name| - 1] == '\n' then name[..|name| - 1] + Suffix + "\n" + Suffix
    else name + Suffix
  }

  function Listed(dups: seq<string>): (r: seq<string>)
    ensures |r| == |dups|
  {
    seq(|dups|, i requires 0 <= i < |dups| => ForElementor(dups[i]))
  }

  /** The list as both messages print it. */
  function ListText(dups: seq<string>): string {
    Implode(Glue, Listed(dups))
  }

  /** The notice: the fixed lead and tail texts around the escaped list. */
  datatype Notice = Notice(lead: string, names: string, tail: string)

  datatype Button = Button(caption: string, link: string)

  /** The snackbar: message, kind, timeout (-1: stays), closable flag and buttons. */
  datatype Snackbar = Snackbar(message: string, kind: string, timeout: int, closable: bool,
                               buttons: seq<Button>)

  /** render_notice_duplicate: nothing when the list is empty. */
  function NoticeFor(h: Host, dups: seq<string>): (r: Option<Notice>)
    ensures r.None? <==> dups == []
  {
    if dups == [] then None
    else Some(Notice(h.translate(" already uses the functionality of these plugins: "),
                     h.escHtml(ListText(dups)),
                     h.translate(" You can safely deactivate these plugins.")))
  }

  /** render_snackbar_duplicate: nothing when the list is empty. */
  function SnackbarFor(h: Host, dups: seq<string>): (r: Option<Snackbar>)
    ensures r.None? <==> dups == []
    ensures r.Some? ==> r.value.kind == "warning" && r.value.timeout == -1 && r.value.closable
    ensures r.Some? ==> |r.value.buttons| == 1
  {
    if dups == [] then None
    else Some(Snackbar(h.translate("Selection already uses the functionality of these plugins: ") + ListText(dups),
                       "warning", -1, true,
                       [Button(h.translate("Plugins"), h.adminUrl("plugins.php"))]))
  }

  /** Both messages appear together and carry the same list: the notice escapes it,
      the snackbar appends it to its translated lead. */
  lemma MessagesAgree(h: Host, dups: seq<string>)
    ensures NoticeFor(h, dups).Some? <==> SnackbarFor(h, dups).Some?
    ensures dups != [] ==>
              NoticeFor(h, dups).value.names == h.escHtml(ListText(dups))
              && ListText(dups) <= SnackbarFor(h, dups).value.message[|h.translate("Selection already uses the functionality of these plugins: ")|..]
  {
  }

  /**
   * The list text can be read back: split on the glue and with the suffix removed
   * from each entry it gives the detected names, when no name contains a comma or
   * ends with a line break.
   */
  lemma ListTextRoundTrip(dups: seq<string>)
    requires dups != []
    requires forall k :: 0 <= k < |dups| ==> ',' !in dups[k] && (dups[k] == [] || dups[k][|dups[k]| - 1] != '\n')
    ensures |Explode(Glue, ListText(dups))| == |dups|
    ensures forall k :: 0 <= k < |dups| ==>
              var e := Explode(Glue, ListText(dups))[k];
              |e| >= |Suffix| && e[..|e| - |Suffix|] == dups[k] && e[|e| - |Suffix|..] == Suffix
  {
    ListTextSplits(dups);
    ListedEntries(dups);
  }

  lemma ListTextSplits(dups: seq<string>)
    requires dups != []
    requires forall k :: 0 <= k < |dups| ==> ',' !in dups[k] && (dups[k] == [] || dups[k][|dups[k]| - 1] != '\n')
    ensures Explode(Glue, ListText(dups)) == Listed(dups)
  {
    var parts := Listed(dups);
    ListedSeparated(dups);
    assert StrPos(parts[|parts| - 1], Glue).None?;
    ExplodeImplode(Glue, parts);
  }

  /** Each listed entry is its name followed by the suffix. */
  lemma ListedEntries(dups: seq<string>)
    requires forall k :: 0 <= k < |dups| ==> dups[k] == [] || dups[k][|dups[k]| - 1] != '\n'
    ensures forall k :: 0 <= k < |dups| ==>
              var e := Listed(dups)[k];
              |e| >= |Suffix| && e[..|e| - |Suffix|] == dups[k] && e[|e| - |Suffix|..] == Suffix
  {
    forall k | 0 <= k < |dups|
      ensures var e := Listed(dups)[k];
              |e| >= |Suffix| && e[..|e| - |Suffix|] == dups[k] && e[|e| - |Suffix|..] == Suffix
    {
      assert Listed(dups)[k] == dups[k] + Suffix;
      SplitAfter(dups[k], Suffix);
    }
  }

  lemma ListedSeparated(dups: seq<string>)
    requires dups != []
    requires forall k :: 0 <= k < |dups| ==> ',' !in dups[k] && (dups[k] == [] || dups[k][|dups[k]| - 1] != '\n')
    ensures forall k :: 0 <= k < |dups| ==> SeparatedBy(Listed(dups)[k], Glue) && StrPos(Listed(dups)[k], Glue).None?
  {
    var parts := Listed(dups);
    forall k | 0 <= k < |dups|
      ensures SeparatedBy(parts[k], Glue) && StrPos(parts[k], Glue).None?
    {
      assert parts[k] == dups[k] + Suffix;
      assert ',' !in Suffix;
      SeparatedByFresh(parts[k], Glue);
    }
  }

  /** The line-break case: a name ending in a line break is suffixed twice. */
  lemma TrailingBreakSuffixedTwice(stem: string)
    ensures ForElementor(stem + "\n") == stem + Suffix + "\n" + Suffix
  {
    var n := stem + "\n";
    assert n[..|n| - 1] == stem;
  }
}
