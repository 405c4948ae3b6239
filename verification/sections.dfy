/**
 * A widget's `section_style_*` method as the generator calls it makes: the
 * margin/padding pair when the section has one, then the typography-and-tabs
 * block. The hand-written controls some sections place between the two are not
 * part of this model.
 */
module Sections {
  import opened Php
  import opened Controls
  import opened StyleOptions
  import opened Generators
  import opened GeneratorLemmas

  /** One style section: its id, the class of its margin/padding pair if it has
      one, and the options it passes to the tab generator. */
  datatype Call = Call(id: string, boxClass: Option<string>, opts: Opts)

  function Boxes(c: Call): seq<Control> {
    match c.boxClass
    case None => []
    case Some(cls) => MarginPadding(c.id, cls)
  }

  function SectionItems(c: Call): seq<Item> {
    Adds(Boxes(c)) + TypographyTabs(c.id, c.opts)
  }

  lemma AddsConcat(a: seq<Control>, b: seq<Control>)
    ensures Adds(a + b) == Adds(a) + Adds(b)
  {
  }

  lemma PrependBoxes(b: seq<Control>, l: Layout)
    ensures Adds(b) + LayoutItems(l) == LayoutItems(l.(before := b + l.before))
  {
    AddsConcat(b, l.before);
  }

  lemma TypographyShape(section: string, o: StyleOpts)
    ensures Typography(section, o) == if o.includeTypography then [ControlOf(section, o, TypographySlot)] else []
  {
    assert [TypographySlot][1..] == [];
  }

  lemma BlockLayout(id: string, b: seq<Control>, o: StyleOpts)
    ensures ReadLayout(Adds(b) + Emit(id, o)) == Some(Layout(b + Typography(id, o), id + "_style_tabs", Tabs(id, o), []))
  {
    var l := Layout(Typography(id, o), id + "_style_tabs", Tabs(id, o), []);
    EmitIsLayout(id, o);
    PrependBoxes(b, l);
    ReadLayoutItems(l.(before := b + l.before));
  }

  /** A section reads back as its margin/padding pair and typography control,
      then one tab group with NORMAL, HOVER and the focus tab exactly when the
      section asks for it. */
  lemma SectionLayout(c: Call)
    ensures ReadLayout(SectionItems(c)).Some?
    ensures var l := ReadLayout(SectionItems(c)).value;
            var o := Defaults(c.opts);
            && l.before == Boxes(c) + (if o.includeTypography then [ControlOf(c.id, o, TypographySlot)] else [])
            && l.tabsId == c.id + "_style_tabs"
            && l.tabs == Tabs(c.id, o)
            && l.after == []
  {
    BlockLayout(c.id, Boxes(c), Defaults(c.opts));
    TypographyShape(c.id, Defaults(c.opts));
  }

  /** A section that does not pass `include_bg` registers the same controls under
      the generator as written and the corrected one. */
  lemma SectionUnaffected(c: Call)
    requires IncludeBg !in c.opts
    ensures Adds(Boxes(c)) + TypographyTabsAsWritten(c.id, c.opts) == SectionItems(c)
  {
    TypographyTabsAgree(c.id, c.opts);
  }

  /** A section that passes no `additional_background` option registers pairwise
      distinct names in its tab block. */
  lemma SectionNamesDistinct(c: Call)
    requires AdditionalBackground !in c.opts
    ensures NoDup(Names(TypographyTabs(c.id, c.opts)))
  {
    assert !Defaults(c.opts).additionalBackground;
    NamesDistinct(c.id, Defaults(c.opts));
  }

  /** A section that passes none of `include_bg`, `additional_background` and
      `include_active_tab`. */
  predicate PlainSection(c: Call) {
    IncludeBg !in c.opts && AdditionalBackground !in c.opts && IncludeActiveTab !in c.opts
  }

  /** Such a section registers the same controls under the generator as written
      and the corrected one, with pairwise distinct names in its tab block, and
      exactly the NORMAL and HOVER tabs. */
  lemma PlainSectionWellFormed(c: Call)
    requires PlainSection(c)
    ensures Adds(Boxes(c)) + TypographyTabsAsWritten(c.id, c.opts) == SectionItems(c)
    ensures NoDup(Names(TypographyTabs(c.id, c.opts)))
    ensures ReadLayout(SectionItems(c)).Some?
    ensures |ReadLayout(SectionItems(c)).value.tabs| == 2
  {
    SectionUnaffected(c);
    SectionNamesDistinct(c);
    SectionLayout(c);
    assert !Defaults(c.opts).includeActiveTab;
  }

  /** A box section (`include_color` false, no extra colours): every tab it opens
      has a background group and no colour picker. */
  lemma BoxSectionTabs(c: Call, t: State)
    requires IncludeColor in c.opts && c.opts[IncludeColor] == B(false)
    requires IncludeBg !in c.opts && AdditionalColor !in c.opts && AdditionalBackground !in c.opts
    requires t != Active || Defaults(c.opts).includeActiveTab
    ensures HasKind(TabOf(c.id, Defaults(c.opts), t).controls, BackgroundGroup(BackgroundTypes))
    ensures !HasKind(TabOf(c.id, Defaults(c.opts), t).controls, ColorPicker)
  {
    var o := Defaults(c.opts);
    assert o.includeBg && !o.includeColor && !o.additionalColor && !o.additionalBackground;
    TabKinds(c.id, o, t);
  }
}
