/**
 * Control declarations as a widget registers them with the page builder, and a
 * reader that recovers the tab layout from the flat sequence of registrations.
 * Selector and value templates are kept as the literal text the page builder
 * substitutes later; that substitution is not part of this model.
 */
module Controls {
  import opened Php

  /** A control label: none, a translated literal (`esc_html__`) or an escaped
      computed string (`esc_html`). */
  datatype Label = NoLabel | Translated(text: string) | Escaped(text: string)

  /** The CSS value templates the generators attach to selectors. */
  datatype Rule =
    | MarginRule | PaddingRule | ColorRule | BackgroundRule | RadiusRule
    | TransitionRule | TransitionRuleTwice

  const Box: string := "{{TOP}}{{UNIT}} {{RIGHT}}{{UNIT}} {{BOTTOM}}{{UNIT}} {{LEFT}}{{UNIT}}"
  const Transitions: string :=
    "transition: color {{SIZE}}{{UNIT}}, background {{SIZE}}{{UNIT}}, box-shadow {{SIZE}}{{UNIT}}, "
    + "border-radius {{SIZE}}{{UNIT}}, border {{SIZE}}{{UNIT}}, filter {{SIZE}}{{UNIT}}, stroke {{SIZE}}{{UNIT}};"

  /** The template text of each rule; the second transition selector carries a
      doubled `;`. */
  function RuleText(r: Rule): string {
    match r
    case MarginRule => "margin: " + Box + " !important;"
    case PaddingRule => "padding: " + Box + " !important;"
    case ColorRule => "color: {{VALUE}} !important;"
    case BackgroundRule => "background: {{VALUE}} !important;"
    case RadiusRule => "border-radius: " + Box + ";"
    case TransitionRule => Transitions
    case TransitionRuleTwice => Transitions + ";"
  }

  /** The kind of a control; group controls carry a single selector, the others a
      selector-to-template list. */
  datatype Kind =
    | TypographyGroup
    | BackgroundGroup(types: seq<string>)
    | BorderGroup
    | BoxShadowGroup
    | ColorPicker
    | Divider
    | Dimensions(units: seq<string>)
    /** A slider over tenths of its unit, so that 0.1 .. 5 step 0.1 is 1 .. 50 step 1. */
    | Slider(units: seq<string>, minTenths: nat, maxTenths: nat, stepTenths: nat)

  datatype Target = NoTarget | Selector(selector: string) | Selectors(rules: Assoc<Rule>)

  datatype Default = NoDefault | Dims(value: Assoc<string>) | Size(unit: string, size: int)

  datatype Control = Control(
    name: string,
    kind: Kind,
    caption: Label,
    responsive: bool,
    devices: seq<string>,
    separator: string,
    default: Default,
    target: Target
  )

  /** One registration call, in the order the widget makes it. */
  datatype Item =
    | Add(control: Control)
    | StartTabs(id: string)
    | StartTab(id: string, caption: Label)
    | EndTab
    | EndTabs

  function Adds(cs: seq<Control>): (r: seq<Item>)
    ensures |r| == |cs|
    ensures forall i :: 0 <= i < |cs| ==> r[i] == Add(cs[i])
  {
    seq(|cs|, i requires 0 <= i < |cs| => Add(cs[i]))
  }

  /** `Wrap(c)` is the selector `{{WRAPPER}} .c`. */
  function Wrap(cls: string): string {
    "{{WRAPPER}} ." + cls
  }

  /** The names of the controls registered, in order. */
  function Names(items: seq<Item>): seq<string>
    decreases |items|
  {
    if items == [] then []
    else (if items[0].Add? then [items[0].control.name] else []) + Names(items[1..])
  }

  lemma {:induction false} NamesConcat(a: seq<Item>, b: seq<Item>)
    ensures Names(a + b) == Names(a) + Names(b)
    decreases |a|
  {
    if a == [] {
      assert a + b == b;
    } else {
      assert (a + b)[0] == a[0];
      assert (a + b)[1..] == a[1..] + b;
      NamesConcat(a[1..], b);
    }
  }

  /** The names of plain registrations are the controls' names, in order. */
  lemma {:induction false} NamesAdds(cs: seq<Control>)
    ensures Names(Adds(cs)) == seq(|cs|, i requires 0 <= i < |cs| => cs[i].name)
    decreases |cs|
  {
    if cs != [] {
      assert Adds(cs)[1..] == Adds(cs[1..]);
      NamesAdds(cs[1..]);
    }
  }

  // ---------------------------------------------------------------------------
  // Reading the layout back
  // ---------------------------------------------------------------------------

  datatype Tab = Tab(id: string, caption: Label, controls: seq<Control>)

  /** Controls before the tab group, the group's id, its tabs, controls after it. */
  datatype Layout = Layout(before: seq<Control>, tabsId: string, tabs: seq<Tab>, after: seq<Control>)

  /** The leading run of plain registrations and what follows it. */
  function ReadControls(items: seq<Item>): (r: (seq<Control>, seq<Item>))
    ensures r.1 == [] || !r.1[0].Add?
    ensures Adds(r.0) + r.1 == items
    decreases |items|
  {
    if items != [] && items[0].Add? then
      var (cs, rest) := ReadControls(items[1..]);
      AddsCons(items[0], cs, rest, items);
      ([items[0].control] + cs, rest)
    else
      assert Adds([]) + items == items;
      ([], items)
  }

  lemma AddsCons(head: Item, cs: seq<Control>, rest: seq<Item>, items: seq<Item>)
    requires head.Add? && items != [] && items[0] == head && Adds(cs) + rest == items[1..]
    ensures Adds([head.control] + cs) + rest == items
  {
    assert Adds([head.control] + cs) == [head] + Adds(cs);
    ConcatAssoc([head], Adds(cs), rest);
  }

  /** The tabs of a group, each a start, its controls and an end, and what follows
      the last one; `None` when a tab is not closed. */
  function ReadTabs(items: seq<Item>): Option<(seq<Tab>, seq<Item>)>
    decreases |items|
  {
    if items != [] && items[0].StartTab? then
      var (cs, rest) := ReadControls(items[1..]);
      if rest != [] && rest[0] == EndTab then
        match ReadTabs(rest[1..])
        case None => None
        case Some((tabs, after)) => Some(([Tab(items[0].id, items[0].caption, cs)] + tabs, after))
      else None
    else Some(([], items))
  }

  /** A sequence of registrations holding exactly one closed tab group. */
  function ReadLayout(items: seq<Item>): Option<Layout> {
    var (before, r) := ReadControls(items);
    if r != [] && r[0].StartTabs? then
      match ReadTabs(r[1..])
      case None => None
      case Some((tabs, r2)) =>
        if r2 != [] && r2[0] == EndTabs then
          var (after, r3) := ReadControls(r2[1..]);
          if r3 == [] then Some(Layout(before, r[0].id, tabs, after)) else None
        else None
    else None
  }

  /** The registrations a layout stands for. */
  function TabItems(t: Tab): seq<Item> {
    [StartTab(t.id, t.caption)] + Adds(t.controls) + [EndTab]
  }

  function TabsItems(tabs: seq<Tab>): seq<Item>
    decreases |tabs|
  {
    if tabs == [] then [] else TabItems(tabs[0]) + TabsItems(tabs[1..])
  }

  function LayoutItems(l: Layout): seq<Item> {
    Adds(l.before) + [StartTabs(l.tabsId)] + TabsItems(l.tabs) + [EndTabs] + Adds(l.after)
  }

  lemma {:induction false} ReadControlsAdds(cs: seq<Control>, rest: seq<Item>)
    requires rest == [] || !rest[0].Add?
    ensures ReadControls(Adds(cs) + rest) == (cs, rest)
    decreases |cs|
  {
    if cs == [] {
      assert Adds(cs) + rest == rest;
    } else {
      var items := Adds(cs) + rest;
      assert items[0] == Add(cs[0]);
      assert items[1..] == Adds(cs[1..]) + rest;
      ReadControlsAdds(cs[1..], rest);
      assert [cs[0]] + cs[1..] == cs;
    }
  }

  lemma ReadOneTab(t: Tab, tail: seq<Item>)
    ensures ReadTabs(TabItems(t) + tail)
            == match ReadTabs(tail)
               case None => None
               case Some((tabs, after)) => Some(([t] + tabs, after))
  {
    var items := TabItems(t) + tail;
    assert items == [StartTab(t.id, t.caption)] + (Adds(t.controls) + ([EndTab] + tail));
    assert items[1..] == Adds(t.controls) + ([EndTab] + tail);
    ReadControlsAdds(t.controls, [EndTab] + tail);
    assert ([EndTab] + tail)[1..] == tail;
  }

  lemma {:induction false} ReadTabsItems(tabs: seq<Tab>, rest: seq<Item>)
    requires rest == [] || !rest[0].StartTab?
    ensures ReadTabs(TabsItems(tabs) + rest) == Some((tabs, rest))
    decreases |tabs|
  {
    if tabs == [] {
      assert TabsItems(tabs) + rest == rest;
    } else {
      var tail := TabsItems(tabs[1..]) + rest;
      assert TabsItems(tabs) + rest == TabItems(tabs[0]) + tail;
      ReadOneTab(tabs[0], tail);
      ReadTabsItems(tabs[1..], rest);
      assert [tabs[0]] + tabs[1..] == tabs;
    }
  }

  /** Reading the registrations of a layout gives the layout back. */
  lemma ReadLayoutItems(l: Layout)
    ensures ReadLayout(LayoutItems(l)) == Some(l)
  {
    var tail := [EndTabs] + Adds(l.after);
    var mid := TabsItems(l.tabs) + tail;
    var items := LayoutItems(l);
    assert items == Adds(l.before) + ([StartTabs(l.tabsId)] + mid);
    ReadControlsAdds(l.before, [StartTabs(l.tabsId)] + mid);
    assert ([StartTabs(l.tabsId)] + mid)[1..] == mid;
    ReadTabsItems(l.tabs, tail);
    assert tail[1..] == Adds(l.after);
    ReadControlsAdds(l.after, []);
    assert Adds(l.after) + [] == Adds(l.after);
  }
}
