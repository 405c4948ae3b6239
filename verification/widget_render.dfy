/**
 * What the three widgets' `render` methods share: the title-tag allow-list with
 * its fallback, the title character stripping, and the call to the host's
 * classic-widget renderer.
 */
module WidgetRender {
  import opened Php
  import opened Markup
  import opened Wp
  import opened DefaultArgs

  // ---------------------------------------------------------------------------
  // Title tag
  // ---------------------------------------------------------------------------

  const ValidTags: seq<string> := ["h1", "h2", "h3", "h4", "h5", "h6", "div", "span", "p"]

  /** `in_array($tag, $valid_tags) ? $tag : 'h5'`. Settings are strings here and no
      allowed tag is numeric, so the loose and the strict membership test agree. */
  function TitleTag(tag: string): (r: string)
    ensures r in ValidTags
    ensures r == tag <==> tag in ValidTags
    ensures r != tag ==> r == "h5"
  {
    if tag in ValidTags then tag else "h5"
  }

  /** Choosing the tag again changes nothing. */
  lemma TitleTagIdempotent(tag: string)
    ensures TitleTag(TitleTag(tag)) == TitleTag(tag)
  {
  }

  /** Every allowed tag is a plain tag name, so the builder's title strings balance. */
  lemma ValidTagsPlain(tag: string)
    requires tag in ValidTags
    ensures PlainTag(tag)
  {
  }

  /** What attribute escaping leaves alone: the allowed tag names carry no
      character it rewrites. */
  ghost predicate KeepsValidTags(h: Host) {
    forall t :: t in ValidTags ==> h.escAttr(t) == t
  }

  /** A widget's title wrapper, built from the escaped chosen tag, closes
      everything it opens and ends with that tag. */
  lemma TitleWrapBalanced(h: Host, widgetType: string, tag: string, iconEnabled: bool,
                          icon: IconArg, iconPosition: string, alignClass: string, beforeWidget: string)
    requires AttrSafe(h) && KeepsValidTags(h) && '<' !in widgetType
    requires icon.IconSpec? ==> icon.library != "svg"
    ensures var r := WidgetDefaultArgs(h, widgetType, h.escAttr(TitleTag(tag)), iconEnabled, icon,
                                       iconPosition, alignClass, beforeWidget);
            && r.afterTitle == "</" + TitleTag(tag) + "></div>"
            && Balanced(TagEvents(r.beforeTitle) + TagEvents(r.afterTitle))
  {
    assert h.escAttr(TitleTag(tag)) == TitleTag(tag);
    ValidTagsPlain(TitleTag(tag));
    TitleBalanced(h, widgetType, TitleTag(tag), iconEnabled, icon, iconPosition, alignClass, beforeWidget);
  }

  // ---------------------------------------------------------------------------
  // Title stripping
  // ---------------------------------------------------------------------------

  /** The characters the RSS and search titles lose, in the order they are
      replaced: `<`, `>`, `&`, `"`, right double quote, `'`, left single quote. */
  const Stripped: seq<char> := ['<', '>', '&', '"', '\U{201D}', '\'', '\U{2018}']

  /** `str_replace($chars, '', $s)`: each needle replaced, in turn, over the whole string. */
  function ReplaceAll(chars: seq<char>, s: string): string
    decreases |chars|
  {
    if chars == [] then s else ReplaceAll(chars[1..], StrReplace([chars[0]], "", s))
  }

  function StripTitle(s: string): string {
    ReplaceAll(Stripped, s)
  }

  /** The reference: the characters of `s` that are not in `chars`, in order. */
  function Keep(chars: seq<char>, s: string): (r: string)
    ensures forall c :: c in r ==> c !in chars
    ensures forall c :: c !in chars ==> (c in r <==> c in s)
    ensures |r| <= |s|
    decreases |s|
  {
    if s == [] then []
    else if s[0] in chars then Keep(chars, s[1..])
    else [s[0]] + Keep(chars, s[1..])
  }

  lemma {:induction false} KeepWithout(c: char, rest: seq<char>, s: string)
    ensures Keep(rest, Without(s, c)) == Keep([c] + rest, s)
    decreases |s|
  {
    if s != [] {
      KeepWithout(c, rest, s[1..]);
      if s[0] != c {
        var w := [s[0]] + Without(s[1..], c);
        assert w[0] == s[0] && w[1..] == Without(s[1..], c);
      }
    }
  }

  lemma {:induction false} ReplaceAllIsKeep(chars: seq<char>, s: string)
    ensures ReplaceAll(chars, s) == Keep(chars, s)
    decreases |chars|
  {
    if chars == [] {
      KeepNothing(s);
    } else {
      StrReplaceCharIsWithout(chars[0], s);
      ReplaceAllIsKeep(chars[1..], Without(s, chars[0]));
      KeepWithout(chars[0], chars[1..], s);
      assert [chars[0]] + chars[1..] == chars;
    }
  }

  lemma {:induction false} KeepNothing(s: string)
    ensures Keep([], s) == s
    decreases |s|
  {
    if s != [] {
      KeepNothing(s[1..]);
    }
  }

  lemma {:induction false} KeepIdempotent(chars: seq<char>, s: string)
    ensures Keep(chars, Keep(chars, s)) == Keep(chars, s)
    decreases |s|
  {
    if s != [] {
      KeepIdempotent(chars, s[1..]);
      if s[0] !in chars {
        var k := [s[0]] + Keep(chars, s[1..]);
        assert k[0] == s[0] && k[1..] == Keep(chars, s[1..]);
      }
    }
  }

  /** Stripping is the reference filter: no stripped character survives, every
      other character stays, in order, and a second pass changes nothing. */
  lemma {:induction false} StripTitleSpec(s: string)
    ensures StripTitle(s) == Keep(Stripped, s)
    ensures forall c :: c in StripTitle(s) ==> c !in Stripped
    ensures forall c :: c !in Stripped ==> (c in StripTitle(s) <==> c in s)
    ensures StripTitle(StripTitle(s)) == StripTitle(s)
  {
    ReplaceAllIsKeep(Stripped, s);
    ReplaceAllIsKeep(Stripped, Keep(Stripped, s));
    KeepIdempotent(Stripped, s);
  }

  // ---------------------------------------------------------------------------
  // The classic-widget call
  // ---------------------------------------------------------------------------

  /** A value of the instance array handed to the classic widget. */
  datatype Value = Text(text: string) | Flag(flag: bool)

  /** `the_widget($class, $instance, $args)`. */
  datatype WidgetCall = WidgetCall(widget: string, instance: Assoc<Value>, args: WidgetArgs)

  /** A setting equal to the string `yes` (`=== 'yes'`). */
  predicate Yes(setting: string) {
    setting == "yes"
  }
}
