/**
 * Two small readers of HTML text, used to state what the generated wrapper
 * markup means rather than how it is concatenated: the class names of a class
 * attribute value, and the sequence of opening and closing tags in a fragment.
 */
module Markup {

  // ---------------------------------------------------------------------------
  // Class attribute values
  // ---------------------------------------------------------------------------

  /** Separators between class names in a class attribute. */
  predicate IsSpace(c: char) {
    c == ' ' || c == '\n' || c == '\t' || c == '\r' || c == '\U{000C}'
  }

  predicate NoSpace(s: string) {
    forall i :: 0 <= i < |s| ==> !IsSpace(s[i])
  }

  predicate AllSpace(s: string) {
    forall i :: 0 <= i < |s| ==> IsSpace(s[i])
  }

  /** Length of the run of non-separator characters at the start of `s`. */
  function WordLen(s: string): (n: nat)
    ensures n <= |s|
    ensures NoSpace(s[..n])
    ensures n < |s| ==> IsSpace(s[n])
  {
    if s == [] || IsSpace(s[0]) then 0
    else
      var m := WordLen(s[1..]);
      assert s[..1 + m] == [s[0]] + s[1..][..m];
      1 + m
  }

  /** The class names written in a class attribute value, in order. */
  function ClassNames(s: string): (names: seq<string>)
    ensures forall w :: w in names ==> w != [] && NoSpace(w)
    decreases |s|
  {
    if s == [] then []
    else if IsSpace(s[0]) then ClassNames(s[1..])
    else
      var n := WordLen(s);
      [s[..n]] + ClassNames(s[n..])
  }

  /** Leading separators contribute no class name. */
  lemma {:induction false} ClassNamesLeadingSpace(ws: string, b: string)
    requires AllSpace(ws)
    ensures ClassNames(ws + b) == ClassNames(b)
    decreases |ws|
  {
    if ws != [] {
      assert (ws + b)[0] == ws[0];
      assert (ws + b)[1..] == ws[1..] + b;
      assert AllSpace(ws[1..]);
      ClassNamesLeadingSpace(ws[1..], b);
    } else {
      assert ws + b == b;
    }
  }

  lemma {:induction false} WordLenConcat(a: string, c: char, b: string)
    requires IsSpace(c)
    ensures WordLen(a + [c] + b) == WordLen(a)
    decreases |a|
  {
    if a != [] && !IsSpace(a[0]) {
      assert (a + [c] + b)[1..] == a[1..] + [c] + b;
      WordLenConcat(a[1..], c, b);
    }
  }

  /** A separator splits the class names of the two sides cleanly. */
  lemma {:induction false} ClassNamesSplit(a: string, c: char, b: string)
    requires IsSpace(c)
    ensures ClassNames(a + [c] + b) == ClassNames(a) + ClassNames(b)
    decreases |a|
  {
    var s := a + [c] + b;
    if a == [] {
      assert s == [c] + b;
      assert s[1..] == b;
    } else if IsSpace(a[0]) {
      assert s[1..] == a[1..] + [c] + b;
      ClassNamesSplit(a[1..], c, b);
    } else {
      WordLenConcat(a, c, b);
      var n := WordLen(a);
      assert s[..n] == a[..n];
      assert s[n..] == a[n..] + [c] + b;
      ClassNamesSplit(a[n..], c, b);
    }
  }

  /** A run of separators splits the class names of the two sides cleanly. */
  lemma ClassNamesJoin(a: string, ws: string, b: string)
    requires ws != [] && AllSpace(ws)
    ensures ClassNames(a + ws + b) == ClassNames(a) + ClassNames(b)
  {
    assert a + ws + b == a + [ws[0]] + (ws[1..] + b);
    ClassNamesSplit(a, ws[0], ws[1..] + b);
    ClassNamesLeadingSpace(ws[1..], b);
  }

  /** A single non-empty name without separators is one class name. */
  lemma {:induction false} ClassNamesWord(w: string)
    requires w != [] && NoSpace(w)
    ensures ClassNames(w) == [w]
  {
    var n := WordLen(w);
    assert n == |w|;
    assert w[..n] == w;
  }

  lemma ClassNamesAllSpace(ws: string)
    requires AllSpace(ws)
    ensures ClassNames(ws) == []
  {
    ClassNamesLeadingSpace(ws, "");
    assert ws + "" == ws;
  }

  /** A single class name. */
  predicate Word(w: string) {
    w != [] && NoSpace(w)
  }

  /** A non-empty run of separators. */
  predicate Gap(g: string) {
    g != [] && AllSpace(g)
  }

  /** A class name followed by separators is the first class name. */
  lemma WordThen(w: string, g: string, rest: string)
    requires Word(w) && Gap(g)
    ensures ClassNames(w + g + rest) == [w] + ClassNames(rest)
  {
    ClassNamesWord(w);
    ClassNamesJoin(w, g, rest);
  }

  lemma NoSpaceConcat(a: string, b: string)
    requires NoSpace(a) && NoSpace(b)
    ensures NoSpace(a + b)
  {
    var s := a + b;
    forall i | 0 <= i < |s| ensures !IsSpace(s[i]) {
      if i < |a| { assert s[i] == a[i]; } else { assert s[i] == b[i - |a|]; }
    }
  }

  // ---------------------------------------------------------------------------
  // Tag events
  // ---------------------------------------------------------------------------

  datatype TagEvent = Open(name: string) | Close(name: string)

  /** Characters that can appear in a tag name. */
  predicate IsNameChar(c: char) {
    !IsSpace(c) && c != '>' && c != '<' && c != '/' && c != '"'
  }

  predicate IsTagName(s: string) {
    s != [] && forall i :: 0 <= i < |s| ==> IsNameChar(s[i])
  }

  function NameLen(s: string): (n: nat)
    ensures n <= |s|
  {
    if s == [] || !IsNameChar(s[0]) then 0 else 1 + NameLen(s[1..])
  }

  /** The tags opened and closed in `s`, in order, reading every `<` as the start of
      a tag (so attribute values must not contain `<`). */
  function TagEvents(s: string): seq<TagEvent>
    decreases |s|
  {
    if s == [] then []
    else if s[0] != '<' then TagEvents(s[1..])
    else if |s| > 1 && s[1] == '/' then
      var n := NameLen(s[2..]);
      [Close(s[2..2 + n])] + TagEvents(s[2 + n..])
    else
      var n := NameLen(s[1..]);
      [Open(s[1..1 + n])] + TagEvents(s[1 + n..])
  }

  /** Text without `<` contributes no tag. */
  lemma {:induction false} TagEventsText(a: string, b: string)
    requires '<' !in a
    ensures TagEvents(a + b) == TagEvents(b)
    decreases |a|
  {
    if a != [] {
      assert (a + b)[0] == a[0];
      assert (a + b)[1..] == a[1..] + b;
      assert '<' !in a[1..];
      TagEventsText(a[1..], b);
    } else {
      assert a + b == b;
    }
  }

  lemma {:induction false} NameLenConcat(name: string, rest: string)
    requires IsTagName(name) && rest != [] && !IsNameChar(rest[0])
    ensures NameLen(name + rest) == |name|
    decreases |name|
  {
    if |name| > 1 {
      assert (name + rest)[1..] == name[1..] + rest;
      NameLenConcat(name[1..], rest);
    } else {
      assert (name + rest)[1..] == rest;
    }
  }

  lemma {:induction false} OpenTag(name: string, rest: string)
    requires IsTagName(name) && name[0] != '/' && rest != [] && !IsNameChar(rest[0])
    ensures TagEvents("<" + name + rest) == [Open(name)] + TagEvents(rest)
  {
    var s := "<" + name + rest;
    assert s[1..] == name + rest;
    NameLenConcat(name, rest);
    assert s[1..1 + |name|] == name;
    assert s[1 + |name|..] == rest;
  }

  /** An opening tag: `<`, the name, then the text up to and including its `>`. */
  function OpenEl(name: string, attrs: string): string {
    "<" + name + attrs
  }

  /** A closing tag `</name>`. */
  function CloseEl(name: string): string {
    "</" + name + ">"
  }

  /** Text that may follow a tag name inside a tag: it ends the name and opens no tag. */
  predicate AttrText(t: string) {
    t != [] && !IsNameChar(t[0]) && '<' !in t
  }

  lemma OpenElEvents(name: string, attrs: string, rest: string)
    requires IsTagName(name) && name[0] != '/' && AttrText(attrs)
    ensures TagEvents(OpenEl(name, attrs) + rest) == [Open(name)] + TagEvents(rest)
  {
    OpenThenText(name, attrs, rest);
  }

  lemma CloseElEvents(name: string, rest: string)
    requires IsTagName(name)
    ensures TagEvents(CloseEl(name) + rest) == [Close(name)] + TagEvents(rest)
  {
    CloseThenText(name, ">", rest);
  }

  lemma CloseElAlone(name: string)
    requires IsTagName(name)
    ensures TagEvents(CloseEl(name)) == [Close(name)]
  {
    CloseElEvents(name, "");
    assert CloseEl(name) + "" == CloseEl(name);
  }

  /** An opening tag whose attributes contain no `<`. */
  lemma OpenThenText(name: string, text: string, rest: string)
    requires IsTagName(name) && name[0] != '/' && text != [] && !IsNameChar(text[0]) && '<' !in text
    ensures TagEvents("<" + name + text + rest) == [Open(name)] + TagEvents(rest)
  {
    assert "<" + name + text + rest == "<" + name + (text + rest);
    OpenTag(name, text + rest);
    TagEventsText(text, rest);
  }

  /** A closing tag followed by text without `<`. */
  lemma CloseThenText(name: string, text: string, rest: string)
    requires IsTagName(name) && text != [] && !IsNameChar(text[0]) && '<' !in text
    ensures TagEvents("</" + name + text + rest) == [Close(name)] + TagEvents(rest)
  {
    assert "</" + name + text + rest == "</" + name + (text + rest);
    CloseTag(name, text + rest);
    TagEventsText(text, rest);
  }

  lemma {:induction false} CloseTag(name: string, rest: string)
    requires IsTagName(name) && rest != [] && !IsNameChar(rest[0])
    ensures TagEvents("</" + name + rest) == [Close(name)] + TagEvents(rest)
  {
    var s := "</" + name + rest;
    assert s[2..] == name + rest;
    NameLenConcat(name, rest);
    assert s[2..2 + |name|] == name;
    assert s[2 + |name|..] == rest;
  }

  /** Replays tag events on a stack of open tag names; the flag turns false as soon
      as a closing tag does not match the innermost open one. */
  function Replay(evs: seq<TagEvent>, open: seq<string>): (bool, seq<string>)
    decreases |evs|
  {
    if evs == [] then (true, open)
    else match evs[0]
      case Open(n) => Replay(evs[1..], open + [n])
      case Close(n) =>
        if open != [] && open[|open| - 1] == n then Replay(evs[1..], open[..|open| - 1])
        else (false, open)
  }

  /** Every tag opened is closed, innermost first, and nothing else is closed. */
  predicate Balanced(evs: seq<TagEvent>) {
    Replay(evs, []) == (true, [])
  }

  lemma ReplayOpen(n: string, evs: seq<TagEvent>, open: seq<string>)
    ensures Replay([Open(n)] + evs, open) == Replay(evs, open + [n])
  {
    assert ([Open(n)] + evs)[1..] == evs;
  }

  lemma ReplayClose(n: string, evs: seq<TagEvent>, open: seq<string>)
    requires open != [] && open[|open| - 1] == n
    ensures Replay([Close(n)] + evs, open) == Replay(evs, open[..|open| - 1])
  {
    assert ([Close(n)] + evs)[1..] == evs;
  }

  /** Replaying a concatenation replays the second part on what the first left open. */
  lemma {:induction false} ReplayConcat(xs: seq<TagEvent>, ys: seq<TagEvent>, open: seq<string>)
    requires Replay(xs, open).0
    ensures Replay(xs + ys, open) == Replay(ys, Replay(xs, open).1)
    decreases |xs|
  {
    if xs == [] {
      assert xs + ys == ys;
    } else {
      assert xs + ys == [xs[0]] + (xs[1..] + ys);
      assert xs == [xs[0]] + xs[1..];
      match xs[0]
      case Open(n) =>
        ReplayOpen(n, xs[1..] + ys, open);
        ReplayOpen(n, xs[1..], open);
        ReplayConcat(xs[1..], ys, open + [n]);
      case Close(n) =>
        ReplayClose(n, xs[1..] + ys, open);
        ReplayClose(n, xs[1..], open);
        ReplayConcat(xs[1..], ys, open[..|open| - 1]);
    }
  }

  /** Tags already open below do not affect a replay that never closes them. */
  lemma {:induction false} ReplayBelow(xs: seq<TagEvent>, below: seq<string>, open: seq<string>)
    requires Replay(xs, open).0
    ensures Replay(xs, below + open) == (true, below + Replay(xs, open).1)
    decreases |xs|
  {
    if xs == [] {
    } else {
      assert xs == [xs[0]] + xs[1..];
      match xs[0]
      case Open(n) =>
        ReplayOpen(n, xs[1..], open);
        ReplayOpen(n, xs[1..], below + open);
        assert below + open + [n] == below + (open + [n]);
        ReplayBelow(xs[1..], below, open + [n]);
      case Close(n) =>
        ReplayClose(n, xs[1..], open);
        ReplayClose(n, xs[1..], below + open);
        assert (below + open)[..|below + open| - 1] == below + open[..|open| - 1];
        ReplayBelow(xs[1..], below, open[..|open| - 1]);
    }
  }

  /** A balanced run wrapped in an opening and closing tag of one name is balanced. */
  lemma Wrapped(n: string, inner: seq<TagEvent>)
    requires Balanced(inner)
    ensures Balanced([Open(n)] + inner + [Close(n)])
  {
    var whole := [Open(n)] + inner + [Close(n)];
    assert whole == [Open(n)] + (inner + [Close(n)]);
    ReplayOpen(n, inner + [Close(n)], []);
    assert [] + [n] == [n] + [];
    ReplayBelow(inner, [n], []);
    assert Replay(whole, []) == Replay(inner + [Close(n)], [n]);
    assert Replay(inner, [n]) == (true, [n]);
    ReplayConcat(inner, [Close(n)], [n]);
    assert [Close(n)] == [Close(n)] + [];
    ReplayClose(n, [], [n]);
  }

  /** Balanced runs concatenate to a balanced run. */
  lemma BalancedConcat(xs: seq<TagEvent>, ys: seq<TagEvent>)
    requires Balanced(xs) && Balanced(ys)
    ensures Balanced(xs + ys)
  {
    ReplayConcat(xs, ys, []);
  }

  lemma BalancedEmpty()
    ensures Balanced([])
  {
  }
  // ---------------------------------------------------------------------------
  // Quoted attribute values and link addresses
  // ---------------------------------------------------------------------------

  /** The position of the first `"` in `s`, or `|s|` when there is none: where a
      double-quoted attribute value that starts at the front of `s` ends. */
  function QuoteAt(s: string): (q: nat)
    ensures q <= |s|
    ensures q < |s| ==> s[q] == '"'
    ensures forall j :: 0 <= j < q ==> s[j] != '"'
    decreases |s|
  {
    if s == [] || s[0] == '"' then 0 else 1 + QuoteAt(s[1..])
  }

  /** A value without `"` ends where the closing quote follows it. */
  lemma QuoteAtEnd(v: string, rest: string)
    requires '"' !in v && rest != [] && rest[0] == '"'
    ensures QuoteAt(v + rest) == |v|
  {
    var s := v + rest;
    assert s[|v|] == rest[0];
    forall j | 0 <= j < |v| ensures s[j] != '"' {
      assert s[j] == v[j];
    }
  }

  /** The start of a link whose first attribute is its address. */
  const LinkOpen: string := OpenEl("a", " href=\"")

  /** The addresses of the links in `s`, in order: the text after each `<a href="`
      up to the next `"`. */
  function Hrefs(s: string): seq<string>
    decreases |s|
  {
    if |s| < |LinkOpen| then []
    else if s[..|LinkOpen|] == LinkOpen then
      var rest := s[|LinkOpen|..];
      [rest[..QuoteAt(rest)]] + Hrefs(rest[QuoteAt(rest)..])
    else Hrefs(s[1..])
  }

  /** Text without `<` holds no link. */
  lemma {:induction false} HrefsText(a: string, b: string)
    requires '<' !in a
    ensures Hrefs(a + b) == Hrefs(b)
    decreases |a|
  {
    if a == [] {
      assert a + b == b;
    } else {
      var s := a + b;
      assert s[0] == a[0];
      if |s| >= |LinkOpen| {
        assert s[..|LinkOpen|][0] != LinkOpen[0];
      }
      assert s[1..] == a[1..] + b;
      HrefsText(a[1..], b);
    }
  }

  /** A tag whose name does not start with `a`, or a closing tag, is no link. */
  lemma HrefsOtherTag(name: string, attrs: string, rest: string)
    requires name != [] && name[0] != 'a' && '<' !in name && '<' !in attrs
    ensures Hrefs(OpenEl(name, attrs) + rest) == Hrefs(rest)
  {
    var s := OpenEl(name, attrs) + rest;
    assert s[1] == name[0];
    if |s| >= |LinkOpen| {
      assert s[..|LinkOpen|][1] != LinkOpen[1];
    }
    assert s[1..] == (name + attrs) + rest;
    HrefsText(name + attrs, rest);
  }

  lemma HrefsCloseTag(name: string, rest: string)
    requires '<' !in name
    ensures Hrefs(CloseEl(name) + rest) == Hrefs(rest)
  {
    var s := CloseEl(name) + rest;
    assert s[1] == '/';
    if |s| >= |LinkOpen| {
      assert s[..|LinkOpen|][1] != LinkOpen[1];
    }
    assert s[1..] == ("/" + name + ">") + rest;
    HrefsText("/" + name + ">", rest);
  }

  /** A link lists its address, up to the quote that closes it. */
  lemma HrefsLink(url: string, rest: string)
    requires '"' !in url && rest != [] && rest[0] == '"'
    ensures Hrefs(LinkOpen + url + rest) == [url] + Hrefs(rest)
  {
    var s := LinkOpen + url + rest;
    var t := url + rest;
    assert s == LinkOpen + t;
    assert s[..|LinkOpen|] == LinkOpen;
    assert s[|LinkOpen|..] == t;
    QuoteAtEnd(url, rest);
    assert t[..|url|] == url;
    assert t[|url|..] == rest;
  }
}
