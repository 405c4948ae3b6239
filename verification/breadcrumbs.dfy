/**
 * The breadcrumb trail data: an ordered array of named entries describing where
 * the current view sits (home page, category parents, parent and child pages,
 * date archives, ...), decided from what the host reports about the current
 * request.
 */
module Breadcrumbs {
  import opened Php

  /** A page as the parent walk and the child query report it. */
  datatype Page = Page(title: string, link: string)

  /**
   * What the host reports about the current request. `ancestors` is the parent
   * walk, nearest parent first; `children` the child pages of the current page in
   * the order the host returns them; `categoryId` is the first category's id, 0
   * when the post has none; `categoryParents` is the category-parents string with
   * `,` as separator.
   */
  datatype Query = Query(
    activePlugins: seq<string>,
    paged: int,
    isFrontPage: bool,
    isWoocommerce: bool,
    siteName: string,
    siteUrl: string,
    postType: string,
    title: string,
    categoryId: int,
    categoryParents: string,
    ancestors: seq<Page>,
    children: seq<Page>,
    isCategory: bool,
    categoryTitle: string,
    isTag: bool,
    tagTitle: string,
    isDay: bool,
    isMonth: bool,
    isYear: bool,
    year: string,
    monthName: string,
    day: string,
    yearLink: string,
    monthLink: string,
    isAuthor: bool,
    authorName: string,
    is404: bool
  )

  /** One breadcrumb. `name` is absent only on the shop entry; `element` is the
      markup of a category-parent entry, absent when the index it reads is missing. */
  datatype Entry = Entry(
    name: Option<string>,
    isHomepage: bool,
    isParent: bool,
    isChild: bool,
    link: string,
    isActive: bool,
    element: Option<string>
  )

  type Trail = Assoc<Entry>

  predicate WooActive(q: Query) {
    "woocommerce/woocommerce.php" in q.activePlugins
  }

  /** `get_query_var('paged') ?: 1` */
  function PageNum(q: Query): int {
    if q.paged != 0 then q.paged else 1
  }

  function Home(q: Query, active: bool): Entry {
    Entry(Some(q.siteName), true, false, false, q.siteUrl, active, Some(""))
  }

  /** The entry of the view itself. */
  function Current(name: string): Entry {
    Entry(Some(name), false, false, false, "", true, Some(""))
  }

  /** An archive level above the current view. */
  function Level(name: string, link: string): Entry {
    Entry(Some(name), false, false, false, link, false, Some(""))
  }

  function ParentEntry(p: Page): Entry {
    Entry(Some(p.title), false, true, false, p.link, false, Some(""))
  }

  function ChildEntry(p: Page): Entry {
    Entry(Some(p.title), false, false, true, p.link, false, Some(""))
  }

  const WooEntry: Entry := Entry(None, false, false, false, "", false, Some(""))

  /** The pieces of the category-parents string. */
  function Pieces(q: Query): seq<string> {
    Explode(",", q.categoryParents)
  }

  /** `count(array_filter($pieces))` */
  function CountTruthy(pieces: seq<string>): (n: nat)
    ensures n <= |pieces|
  {
    if pieces == [] then 0 else (if Truthy(pieces[0]) then 1 else 0) + CountTruthy(pieces[1..])
  }

  /** `$elements[$i]` after `array_filter`, which keeps the original indices: the
      piece itself when it survived the filter, null otherwise. */
  function ElementEntry(pieces: seq<string>, i: nat): (e: Entry)
    ensures !e.isActive && e.name == Some("")
    ensures e.element.Some? <==> i < |pieces| && Truthy(pieces[i])
    ensures e.element.Some? ==> e.element.value == pieces[i]
  {
    Entry(Some(""), false, false, false, "", false,
          if i < |pieces| && Truthy(pieces[i]) then Some(pieces[i]) else None)
  }

  function ElementKey(i: nat): string {
    "element_" + NatToString(i)
  }

  // ---------------------------------------------------------------------------
  // The decision tree, written as the assignments it performs
  // ---------------------------------------------------------------------------

  /** Assigns each value in turn to the same key. */
  function PutAll<V>(acc: Assoc<V>, k: string, vs: seq<V>): Assoc<V>
    decreases |vs|
  {
    if vs == [] then acc else PutAll(Put(acc, k, vs[0]), k, vs[1..])
  }

  /** The loop `for ($i = 0; $i < $count; $i++) $b['element_' . $i] = …`. */
  function PutElements(acc: Trail, pieces: seq<string>, count: nat, i: nat): Trail
    decreases count - i
  {
    if i >= count then acc
    else PutElements(Put(acc, ElementKey(i), ElementEntry(pieces, i)), pieces, count, i + 1)
  }

  function HomeBase(q: Query): Trail {
    if WooActive(q) then
      if !q.isWoocommerce then Put([], "homepage", Home(q, false)) else []
    else Put([], "homepage", Home(q, false))
  }

  function PostTrail(q: Query, acc: Trail): Trail
  {
    var withElements :=
      if q.categoryId != 0 then PutElements(acc, Pieces(q), CountTruthy(Pieces(q)), 0) else acc;
    Put(withElements, "post", Current(q.title))
  }

  function PageTrail(q: Query, acc: Trail): Trail
  {
    var parents := PutAll(acc, "parent_page", ParentEntries(q));
    var page := Put(parents, "page", Current(q.title));
    PutAll(page, "child_page", ChildEntries(q))
  }

  /** Which kind of view the request is, tested in the source's order; the front
      page is tested before all others. */
  datatype View =
    | FrontPage | Post | PageView | Category | Tag | Day | Month | Library
    | Year | Author | NotFound | Shop | Other

  function ViewOf(q: Query): View {
    if q.isFrontPage then FrontPage
    else if q.postType == "post" then Post
    else if q.postType == "page" then PageView
    else if q.isCategory then Category
    else if q.isTag then Tag
    else if q.isDay then Day
    else if q.isMonth then Month
    else if q.postType == "elementor_library" then Library
    else if q.isYear then Year
    else if q.isAuthor then Author
    else if q.is404 then NotFound
    else if WooActive(q) && q.isWoocommerce then Shop
    else Other
  }

  function DayTrail(q: Query, acc: Trail): Trail
  {
    Put(Put(Put(acc, "year_archive", Level(q.year, q.yearLink)),
            "month_archive", Level(q.monthName, q.monthLink)),
        "day_archive", Current(q.day))
  }

  function MonthTrail(q: Query, acc: Trail): Trail
  {
    Put(Put(acc, "year_archive", Level(q.year, q.yearLink)), "month_archive", Current(q.monthName))
  }

  function Branch(q: Query, acc: Trail): Trail
    requires ViewOf(q) != FrontPage
  {
    match ViewOf(q)
    case Post => PostTrail(q, acc)
    case PageView => PageTrail(q, acc)
    case Day => DayTrail(q, acc)
    case Month => MonthTrail(q, acc)
    case Category => Put(acc, "category", Current(q.categoryTitle))
    case Tag => Put(acc, "tag", Current(q.tagTitle))
    case Library => Put(acc, "elementor_library", Current(q.title))
    case Year => Put(acc, "year_archive", Current(q.year))
    case Author => Put(acc, "author_archive", Current(q.authorName))
    case NotFound => Put(acc, "Error 404", Current("Error 404"))
    case Shop => Put(acc, "woocommerce", WooEntry)
    case Other => acc
  }

  /** get_data_breadcrumbs */
  function GetDataBreadcrumbs(q: Query): Trail {
    if ViewOf(q) == FrontPage then
      if PageNum(q) > 1 then Put([], "homepage", Home(q, true)) else []
    else Branch(q, HomeBase(q))
  }

  // ---------------------------------------------------------------------------
  // The same trail, listed entry by entry
  // ---------------------------------------------------------------------------

  function Last<T>(s: seq<T>): T
    requires s != []
  {
    s[|s| - 1]
  }

  function ElementPairs(pieces: seq<string>, from: nat, n: nat): Trail {
    seq(n, j requires 0 <= j < n => (ElementKey(from + j), ElementEntry(pieces, from + j)))
  }

  function HomePart(q: Query): Trail {
    if WooActive(q) && q.isWoocommerce then [] else [("homepage", Home(q, false))]
  }

  function PostPart(q: Query): Trail {
    (if q.categoryId != 0 then ElementPairs(Pieces(q), 0, CountTruthy(Pieces(q))) else [])
    + [("post", Current(q.title))]
  }

  function ParentPart(q: Query): Trail {
    if q.ancestors != [] then [("parent_page", ParentEntry(Last(q.ancestors)))] else []
  }

  function ChildPart(q: Query): Trail {
    if q.children != [] then [("child_page", ChildEntry(Last(q.children)))] else []
  }

  function PagePart(q: Query): Trail {
    ParentPart(q) + [("page", Current(q.title))] + ChildPart(q)
  }

  function DayPart(q: Query): Trail {
    [("year_archive", Level(q.year, q.yearLink)), ("month_archive", Level(q.monthName, q.monthLink)),
     ("day_archive", Current(q.day))]
  }

  function MonthPart(q: Query): Trail {
    [("year_archive", Level(q.year, q.yearLink)), ("month_archive", Current(q.monthName))]
  }

  /** The entries after the home page, for each kind of view. */
  function TrailPart(q: Query): Trail
    requires ViewOf(q) != FrontPage
  {
    match ViewOf(q)
    case Post => PostPart(q)
    case PageView => PagePart(q)
    case Day => DayPart(q)
    case Month => MonthPart(q)
    case Category => [("category", Current(q.categoryTitle))]
    case Tag => [("tag", Current(q.tagTitle))]
    case Library => [("elementor_library", Current(q.title))]
    case Year => [("year_archive", Current(q.year))]
    case Author => [("author_archive", Current(q.authorName))]
    case NotFound => [("Error 404", Current("Error 404"))]
    case Shop => [("woocommerce", WooEntry)]
    case Other => []
  }

  function Reference(q: Query): Trail {
    if ViewOf(q) == FrontPage then
      if PageNum(q) > 1 then [("homepage", Home(q, true))] else []
    else HomePart(q) + TrailPart(q)
  }

  // ---------------------------------------------------------------------------
  // Proofs that the assignments produce the listing
  // ---------------------------------------------------------------------------

  /** Assigning a sequence of values to a fresh key leaves one pair holding the last value. */
  lemma {:induction false} PutAllLast<V>(acc: Assoc<V>, k: string, x: V, vs: seq<V>)
    requires k !in Keys(acc)
    ensures PutAll(acc + [(k, x)], k, vs) == acc + [(k, if vs == [] then x else Last(vs))]
    decreases |vs|
  {
    if vs != [] {
      PutLastAgain(acc, k, x, vs[0]);
      PutAllLast(acc, k, vs[0], vs[1..]);
      LastOfTail(vs);
    }
  }

  lemma PutAllFresh<V>(acc: Assoc<V>, k: string, vs: seq<V>)
    requires k !in Keys(acc)
    ensures PutAll(acc, k, vs) == acc + LastPair(k, vs)
  {
    if vs == [] {
      assert acc + [] == acc;
    } else {
      PutFresh(acc, k, vs[0]);
      PutAllLast(acc, k, vs[0], vs[1..]);
      LastOfTail(vs);
    }
  }

  lemma LastOfTail<T>(vs: seq<T>)
    requires vs != []
    ensures (if vs[1..] == [] then vs[0] else Last(vs[1..])) == Last(vs)
  {
  }

  lemma ElementKeyInjective(i: nat, j: nat)
    requires ElementKey(i) == ElementKey(j)
    ensures i == j
  {
    assert ElementKey(i)[8..] == NatToString(i);
    assert ElementKey(j)[8..] == NatToString(j);
    NatToStringInjective(i, j);
  }

  lemma ElementKeyShape(i: nat)
    ensures |ElementKey(i)| >= 9 && ElementKey(i)[0] == 'e'
  {
  }

  /** The keys a trail holds before the view's own entries are added. */
  predicate HomeOnly(acc: Trail) {
    forall k :: k in Keys(acc) ==> k == "homepage"
  }

  predicate FreshElements(acc: Trail, i: nat, count: nat) {
    forall k :: i <= k < count ==> ElementKey(k) !in Keys(acc)
  }

  lemma ElementStepFresh(acc: Trail, pieces: seq<string>, i: nat, count: nat)
    requires i < count && FreshElements(acc, i, count)
    ensures FreshElements(acc + [(ElementKey(i), ElementEntry(pieces, i))], i + 1, count)
  {
    var acc' := acc + [(ElementKey(i), ElementEntry(pieces, i))];
    KeysAppend(acc, [(ElementKey(i), ElementEntry(pieces, i))]);
    assert Keys(acc') == Keys(acc) + [ElementKey(i)];
    forall k | i + 1 <= k < count
      ensures ElementKey(k) !in Keys(acc')
    {
      if ElementKey(k) == ElementKey(i) {
        ElementKeyInjective(k, i);
      }
    }
  }

  lemma ElementPairsCons(pieces: seq<string>, i: nat, n: nat)
    requires n > 0
    ensures [(ElementKey(i), ElementEntry(pieces, i))] + ElementPairs(pieces, i + 1, n - 1)
            == ElementPairs(pieces, i, n)
  {
  }

  lemma {:induction false} PutElementsAppends(acc: Trail, pieces: seq<string>, count: nat, i: nat)
    requires i <= count && FreshElements(acc, i, count)
    ensures PutElements(acc, pieces, count, i) == acc + ElementPairs(pieces, i, count - i)
    decreases count - i
  {
    if i == count {
      assert ElementPairs(pieces, i, 0) == [];
      assert acc + [] == acc;
    } else {
      var x := (ElementKey(i), ElementEntry(pieces, i));
      PutFresh(acc, x.0, x.1);
      ElementStepFresh(acc, pieces, i, count);
      PutElementsAppends(acc + [x], pieces, count, i + 1);
      ElementPairsCons(pieces, i, count - i);
      ConcatAssoc(acc, [x], ElementPairs(pieces, i + 1, count - i - 1));
    }
  }

  lemma HomeBaseIsHomePart(q: Query)
    ensures HomeBase(q) == HomePart(q)
    ensures HomeOnly(HomePart(q))
  {
  }

  lemma PostTrailAppends(q: Query, acc: Trail)
    requires HomeOnly(acc)
    ensures PostTrail(q, acc) == acc + PostPart(q)
  {
    var pieces := Pieces(q);
    var n := CountTruthy(pieces);
    var elems := if q.categoryId != 0 then ElementPairs(pieces, 0, n) else [];
    var post := ("post", Current(q.title));
    if q.categoryId != 0 {
      ElementsFresh(acc, n);
      PutElementsAppends(acc, pieces, n, 0);
    } else {
      assert acc + [] == acc;
    }
    PostKeyFresh(acc, pieces, n, elems);
    PutFresh(acc + elems, post.0, post.1);
    ConcatAssoc(acc, elems, [post]);
  }

  lemma ElementsFresh(acc: Trail, n: nat)
    requires HomeOnly(acc)
    ensures FreshElements(acc, 0, n)
  {
    forall k | 0 <= k < n ensures ElementKey(k) !in Keys(acc) {
      ElementKeyShape(k);
    }
  }

  lemma PostKeyFresh(acc: Trail, pieces: seq<string>, n: nat, elems: Trail)
    requires HomeOnly(acc)
    requires elems == [] || elems == ElementPairs(pieces, 0, n)
    ensures "post" !in Keys(acc + elems)
  {
    KeysAppend(acc, elems);
    forall k | 0 <= k < n ensures ElementKey(k) != "post" {
      ElementKeyShape(k);
    }
  }

  /** What assigning `vs` to `k` in turn leaves behind, when `k` was fresh. */
  function LastPair<V>(k: string, vs: seq<V>): Assoc<V> {
    if vs == [] then [] else [(k, Last(vs))]
  }

  lemma PutAllAroundPut<V>(acc: Assoc<V>, k1: string, vs1: seq<V>, k2: string, v: V, k3: string, vs3: seq<V>)
    requires k1 !in Keys(acc) && k2 !in Keys(acc) && k3 !in Keys(acc)
    requires k1 != k2 && k1 != k3 && k2 != k3
    ensures PutAll(Put(PutAll(acc, k1, vs1), k2, v), k3, vs3)
            == acc + LastPair(k1, vs1) + [(k2, v)] + LastPair(k3, vs3)
  {
    var a1 := acc + LastPair(k1, vs1);
    var a2 := a1 + [(k2, v)];
    PutAllFresh(acc, k1, vs1);
    FreshPastLastPair(acc, k1, vs1, k2);
    FreshPastLastPair(acc, k1, vs1, k3);
    PutFresh(a1, k2, v);
    FreshPastSnoc(a1, (k2, v), k3);
    PutAllFresh(a2, k3, vs3);
  }

  lemma FreshPastLastPair<V>(acc: Assoc<V>, k: string, vs: seq<V>, k': string)
    requires k' !in Keys(acc) && k' != k
    ensures k' !in Keys(acc + LastPair(k, vs))
  {
    KeysAppend(acc, LastPair(k, vs));
    assert Keys(LastPair(k, vs)) == if vs == [] then [] else [k];
  }

  lemma FreshPastSnoc<V>(a: Assoc<V>, x: (string, V), k': string)
    requires k' !in Keys(a) && k' != x.0
    ensures k' !in Keys(a + [x])
  {
    KeysSnoc(a, x);
  }

  function ParentEntries(q: Query): seq<Entry> {
    seq(|q.ancestors|, i requires 0 <= i < |q.ancestors| => ParentEntry(q.ancestors[i]))
  }

  function ChildEntries(q: Query): seq<Entry> {
    seq(|q.children|, i requires 0 <= i < |q.children| => ChildEntry(q.children[i]))
  }

  lemma PageTrailAppends(q: Query, acc: Trail)
    requires HomeOnly(acc)
    ensures PageTrail(q, acc) == acc + PagePart(q)
  {
    assert "parent_page" !in Keys(acc) && "page" !in Keys(acc) && "child_page" !in Keys(acc);
    PutAllAroundPut(acc, "parent_page", ParentEntries(q), "page", Current(q.title), "child_page", ChildEntries(q));
    ParentsLeaveLast(q);
    ChildrenLeaveLast(q);
    ConcatAssoc4(acc, ParentPart(q), [("page", Current(q.title))], ChildPart(q));
  }

  lemma ParentsLeaveLast(q: Query)
    ensures LastPair("parent_page", ParentEntries(q)) == ParentPart(q)
  {
    if q.ancestors != [] {
      assert Last(ParentEntries(q)) == ParentEntry(Last(q.ancestors));
    }
  }

  lemma ChildrenLeaveLast(q: Query)
    ensures LastPair("child_page", ChildEntries(q)) == ChildPart(q)
  {
    if q.children != [] {
      assert Last(ChildEntries(q)) == ChildEntry(Last(q.children));
    }
  }

  lemma DayTrailAppends(q: Query, acc: Trail)
    requires HomeOnly(acc)
    ensures DayTrail(q, acc) == acc + DayPart(q)
  {
    assert "year_archive" !in Keys(acc) && "month_archive" !in Keys(acc) && "day_archive" !in Keys(acc);
    PutFresh3(acc, "year_archive", Level(q.year, q.yearLink), "month_archive", Level(q.monthName, q.monthLink),
              "day_archive", Current(q.day));
  }

  lemma MonthTrailAppends(q: Query, acc: Trail)
    requires HomeOnly(acc)
    ensures MonthTrail(q, acc) == acc + MonthPart(q)
  {
    assert "year_archive" !in Keys(acc) && "month_archive" !in Keys(acc);
    PutFresh2(acc, "year_archive", Level(q.year, q.yearLink), "month_archive", Current(q.monthName));
  }

  lemma BranchAppends(q: Query, acc: Trail)
    requires ViewOf(q) != FrontPage && HomeOnly(acc)
    ensures Branch(q, acc) == acc + TrailPart(q)
  {
    match ViewOf(q)
    case Post => PostTrailAppends(q, acc);
    case PageView => PageTrailAppends(q, acc);
    case Day => DayTrailAppends(q, acc);
    case Month => MonthTrailAppends(q, acc);
    case Category => PutFresh(acc, "category", Current(q.categoryTitle));
    case Tag => PutFresh(acc, "tag", Current(q.tagTitle));
    case Library => PutFresh(acc, "elementor_library", Current(q.title));
    case Year => PutFresh(acc, "year_archive", Current(q.year));
    case Author => PutFresh(acc, "author_archive", Current(q.authorName));
    case NotFound => PutFresh(acc, "Error 404", Current("Error 404"));
    case Shop => PutFresh(acc, "woocommerce", WooEntry);
    case Other => assert acc + [] == acc;
  }

  /** The assignments of get_data_breadcrumbs produce exactly the listed trail. */
  lemma GetDataBreadcrumbsIsReference(q: Query)
    ensures GetDataBreadcrumbs(q) == Reference(q)
  {
    if ViewOf(q) != FrontPage {
      HomeBaseIsHomePart(q);
      BranchAppends(q, HomePart(q));
    }
  }

  // ---------------------------------------------------------------------------
  // What the trail says
  // ---------------------------------------------------------------------------

  /** The keys of the active entries, in order. */
  function ActiveKeys(t: Trail): seq<string>
    decreases |t|
  {
    if t == [] then [] else (if t[0].1.isActive then [t[0].0] else []) + ActiveKeys(t[1..])
  }

  lemma {:induction false} ActiveKeysConcat(a: Trail, b: Trail)
    ensures ActiveKeys(a + b) == ActiveKeys(a) + ActiveKeys(b)
    decreases |a|
  {
    if a == [] {
      assert a + b == b;
    } else {
      var h := if a[0].1.isActive then [a[0].0] else [];
      assert (a + b)[0] == a[0];
      assert (a + b)[1..] == a[1..] + b;
      ActiveKeysConcat(a[1..], b);
      assert ActiveKeys(a + b) == h + ActiveKeys(a[1..] + b);
      ConcatAssoc(h, ActiveKeys(a[1..]), ActiveKeys(b));
    }
  }

  lemma {:induction false} ElementsInactive(pieces: seq<string>, from: nat, n: nat)
    ensures ActiveKeys(ElementPairs(pieces, from, n)) == []
    decreases n
  {
    if n > 0 {
      var e := ElementPairs(pieces, from, n);
      assert e[1..] == ElementPairs(pieces, from + 1, n - 1);
      assert e[0] == (ElementKey(from + 0), ElementEntry(pieces, from + 0));
      ElementsInactive(pieces, from + 1, n - 1);
    }
  }

  /** The key of the entry that marks the current view, if the view has one. */
  function CurrentKey(q: Query): seq<string> {
    match ViewOf(q)
    case FrontPage => if PageNum(q) > 1 then ["homepage"] else []
    case Post => ["post"]
    case PageView => ["page"]
    case Category => ["category"]
    case Tag => ["tag"]
    case Day => ["day_archive"]
    case Month => ["month_archive"]
    case Library => ["elementor_library"]
    case Year => ["year_archive"]
    case Author => ["author_archive"]
    case NotFound => ["Error 404"]
    case Shop => []
    case Other => []
  }

  lemma PageActive(q: Query)
    ensures ActiveKeys(PagePart(q)) == ["page"]
  {
    ActiveKeysConcat(ParentPart(q) + [("page", Current(q.title))], ChildPart(q));
    ActiveKeysConcat(ParentPart(q), [("page", Current(q.title))]);
  }

  lemma PostActive(q: Query)
    ensures ActiveKeys(PostPart(q)) == ["post"]
  {
    var elems := if q.categoryId != 0 then ElementPairs(Pieces(q), 0, CountTruthy(Pieces(q))) else [];
    ActiveKeysConcat(elems, [("post", Current(q.title))]);
    if q.categoryId != 0 {
      ElementsInactive(Pieces(q), 0, CountTruthy(Pieces(q)));
    }
  }

  /** Off the front page the trail is the home part followed by the view's own part. */
  lemma OffFrontPage(q: Query)
    requires ViewOf(q) != FrontPage
    ensures GetDataBreadcrumbs(q) == HomePart(q) + TrailPart(q)
  {
    GetDataBreadcrumbsIsReference(q);
  }

  lemma ActiveTrailPart(q: Query)
    requires ViewOf(q) != FrontPage
    ensures ActiveKeys(TrailPart(q)) == CurrentKey(q)
  {
    match ViewOf(q)
    case Post => PostActive(q);
    case PageView => PageActive(q);
    case Day =>
      var d := DayPart(q);
      ActiveKeysTriple(d[0], d[1], d[2]);
    case Month =>
      var m := MonthPart(q);
      ActiveKeysConcat([m[0]], [m[1]]);
    case _ =>
  }

  lemma ActiveKeysTriple(x: (string, Entry), y: (string, Entry), z: (string, Entry))
    ensures ActiveKeys([x, y, z]) == ActiveKeys([x]) + ActiveKeys([y]) + ActiveKeys([z])
  {
    ActiveKeysConcat([x], [y, z]);
    ActiveKeysConcat([y], [z]);
    assert [x] + [y, z] == [x, y, z];
  }

  /** Exactly the entry of the current view is active: at most one entry is, and
      none on a shop page, an unrecognised view or the first page of the front page. */
  lemma {:induction false} ActiveIsCurrentView(q: Query)
    ensures ActiveKeys(GetDataBreadcrumbs(q)) == CurrentKey(q)
    ensures |ActiveKeys(GetDataBreadcrumbs(q))| <= 1
  {
    if ViewOf(q) != FrontPage {
      ActiveOffFrontPage(q);
    } else {
      ActiveOnFrontPage(q);
    }
    CurrentKeyShort(q);
  }

  lemma ActiveOffFrontPage(q: Query)
    requires ViewOf(q) != FrontPage
    ensures ActiveKeys(GetDataBreadcrumbs(q)) == CurrentKey(q)
  {
    OffFrontPage(q);
    ActiveKeysConcat(HomePart(q), TrailPart(q));
    ActiveTrailPart(q);
    assert ActiveKeys(HomePart(q)) == [];
  }

  lemma ActiveOnFrontPage(q: Query)
    requires ViewOf(q) == FrontPage
    ensures ActiveKeys(GetDataBreadcrumbs(q)) == CurrentKey(q)
  {
  }

  lemma CurrentKeyShort(q: Query)
    ensures |CurrentKey(q)| <= 1
  {
  }

  /** Off the front page the home entry comes first, inactive, unless this is a
      shop page of an active shop plugin. */
  lemma HomeFirst(q: Query)
    requires !q.isFrontPage && !(WooActive(q) && q.isWoocommerce)
    ensures GetDataBreadcrumbs(q) != [] && GetDataBreadcrumbs(q)[0] == ("homepage", Home(q, false))
  {
    OffFrontPage(q);
  }

  /** On the front page the trail is empty on the first page and the single active
      home entry on any later page. */
  lemma FrontPageTrail(q: Query)
    requires q.isFrontPage
    ensures PageNum(q) <= 1 ==> GetDataBreadcrumbs(q) == []
    ensures PageNum(q) > 1 ==> GetDataBreadcrumbs(q) == [("homepage", Home(q, true))]
  {
  }

  lemma PagePartLookups(q: Query)
    ensures Get(PagePart(q), "parent_page") == if q.ancestors == [] then None else Some(ParentEntry(Last(q.ancestors)))
    ensures Get(PagePart(q), "page") == Some(Current(q.title))
    ensures Get(PagePart(q), "child_page") == if q.children == [] then None else Some(ChildEntry(Last(q.children)))
  {
    var p := ParentPart(q);
    var c := ChildPart(q);
    var mid := [("page", Current(q.title))];
    assert PagePart(q) == p + (mid + c);
    GetConcat(p, mid + c, "parent_page");
    GetConcat(p, mid + c, "page");
    GetConcat(p, mid + c, "child_page");
    GetConcat(mid, c, "parent_page");
    GetConcat(mid, c, "child_page");
  }

  /** On a page the parent entry holds the topmost ancestor (each step of the parent
      walk overwrites the one before), the child entry the last child, and both are
      absent when there is nothing to show. */
  lemma PageParentAndChild(q: Query)
    requires ViewOf(q) == PageView
    ensures Get(GetDataBreadcrumbs(q), "parent_page")
            == if q.ancestors == [] then None else Some(ParentEntry(Last(q.ancestors)))
    ensures Get(GetDataBreadcrumbs(q), "page") == Some(Current(q.title))
    ensures Get(GetDataBreadcrumbs(q), "child_page")
            == if q.children == [] then None else Some(ChildEntry(Last(q.children)))
  {
    OffFrontPage(q);
    HomeBaseIsHomePart(q);
    var h := HomePart(q);
    assert TrailPart(q) == PagePart(q);
    GetConcat(h, PagePart(q), "parent_page");
    GetConcat(h, PagePart(q), "page");
    GetConcat(h, PagePart(q), "child_page");
    PagePartLookups(q);
  }

  /** A post's category-parent entries come right after the home page, one per
      non-empty piece, numbered from 0, each holding the piece at its own index. */
  lemma PostElements(q: Query)
    requires ViewOf(q) == Post && q.categoryId != 0
    ensures GetDataBreadcrumbs(q)
            == HomePart(q) + ElementPairs(Pieces(q), 0, CountTruthy(Pieces(q))) + [("post", Current(q.title))]
  {
    OffFrontPage(q);
    var e := ElementPairs(Pieces(q), 0, CountTruthy(Pieces(q)));
    var p := [("post", Current(q.title))];
    assert TrailPart(q) == e + p;
    ConcatAssoc(HomePart(q), e, p);
  }

  // ---------------------------------------------------------------------------
  // No key is held twice
  // ---------------------------------------------------------------------------

  lemma {:induction false} PutAllDistinct(acc: Trail, k: string, vs: seq<Entry>)
    requires DistinctKeys(acc)
    ensures DistinctKeys(PutAll(acc, k, vs))
    decreases |vs|
  {
    if vs != [] {
      PutAllDistinct(Put(acc, k, vs[0]), k, vs[1..]);
    }
  }

  lemma {:induction false} PutElementsDistinct(acc: Trail, pieces: seq<string>, count: nat, i: nat)
    requires DistinctKeys(acc)
    ensures DistinctKeys(PutElements(acc, pieces, count, i))
    decreases count - i
  {
    if i < count {
      PutElementsDistinct(Put(acc, ElementKey(i), ElementEntry(pieces, i)), pieces, count, i + 1);
    }
  }

  /** Every trail holds each key at most once, so the lookups above are unambiguous. */
  lemma KeysDistinct(q: Query)
    ensures DistinctKeys(GetDataBreadcrumbs(q))
  {
    if ViewOf(q) != FrontPage {
      var acc := HomeBase(q);
      match ViewOf(q)
      case Post =>
        if q.categoryId != 0 {
          PutElementsDistinct(acc, Pieces(q), CountTruthy(Pieces(q)), 0);
        }
      case PageView =>
        PutAllDistinct(acc, "parent_page", ParentEntries(q));
        var page := Put(PutAll(acc, "parent_page", ParentEntries(q)), "page", Current(q.title));
        PutAllDistinct(page, "child_page", ChildEntries(q));
      case _ =>
    }
  }

  // ---------------------------------------------------------------------------
  // Category-parent entries
  // ---------------------------------------------------------------------------

  lemma {:induction false} CountTruthyAppend(p: seq<string>, x: string)
    ensures CountTruthy(p + [x]) == CountTruthy(p) + (if Truthy(x) then 1 else 0)
    decreases |p|
  {
    if p == [] {
      assert p + [x] == [x];
    } else {
      assert (p + [x])[0] == p[0];
      assert (p + [x])[1..] == p[1..] + [x];
      CountTruthyAppend(p[1..], x);
    }
  }

  lemma {:induction false} CountTruthyAll(p: seq<string>)
    requires forall i :: 0 <= i < |p| ==> Truthy(p[i])
    ensures CountTruthy(p) == |p|
    decreases |p|
  {
    if p != [] {
      assert Truthy(p[0]);
      CountTruthyAll(p[1..]);
    }
  }

  /** When the only empty piece is the last one (the trailing separator the parent
      list ends with), every category-parent entry holds the piece at its index. */
  lemma ElementsHoldPieces(pieces: seq<string>)
    requires pieces != []
    requires forall i :: 0 <= i < |pieces| - 1 ==> Truthy(pieces[i])
    ensures CountTruthy(pieces) >= |pieces| - 1
    ensures forall i :: 0 <= i < CountTruthy(pieces) ==> ElementEntry(pieces, i).element == Some(pieces[i])
  {
    var init := pieces[..|pieces| - 1];
    assert init + [pieces[|pieces| - 1]] == pieces;
    CountTruthyAll(init);
    CountTruthyAppend(init, pieces[|pieces| - 1]);
  }

  /** An empty piece in the middle makes the loop read a hole (an entry without
      markup) and stop before the last piece. */
  lemma ElementsSkipAfterGap()
    ensures CountTruthy(["a", "", "b"]) == 2
    ensures ElementEntry(["a", "", "b"], 1).element == None
  {
    var p := ["a", "", "b"];
    assert p[1..] == ["", "b"];
    assert p[1..][1..] == ["b"];
    assert p[1..][1..][1..] == [];
  }
}
