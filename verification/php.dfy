/**
 * The parts of PHP's runtime that the plugin's core depends on: truthiness of
 * strings, insertion-ordered arrays with overwrite-in-place assignment, and the
 * few string functions the core calls (strpos, explode, implode, str_replace,
 * ucfirst, integer-to-string conversion).
 */
module Php {

  datatype Option<+T> = None | Some(value: T)

  /** A PHP string is falsy exactly when it is "" or "0" (`empty()` is its negation). */
  predicate Truthy(s: string) {
    s != "" && s != "0"
  }

  // ---------------------------------------------------------------------------
  // Ordered arrays
  // ---------------------------------------------------------------------------

  /** A PHP array with string keys: key/value pairs in insertion order. */
  type Assoc<V> = seq<(string, V)>

  function Keys<V>(a: Assoc<V>): seq<string> {
    seq(|a|, i requires 0 <= i < |a| => a[i].0)
  }

  /** PHP never holds a key twice; every array built with `Put` keeps this. */
  predicate DistinctKeys<V>(a: Assoc<V>) {
    forall i, j :: 0 <= i < j < |a| ==> a[i].0 != a[j].0
  }

  /** `$a[$k] ?? null` */
  function Get<V>(a: Assoc<V>, k: string): (r: Option<V>)
    ensures r.None? <==> k !in Keys(a)
    ensures r.Some? ==> (k, r.value) in a
  {
    if a == [] then None
    else
      KeysCons(a);
      if a[0].0 == k then Some(a[0].1) else Get(a[1..], k)
  }

  lemma KeysCons<V>(a: Assoc<V>)
    requires a != []
    ensures Keys(a) == [a[0].0] + Keys(a[1..])
  {
  }

  /** `$a[$k] = $v`: an existing key keeps its position and gets the new value,
      a new key is appended at the end. */
  function Put<V>(a: Assoc<V>, k: string, v: V): (r: Assoc<V>)
    ensures Keys(r) == if k in Keys(a) then Keys(a) else Keys(a) + [k]
    ensures Get(r, k) == Some(v)
    ensures forall k' :: k' != k ==> Get(r, k') == Get(a, k')
    ensures DistinctKeys(a) ==> DistinctKeys(r)
    decreases |a|
  {
    if a == [] then [(k, v)]
    else if a[0].0 == k then
      PutHere(a, k, v);
      [(k, v)] + a[1..]
    else
      var t := Put(a[1..], k, v);
      PutFurther(a, k, v, t);
      [a[0]] + t
  }

  /** Overwriting the first pair's value. */
  lemma PutHere<V>(a: Assoc<V>, k: string, v: V)
    requires a != [] && a[0].0 == k
    ensures var r := [(k, v)] + a[1..];
            && Keys(r) == Keys(a)
            && Get(r, k) == Some(v)
            && (forall k' :: k' != k ==> Get(r, k') == Get(a, k'))
            && (DistinctKeys(a) ==> DistinctKeys(r))
  {
    var r := [(k, v)] + a[1..];
    KeysCons(a);
    KeysCons(r);
    assert r[1..] == a[1..];
    if DistinctKeys(a) {
      forall i, j | 0 <= i < j < |r| ensures r[i].0 != r[j].0 {
        assert r[i].0 == a[i].0 && r[j].0 == a[j].0;
      }
    }
  }

  /** Assigning past the first pair, given what the assignment does to the rest. */
  lemma PutFurther<V>(a: Assoc<V>, k: string, v: V, t: Assoc<V>)
    requires a != [] && a[0].0 != k
    requires Keys(t) == if k in Keys(a[1..]) then Keys(a[1..]) else Keys(a[1..]) + [k]
    requires Get(t, k) == Some(v)
    requires forall k' :: k' != k ==> Get(t, k') == Get(a[1..], k')
    requires DistinctKeys(a[1..]) ==> DistinctKeys(t)
    ensures var r := [a[0]] + t;
            && Keys(r) == (if k in Keys(a) then Keys(a) else Keys(a) + [k])
            && Get(r, k) == Some(v)
            && (forall k' :: k' != k ==> Get(r, k') == Get(a, k'))
            && (DistinctKeys(a) ==> DistinctKeys(r))
  {
    KeysCons(a);
    KeysCons([a[0]] + t);
    assert ([a[0]] + t)[1..] == t;
    forall k' | k' != k ensures Get([a[0]] + t, k') == Get(a, k') {
      GetCons(a, t, k');
    }
    GetCons(a, t, k);
    if DistinctKeys(a) {
      TailDistinct(a);
      ConsDistinct(a, t);
    }
  }

  /** Looking up in an array whose first pair is `a`'s and whose rest is `t`. */
  lemma GetCons<V>(a: Assoc<V>, t: Assoc<V>, k: string)
    requires a != []
    ensures Get([a[0]] + t, k) == if a[0].0 == k then Some(a[0].1) else Get(t, k)
    ensures Get(a, k) == if a[0].0 == k then Some(a[0].1) else Get(a[1..], k)
  {
    assert ([a[0]] + t)[1..] == t;
  }

  lemma TailDistinct<V>(a: Assoc<V>)
    requires a != [] && DistinctKeys(a)
    ensures DistinctKeys(a[1..]) && a[0].0 !in Keys(a[1..])
  {
    forall i, j | 0 <= i < j < |a[1..]| ensures a[1..][i].0 != a[1..][j].0 {
      assert a[1..][i] == a[i + 1] && a[1..][j] == a[j + 1];
    }
    forall i | 0 <= i < |a[1..]| ensures Keys(a[1..])[i] != a[0].0 {
      assert a[1..][i] == a[i + 1];
    }
  }

  lemma ConsDistinct<V>(a: Assoc<V>, t: Assoc<V>)
    requires a != [] && DistinctKeys(t) && a[0].0 !in Keys(t)
    ensures DistinctKeys([a[0]] + t)
  {
    var r := [a[0]] + t;
    forall i, j | 0 <= i < j < |r| ensures r[i].0 != r[j].0 {
      if i == 0 {
        assert r[j].0 == Keys(t)[j - 1];
      } else {
        assert r[i] == t[i - 1] && r[j] == t[j - 1];
      }
    }
  }

  /** Assigning a key the array does not hold appends the pair. */
  lemma {:induction false} PutFresh<V>(a: Assoc<V>, k: string, v: V)
    requires k !in Keys(a)
    ensures Put(a, k, v) == a + [(k, v)]
    decreases |a|
  {
    if a != [] {
      KeysCons(a);
      assert a[0].0 != k;
      PutCons(a, k, v);
      PutFresh(a[1..], k, v);
      ConsAssoc(a, [(k, v)]);
    }
  }

  lemma PutCons<V>(a: Assoc<V>, k: string, w: V)
    requires a != [] && a[0].0 != k
    ensures Put(a, k, w) == [a[0]] + Put(a[1..], k, w)
  {
  }

  lemma PutConcatCons<V>(a: Assoc<V>, b: Assoc<V>, k: string, w: V)
    requires a != [] && a[0].0 != k
    ensures Put(a + b, k, w) == [a[0]] + Put(a[1..] + b, k, w)
  {
    var ab := a + b;
    assert ab[0] == a[0];
    assert ab[1..] == a[1..] + b;
    PutCons(ab, k, w);
  }

  lemma ConsAssoc<V>(a: seq<V>, x: seq<V>)
    requires a != []
    ensures [a[0]] + (a[1..] + x) == a + x
  {
    assert a == [a[0]] + a[1..];
  }

  /** Assigning a key that a prefix lacks leaves the prefix alone. */
  lemma {:induction false} PutSkip<V>(a: Assoc<V>, b: Assoc<V>, k: string, w: V)
    requires k !in Keys(a)
    ensures Put(a + b, k, w) == a + Put(b, k, w)
    decreases |a|
  {
    if a == [] {
      assert a + b == b;
    } else {
      KeysCons(a);
      PutConcatCons(a, b, k, w);
      PutSkip(a[1..], b, k, w);
      ConsAssoc(a, Put(b, k, w));
    }
  }

  /** Assigning the key of the last pair again replaces that pair's value. */
  lemma PutLastAgain<V>(a: Assoc<V>, k: string, v: V, w: V)
    requires k !in Keys(a)
    ensures Put(a + [(k, v)], k, w) == a + [(k, w)]
  {
    PutSkip(a, [(k, v)], k, w);
    assert [(k, v)][1..] == [];
  }

  lemma KeysAppend<V>(a: Assoc<V>, b: Assoc<V>)
    ensures Keys(a + b) == Keys(a) + Keys(b)
  {
  }

  lemma ConcatPairs<T>(a: seq<T>, x: T, y: T)
    ensures a + [x] + [y] == a + [x, y]
  {
  }

  lemma ConcatTriple<T>(a: seq<T>, x: T, y: T, z: T)
    ensures a + [x, y] + [z] == a + [x, y, z]
  {
  }

  /** Two assignments to distinct fresh keys append two pairs in order. */
  lemma PutFresh2<V>(a: Assoc<V>, k1: string, v1: V, k2: string, v2: V)
    requires k1 !in Keys(a) && k2 !in Keys(a) && k1 != k2
    ensures Put(Put(a, k1, v1), k2, v2) == a + [(k1, v1), (k2, v2)]
  {
    PutFresh(a, k1, v1);
    KeysAppend(a, [(k1, v1)]);
    assert Keys([(k1, v1)]) == [k1];
    PutFresh(a + [(k1, v1)], k2, v2);
    ConcatPairs(a, (k1, v1), (k2, v2));
  }

  /** Three assignments to distinct fresh keys append three pairs in order. */
  lemma PutFresh3<V>(a: Assoc<V>, k1: string, v1: V, k2: string, v2: V, k3: string, v3: V)
    requires k1 !in Keys(a) && k2 !in Keys(a) && k3 !in Keys(a)
    requires k1 != k2 && k1 != k3 && k2 != k3
    ensures Put(Put(Put(a, k1, v1), k2, v2), k3, v3) == a + [(k1, v1), (k2, v2), (k3, v3)]
  {
    var b := a + [(k1, v1)];
    PutFresh(a, k1, v1);
    KeysSnoc(a, (k1, v1));
    PutFresh2(b, k2, v2, k3, v3);
    SnocPair(a, (k1, v1), (k2, v2), (k3, v3));
  }

  lemma KeysSnoc<V>(a: Assoc<V>, x: (string, V))
    ensures Keys(a + [x]) == Keys(a) + [x.0]
  {
  }

  lemma SnocPair<T>(a: seq<T>, x: T, y: T, z: T)
    ensures a + [x] + [y, z] == a + [x, y, z]
  {
  }

  /** Looking a key up in a concatenation finds it in the first part when it is there. */
  lemma {:induction false} GetConcat<V>(a: Assoc<V>, b: Assoc<V>, k: string)
    ensures Get(a + b, k) == if k in Keys(a) then Get(a, k) else Get(b, k)
    decreases |a|
  {
    if a == [] {
      assert a + b == b;
    } else {
      KeysCons(a);
      assert (a + b)[0] == a[0];
      assert (a + b)[1..] == a[1..] + b;
      GetConcat(a[1..], b, k);
    }
  }

  /** In an array with distinct keys, the pair at position `i` is what `Get` sees. */
  lemma {:induction false} GetAt<V>(a: Assoc<V>, i: nat)
    requires DistinctKeys(a) && i < |a|
    ensures Get(a, a[i].0) == Some(a[i].1)
  {
    if i > 0 {
      assert a[0].0 != a[i].0;
      assert a[1..][i - 1] == a[i];
      GetAt(a[1..], i - 1);
    }
  }

  // ---------------------------------------------------------------------------
  // Searching
  // ---------------------------------------------------------------------------

  /** `n` occurs in `s` starting at index `i`. */
  predicate OccursAt(s: string, n: string, i: int) {
    0 <= i && i + |n| <= |s| && s[i..i + |n|] == n
  }

  lemma PrefixOccurs(s: string, n: string)
    ensures n <= s <==> OccursAt(s, n, 0)
  {
    if n <= s {
      assert s[0..|n|] == n;
    }
  }

  /** Occurrences in `s[1..]` are the occurrences in `s` past index 0, shifted by one. */
  lemma OccursShift(s: string, n: string)
    requires |s| > 0
    ensures forall j {:trigger OccursAt(s, n, j)} :: j >= 1 ==> (OccursAt(s, n, j) <==> OccursAt(s[1..], n, j - 1))
  {
    forall j | j >= 1
      ensures OccursAt(s, n, j) <==> OccursAt(s[1..], n, j - 1)
    {
      if j + |n| <= |s| {
        assert s[1..][j - 1..j - 1 + |n|] == s[j..j + |n|];
      }
    }
  }

  /** `strpos($s, $n)`: the first occurrence; `None` stands for PHP's `false`. */
  function StrPos(s: string, n: string): (r: Option<nat>)
    ensures r.Some? ==> OccursAt(s, n, r.value)
    ensures r.Some? ==> forall j :: 0 <= j < r.value ==> !OccursAt(s, n, j)
    ensures r.None? ==> forall j :: !OccursAt(s, n, j)
    decreases |s|
  {
    PrefixOccurs(s, n);
    if n <= s then Some(0)
    else if s == [] then None
    else
      OccursShift(s, n);
      match StrPos(s[1..], n)
      case None => None
      case Some(i) => Some(i + 1)
  }

  /** An occurrence with none before it is the one `strpos` reports. */
  lemma StrPosIs(s: string, n: string, i: nat)
    requires OccursAt(s, n, i)
    requires forall j :: 0 <= j < i ==> !OccursAt(s, n, j)
    ensures StrPos(s, n) == Some(i)
  {
  }

  /** A first occurrence that ends inside `a` stays the first occurrence in `a + b`. */
  lemma {:induction false} StrPosExtend(a: string, b: string, n: string, i: nat)
    requires StrPos(a, n) == Some(i) && i + |n| <= |a|
    ensures StrPos(a + b, n) == Some(i)
  {
    var s := a + b;
    forall j | 0 <= j < i
      ensures !OccursAt(s, n, j)
    {
      assert !OccursAt(a, n, j);
      assert s[j..j + |n|] == a[j..j + |n|];
    }
    assert s[i..i + |n|] == a[i..i + |n|];
    StrPosIs(s, n, i);
  }

  /** Nothing before the first occurrence contains the needle. */
  lemma NoOccurrenceBefore(s: string, n: string, i: nat)
    requires n != [] && StrPos(s, n) == Some(i)
    ensures StrPos(s[..i], n).None?
  {
    var t := s[..i];
    forall j | 0 <= j && j + |n| <= |t|
      ensures !OccursAt(t, n, j)
    {
      assert t[j..j + |n|] == s[j..j + |n|];
      assert j < i && (OccursAt(t, n, j) ==> OccursAt(s, n, j));
    }
  }

  /** An occurrence starts with the needle's first character. */
  lemma OccursHead(s: string, n: string, i: int)
    requires n != [] && OccursAt(s, n, i)
    ensures s[i] == n[0]
  {
    assert s[i..i + |n|][0] == s[i];
  }

  /** A single character that a string lacks cannot be searched for in it. */
  lemma StrPosCharAbsent(s: string, c: char)
    ensures StrPos(s, [c]).None? <==> c !in s
  {
    if c in s {
      var i :| 0 <= i < |s| && s[i] == c;
      assert s[i..i + 1] == [c];
      assert OccursAt(s, [c], i);
    }
    if StrPos(s, [c]).Some? {
      OccursHead(s, [c], StrPos(s, [c]).value);
    }
  }

  /** A separator whose first character is absent from `p` closes `p` off. */
  lemma SeparatedByFresh(p: string, sep: string)
    requires sep != [] && sep[0] !in p
    ensures SeparatedBy(p, sep)
    ensures StrPos(p, sep).None?
  {
    FreshNotFound(p, sep);
    FreshFoundAtEnd(p, sep);
  }

  lemma FreshNotFound(p: string, sep: string)
    requires sep != [] && sep[0] !in p
    ensures StrPos(p, sep).None?
  {
    if StrPos(p, sep).Some? {
      OccursHead(p, sep, StrPos(p, sep).value);
    }
  }

  lemma {:induction false} FreshFoundAtEnd(p: string, sep: string)
    requires sep != [] && sep[0] !in p
    ensures StrPos(p + sep, sep) == Some(|p|)
  {
    var s := p + sep;
    assert s[|p|..|p| + |sep|] == sep;
    assert OccursAt(s, sep, |p|);
    var r := StrPos(s, sep);
    OccursHead(s, sep, r.value);
  }

  // ---------------------------------------------------------------------------
  // explode / implode / str_replace
  // ---------------------------------------------------------------------------

  /** `explode($sep, $s)` for a non-empty separator: the pieces between occurrences. */
  function Explode(sep: string, s: string): (parts: seq<string>)
    requires sep != []
    ensures |parts| >= 1
    ensures forall p :: p in parts ==> StrPos(p, sep).None?
    decreases |s|
  {
    match StrPos(s, sep)
    case None => [s]
    case Some(i) =>
      NoOccurrenceBefore(s, sep, i);
      [s[..i]] + Explode(sep, s[i + |sep|..])
  }

  /** The first piece of `explode` is the text before the first separator. */
  lemma ExplodeFirst(sep: string, s: string)
    requires sep != []
    ensures Explode(sep, s)[0] <= s
    ensures StrPos(s, sep).None? ==> Explode(sep, s) == [s]
  {
  }

  /** `implode($glue, $parts)` */
  function Implode(glue: string, parts: seq<string>): string {
    if parts == [] then ""
    else if |parts| == 1 then parts[0]
    else parts[0] + glue + Implode(glue, parts[1..])
  }

  /** Gluing the pieces of `explode` back with the separator restores the string. */
  lemma {:induction false} ImplodeExplode(sep: string, s: string)
    requires sep != []
    ensures Implode(sep, Explode(sep, s)) == s
    decreases |s|
  {
    match StrPos(s, sep)
    case None =>
    case Some(i) =>
      var rest := s[i + |sep|..];
      var parts := Explode(sep, s);
      assert parts == [s[..i]] + Explode(sep, rest);
      assert parts[0] == s[..i] && parts[1..] == Explode(sep, rest) && |parts| >= 2;
      assert Implode(sep, parts) == s[..i] + sep + Implode(sep, Explode(sep, rest));
      ImplodeExplode(sep, rest);
      assert OccursAt(s, sep, i);
      assert s == s[..i] + s[i..i + |sep|] + rest;
  }

  /** Each part is closed off by the separator: the first occurrence of `sep` in
      `p + sep` is the one appended. */
  predicate SeparatedBy(p: string, sep: string) {
    StrPos(p + sep, sep) == Some(|p|)
  }

  /** Splitting imploded parts gives the parts back, when every part but the last is
      closed off by the separator and the last does not contain it. */
  lemma {:induction false} ExplodeImplode(sep: string, parts: seq<string>)
    requires sep != [] && |parts| >= 1
    requires forall k :: 0 <= k < |parts| - 1 ==> SeparatedBy(parts[k], sep)
    requires StrPos(parts[|parts| - 1], sep).None?
    ensures Explode(sep, Implode(sep, parts)) == parts
  {
    if |parts| > 1 {
      var p := parts[0];
      var rest := Implode(sep, parts[1..]);
      var s := p + sep + rest;
      assert SeparatedBy(parts[0], sep);
      StrPosExtend(p + sep, rest, sep, |p|);
      AroundMiddle(p, sep, rest);
      assert Explode(sep, s) == [p] + Explode(sep, rest);
      ExplodeImplode(sep, parts[1..]);
      assert [p] + parts[1..] == parts;
    }
  }

  /** `str_replace($n, $r, $s)` for one non-empty needle: a left-to-right scan that
      replaces non-overlapping occurrences and does not rescan the replaced text. */
  function StrReplace(n: string, r: string, s: string): string
    requires n != []
    decreases |s|
  {
    if n <= s then r + StrReplace(n, r, s[|n|..])
    else if s == [] then []
    else [s[0]] + StrReplace(n, r, s[1..])
  }

  lemma {:induction false} StrReplaceNoMatch(n: string, r: string, s: string)
    requires n != [] && StrPos(s, n).None?
    ensures StrReplace(n, r, s) == s
    decreases |s|
  {
    if s != [] {
      PrefixOccurs(s, n);
      OccursShift(s, n);
      assert StrPos(s[1..], n).None?;
      StrReplaceNoMatch(n, r, s[1..]);
    }
  }

  /** Dropping a first character that does not start a match moves the first match one to the left. */
  lemma StrPosTail(s: string, n: string, i: nat)
    requires StrPos(s, n) == Some(i) && i > 0
    ensures StrPos(s[1..], n) == Some(i - 1)
  {
    OccursShift(s, n);
    assert OccursAt(s[1..], n, i - 1);
  }

  /** `str_replace` keeps what comes before the match at `i`, replaces it, and goes on after it. */
  lemma {:induction false} StrReplaceFirstMatch(n: string, r: string, s: string, i: nat)
    requires n != [] && StrPos(s, n) == Some(i)
    ensures StrReplace(n, r, s) == s[..i] + r + StrReplace(n, r, s[i + |n|..])
  {
    ReplacedAtFirstMatch(n, r, s, i);
  }

  /** When the first match sits right after `p`, `p` is kept and the rest is replaced on. */
  lemma StrReplaceAfter(n: string, r: string, p: string, rest: string)
    requires n != [] && StrPos(p + n + rest, n) == Some(|p|)
    ensures StrReplace(n, r, p + n + rest) == p + r + StrReplace(n, r, rest)
  {
    var s := p + n + rest;
    ReplacedAtFirstMatch(n, r, s, |p|);
    AroundMiddle(p, n, rest);
  }

  /** The same for a removal: `p` is kept and the match dropped. */
  lemma {:induction false} StrRemoveAfter(n: string, p: string, rest: string)
    requires n != [] && StrPos(p + n + rest, n) == Some(|p|)
    ensures StrReplace(n, "", p + n + rest) == p + StrReplace(n, "", rest)
  {
    StrReplaceAfter(n, "", p, rest);
    assert p + "" == p;
  }

  predicate ReplacedAt(n: string, r: string, s: string, i: nat)
    requires n != [] && i + |n| <= |s|
  {
    StrReplace(n, r, s) == s[..i] + r + StrReplace(n, r, s[i + |n|..])
  }

  lemma {:induction false} ReplacedAtFirstMatch(n: string, r: string, s: string, i: nat)
    requires n != [] && StrPos(s, n) == Some(i)
    ensures i + |n| <= |s| && ReplacedAt(n, r, s, i)
    decreases i
  {
    PrefixOccurs(s, n);
    if i == 0 {
      assert s[..0] + r == r;
    } else {
      StrPosTail(s, n, i);
      ReplacedAtFirstMatch(n, r, s[1..], i - 1);
      StrReplaceStep(n, r, s, i);
    }
  }

  /** One step of the scan: a first character that starts no match is kept. */
  lemma StrReplaceStep(n: string, r: string, s: string, i: nat)
    requires n != [] && 0 < i && i + |n| <= |s| && !(n <= s)
    requires ReplacedAt(n, r, s[1..], i - 1)
    ensures ReplacedAt(n, r, s, i)
  {
    var t := s[1..];
    var x := StrReplace(n, r, t[i - 1 + |n|..]);
    StrReplaceSkip(n, r, s);
    ConsStep(s, i, r, x, StrReplace(n, r, s), StrReplace(n, r, t));
    ShiftSlices(s, i, |n|);
  }

  lemma ConsStep<T>(s: seq<T>, i: nat, r: seq<T>, x: seq<T>, y: seq<T>, z: seq<T>)
    requires 0 < i <= |s| && y == [s[0]] + z && z == s[1..][..i - 1] + r + x
    ensures y == s[..i] + r + x
  {
    ConsConcat(s[0], s[1..][..i - 1], r, x);
    assert [s[0]] + s[1..][..i - 1] == s[..i];
  }

  lemma StrReplaceSkip(n: string, r: string, s: string)
    requires n != [] && s != [] && !(n <= s)
    ensures StrReplace(n, r, s) == [s[0]] + StrReplace(n, r, s[1..])
  {
  }

  lemma ShiftSlices<T>(s: seq<T>, i: nat, m: nat)
    requires 0 < i && i + m <= |s|
    ensures s[1..][i - 1 + m..] == s[i + m..]
    ensures [s[0]] + s[1..][..i - 1] == s[..i]
  {
  }

  /** A one-entry array. */
  lemma Single<V>(k0: string, v0: V)
    ensures Keys([(k0, v0)]) == [k0]
    ensures Get([(k0, v0)], k0) == Some(v0)
  {
    assert Keys([(k0, v0)])[0] == k0;
  }

  /** A second key put into a one-entry array goes after the first. */
  lemma PutSecond<V>(k0: string, v0: V, k: string, v: V)
    requires k != k0
    ensures Keys(Put([(k0, v0)], k, v)) == [k0, k]
    ensures Get(Put([(k0, v0)], k, v), k0) == Some(v0)
    ensures Get(Put([(k0, v0)], k, v), k) == Some(v)
  {
    Single(k0, v0);
  }

  lemma ConcatAssoc<T>(a: seq<T>, b: seq<T>, c: seq<T>)
    ensures a + (b + c) == a + b + c
  {
  }

  lemma ConcatAssoc4<T>(a: seq<T>, b: seq<T>, c: seq<T>, d: seq<T>)
    ensures a + b + c + d == a + (b + c + d)
  {
  }

  /** The outer pieces of `a + b + c` can be cut back out. */
  lemma AroundMiddle<T>(a: seq<T>, b: seq<T>, c: seq<T>)
    ensures (a + b + c)[..|a|] == a && (a + b + c)[|a| + |b|..] == c
  {
  }

  lemma SplitAfter<T>(a: seq<T>, b: seq<T>)
    ensures var e := a + b;
            |e| >= |b| && e[..|e| - |b|] == a && e[|e| - |b|..] == b
  {
  }

  lemma ConsConcat<T>(c: T, p: seq<T>, q: seq<T>, x: seq<T>)
    ensures [c] + (p + q + x) == ([c] + p) + q + x
  {
  }

  /** str_replace is explode followed by implode with the replacement as glue. */
  lemma {:induction false} StrReplaceIsImplodeExplode(n: string, r: string, s: string)
    requires n != []
    ensures StrReplace(n, r, s) == Implode(r, Explode(n, s))
    decreases |s|
  {
    match StrPos(s, n)
    case None =>
      StrReplaceNoMatch(n, r, s);
    case Some(i) =>
      var rest := s[i + |n|..];
      var parts := Explode(n, s);
      assert parts == [s[..i]] + Explode(n, rest);
      assert parts[0] == s[..i] && parts[1..] == Explode(n, rest) && |parts| >= 2;
      assert Implode(r, parts) == s[..i] + r + Implode(r, Explode(n, rest));
      StrReplaceFirstMatch(n, r, s, i);
      StrReplaceIsImplodeExplode(n, r, rest);
  }

  /** The characters of `s` other than `c`, in order. */
  function Without(s: string, c: char): (r: string)
    ensures c !in r
    ensures forall x :: x != c ==> (x in r <==> x in s)
    ensures |r| <= |s|
  {
    if s == [] then []
    else if s[0] == c then Without(s[1..], c)
    else [s[0]] + Without(s[1..], c)
  }

  /** Replacing a one-character needle by nothing deletes that character. */
  lemma {:induction false} StrReplaceCharIsWithout(c: char, s: string)
    ensures StrReplace([c], "", s) == Without(s, c)
    decreases |s|
  {
    if s != [] {
      StrReplaceCharIsWithout(c, s[1..]);
      if [c] <= s {
        assert s[0] == c;
        assert s[|[c]|..] == s[1..];
      } else {
        assert s[0] != c;
      }
    }
  }

  // ---------------------------------------------------------------------------
  // Case and integers
  // ---------------------------------------------------------------------------

  predicate IsLowerAscii(c: char) { 'a' <= c <= 'z' }

  /** `ucfirst($s)`: upper-cases an ASCII lower-case first letter, leaves the rest. */
  function UcFirst(s: string): (r: string)
    ensures |r| == |s|
    ensures s != [] ==> r[1..] == s[1..]
    ensures s != [] && IsLowerAscii(s[0]) ==> 'A' <= r[0] <= 'Z' && r[0] as int == s[0] as int - 32
    ensures s != [] && !IsLowerAscii(s[0]) ==> r == s
  {
    if s != [] && IsLowerAscii(s[0]) then [(s[0] as int - 32) as char] + s[1..] else s
  }

  function DigitChar(d: nat): char
    requires d < 10
  {
    ('0' as int + d) as char
  }

  /** PHP's decimal rendering of a non-negative integer (`'element_' . $i`). */
  function NatToString(n: nat): (r: string)
    ensures |r| >= 1
    ensures forall c :: c in r ==> '0' <= c <= '9'
    decreases n
  {
    if n < 10 then [DigitChar(n)] else NatToString(n / 10) + [DigitChar(n % 10)]
  }

  /** Distinct integers render as distinct strings. */
  lemma {:induction false} NatToStringInjective(a: nat, b: nat)
    requires NatToString(a) == NatToString(b)
    ensures a == b
    decreases a
  {
    var s := NatToString(a);
    if a >= 10 && b >= 10 {
      var sa := NatToString(a / 10);
      var sb := NatToString(b / 10);
      assert s[|s| - 1] == DigitChar(a % 10) == DigitChar(b % 10);
      assert sa == s[..|s| - 1] == sb;
      NatToStringInjective(a / 10, b / 10);
    }
  }
}
