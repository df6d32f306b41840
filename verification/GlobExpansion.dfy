// Brace expansion (internal/action/glob.go) on the syntax tree of a pattern: a
// sequence of plain characters and brace groups of alternative patterns.
module GlobExpansion {
  datatype Pattern = Pattern(items: seq<Item>)

  datatype Item = Plain(character: char) | Group(alternatives: seq<Pattern>)

  const MAX_PROGRAMS := 1024
  const MAX_STATES := 16384
  const MAX_GROUP_ALTERNATIVES := 1024

  // Every group has an alternative, as splitting a body at its commas always gives one.
  predicate WellFormed(items: seq<Item>) {
    items != [] ==>
      && WellFormed(items[1..])
      && (items[0].Group? ==>
            && items[0].alternatives != []
            && forall k :: 0 <= k < |items[0].alternatives| ==> WellFormed(items[0].alternatives[k].items))
  }

  // ------------------------------------------------------------------ denotation

  // The strings that a pattern stands for.
  ghost predicate Denotes(items: seq<Item>, s: seq<char>)
    decreases items
  {
    if items == [] then s == []
    else
      match items[0]
      case Plain(c) => s != [] && s[0] == c && Denotes(items[1..], s[1..])
      case Group(alternatives) =>
        exists n, k ::
          && 0 <= n <= |s| && 0 <= k < |alternatives|
          && Denotes(alternatives[k].items, s[..n]) && Denotes(items[1..], s[n..])
  }

  // ----------------------------------------------------------------- the expansion

  // The position of the first group, or the length of the pattern.
  function FirstGroup(items: seq<Item>): (k: nat)
    ensures k <= |items| && (k < |items| ==> items[k].Group?)
    ensures forall i :: 0 <= i < k ==> items[i].Plain?
  {
    if items == [] || items[0].Group? then 0 else 1 + FirstGroup(items[1..])
  }

  function Replace(items: seq<Item>, at: nat, alternative: Pattern): seq<Item>
    requires at < |items|
  {
    items[..at] + alternative.items + items[at + 1..]
  }

  function Characters(items: seq<Item>): (s: seq<char>)
    requires forall i :: 0 <= i < |items| ==> items[i].Plain?
    ensures |s| == |items| && forall i :: 0 <= i < |s| ==> s[i] == items[i].character
  {
    if items == [] then [] else [items[0].character] + Characters(items[1..])
  }

  lemma {:induction false} DenotesConcat(a: seq<Item>, b: seq<Item>, s: seq<char>, n: nat)
    requires n <= |s| && Denotes(a, s[..n]) && Denotes(b, s[n..])
    ensures Denotes(a + b, s)
    decreases a
  {
    if a == [] {
      assert a + b == b && s[n..] == s;
    } else {
      assert (a + b)[1..] == a[1..] + b;
      match a[0]
      case Plain(c) =>
        assert s[..n][1..] == s[1..][..n - 1] && s[1..][n - 1..] == s[n..];
        DenotesConcat(a[1..], b, s[1..], n - 1);
      case Group(alternatives) =>
        var m, k :| 0 <= m <= n && 0 <= k < |alternatives|
                    && Denotes(alternatives[k].items, s[..n][..m]) && Denotes(a[1..], s[..n][m..]);
        assert s[..n][..m] == s[..m] && s[..n][m..] == s[m..][..n - m] && s[m..][n - m..] == s[n..];
        DenotesConcat(a[1..], b, s[m..], n - m);
    }
  }

  lemma SplitGroup(items: seq<Item>, s: seq<char>) returns (n: nat, k: nat)
    requires items != [] && items[0].Group? && Denotes(items, s)
    ensures n <= |s| && k < |items[0].alternatives|
    ensures Denotes(items[0].alternatives[k].items, s[..n]) && Denotes(items[1..], s[n..])
  {
    var alternatives := items[0].alternatives;
    n, k :| 0 <= n <= |s| && 0 <= k < |alternatives|
            && Denotes(alternatives[k].items, s[..n]) && Denotes(items[1..], s[n..]);
  }

  lemma JoinGroup(items: seq<Item>, s: seq<char>, n: nat, k: nat)
    requires items != [] && items[0].Group? && n <= |s| && k < |items[0].alternatives|
    requires Denotes(items[0].alternatives[k].items, s[..n]) && Denotes(items[1..], s[n..])
    ensures Denotes(items, s)
  {
  }

  lemma PlainFirst(items: seq<Item>, s: seq<char>)
    requires items != [] && items[0].Plain?
    ensures Denotes(items, s) <==> s != [] && s[0] == items[0].character && Denotes(items[1..], s[1..])
  {
  }

  lemma NothingDenotes(s: seq<char>)
    ensures Denotes([], s) <==> s == []
  {
  }

  lemma {:induction false} DenotesSplit(a: seq<Item>, b: seq<Item>, s: seq<char>) returns (n: nat)
    requires Denotes(a + b, s)
    ensures n <= |s| && Denotes(a, s[..n]) && Denotes(b, s[n..])
    decreases a
  {
    hide Denotes;
    if a == [] {
      assert a + b == b && s[0..] == s;
      n := 0;
      NothingDenotes(s[..n]);
    } else {
      assert (a + b)[1..] == a[1..] + b && (a + b)[0] == a[0];
      match a[0]
      case Plain(c) =>
        PlainFirst(a + b, s);
        var m := DenotesSplit(a[1..], b, s[1..]);
        n := m + 1;
        assert s[..n][1..] == s[1..][..m] && s[1..][m..] == s[n..];
        PlainFirst(a, s[..n]);
      case Group(alternatives) =>
        var m, k := SplitGroup(a + b, s);
        var rest := DenotesSplit(a[1..], b, s[m..]);
        n := m + rest;
        assert s[..n][..m] == s[..m] && s[..n][m..] == s[m..][..rest] && s[m..][rest..] == s[n..];
        JoinGroup(a, s[..n], m, k);
    }
  }

  lemma PlainDenotes(items: seq<Item>, s: seq<char>)
    requires forall i :: 0 <= i < |items| ==> items[i].Plain?
    ensures Denotes(items, s) <==> s == Characters(items)
    decreases items
  {
    if items != [] && s != [] {
      PlainDenotes(items[1..], s[1..]);
      assert s == [s[0]] + s[1..];
    }
  }

  lemma GroupDenotes(alternatives: seq<Pattern>, s: seq<char>)
    ensures Denotes([Group(alternatives)], s) <==>
            exists k :: 0 <= k < |alternatives| && Denotes(alternatives[k].items, s)
  {
    var group := [Group(alternatives)];
    if Denotes(group, s) {
      var n, k :| 0 <= n <= |s| && 0 <= k < |alternatives|
                  && Denotes(alternatives[k].items, s[..n]) && Denotes(group[1..], s[n..]);
      assert s[..n] == s;
    }
    if k :| 0 <= k < |alternatives| && Denotes(alternatives[k].items, s) {
      assert s[..|s|] == s && Denotes(group[1..], s[|s|..]);
    }
  }

  lemma ReplacedParts(items: seq<Item>, at: nat, k: nat)
    requires at < |items| && items[at].Group? && k < |items[at].alternatives|
    ensures Replace(items, at, items[at].alternatives[k])
         == items[..at] + (items[at].alternatives[k].items + items[at + 1..])
    ensures items[..at] + ([items[at]] + items[at + 1..]) == items
  {
  }

  // Replacing a group by each of its alternatives loses and adds no string.
  lemma ReplaceSound(items: seq<Item>, at: nat, k: nat, s: seq<char>)
    requires at < |items| && items[at].Group? && k < |items[at].alternatives|
    requires Denotes(Replace(items, at, items[at].alternatives[k]), s)
    ensures Denotes(items, s)
  {
    hide Denotes, Replace;
    var alternative := items[at].alternatives[k].items;
    var front, back := items[..at], items[at + 1..];
    ReplacedParts(items, at, k);
    var n := DenotesSplit(front, alternative + back, s);
    var m := DenotesSplit(alternative, back, s[n..]);
    GroupDenotes(items[at].alternatives, s[n..][..m]);
    DenotesConcat([items[at]], back, s[n..], m);
    DenotesConcat(front, [items[at]] + back, s, n);
  }

  lemma ReplaceComplete(items: seq<Item>, at: nat, s: seq<char>) returns (k: nat)
    requires at < |items| && items[at].Group? && Denotes(items, s)
    ensures k < |items[at].alternatives| && Denotes(Replace(items, at, items[at].alternatives[k]), s)
  {
    hide Denotes, Replace;
    var front, back := items[..at], items[at + 1..];
    assert front + ([items[at]] + back) == items;
    var n := DenotesSplit(front, [items[at]] + back, s);
    var m := DenotesSplit([items[at]], back, s[n..]);
    GroupDenotes(items[at].alternatives, s[n..][..m]);
    k :| 0 <= k < |items[at].alternatives| && Denotes(items[at].alternatives[k].items, s[n..][..m]);
    var alternative := items[at].alternatives[k].items;
    DenotesConcat(alternative, back, s[n..], m);
    DenotesConcat(front, alternative + back, s, n);
    ReplacedParts(items, at, k);
  }

  // ------------------------------------------------------------------- the count

  function Count(items: seq<Item>): nat
    decreases items
  {
    if items == [] then 1
    else
      match items[0]
      case Plain(_) => Count(items[1..])
      case Group(alternatives) => CountAll(alternatives) * Count(items[1..])
  }

  function CountAll(alternatives: seq<Pattern>): nat
    decreases alternatives
  {
    if alternatives == [] then 0 else Count(alternatives[0].items) + CountAll(alternatives[1..])
  }

  function Prefixed(x: seq<char>, ys: seq<seq<char>>): (zs: seq<seq<char>>)
    ensures |zs| == |ys| && forall i :: 0 <= i < |zs| ==> zs[i] == x + ys[i]
  {
    if ys == [] then [] else [x + ys[0]] + Prefixed(x, ys[1..])
  }

  function Products(xs: seq<seq<char>>, ys: seq<seq<char>>): (zs: seq<seq<char>>)
    ensures |zs| == |xs| * |ys|
  {
    if xs == [] then [] else Prefixed(xs[0], ys) + Products(xs[1..], ys)
  }

  // A list of the denoted strings, one for each way to choose the alternatives.
  function Strings(items: seq<Item>): (zs: seq<seq<char>>)
    ensures |zs| == Count(items)
    decreases items
  {
    if items == [] then [[]]
    else
      match items[0]
      case Plain(c) => Prefixed([c], Strings(items[1..]))
      case Group(alternatives) => Products(AllStrings(alternatives), Strings(items[1..]))
  }

  function AllStrings(alternatives: seq<Pattern>): (zs: seq<seq<char>>)
    ensures |zs| == CountAll(alternatives)
    decreases alternatives
  {
    if alternatives == [] then [] else Strings(alternatives[0].items) + AllStrings(alternatives[1..])
  }

  lemma {:induction false} ProductIn(xs: seq<seq<char>>, ys: seq<seq<char>>, x: seq<char>, y: seq<char>)
    requires x in xs && y in ys
    ensures x + y in Products(xs, ys)
  {
    if x == xs[0] {
      var i :| 0 <= i < |ys| && ys[i] == y;
      assert Prefixed(xs[0], ys)[i] == x + y;
    } else {
      ProductIn(xs[1..], ys, x, y);
    }
  }

  lemma {:induction false} AlternativeIn(alternatives: seq<Pattern>, k: nat, x: seq<char>)
    requires k < |alternatives| && x in Strings(alternatives[k].items)
    ensures x in AllStrings(alternatives)
    decreases alternatives
  {
    if 0 < k {
      AlternativeIn(alternatives[1..], k - 1, x);
    }
  }

  // Every denoted string is on the list.
  lemma {:induction false} DenotedListed(items: seq<Item>, s: seq<char>)
    requires Denotes(items, s)
    ensures s in Strings(items)
    decreases items
  {
    hide Denotes, AllStrings, Products;
    if items == [] {
      NothingDenotes(s);
    } else {
      match items[0]
      case Plain(c) =>
        PlainFirst(items, s);
        DenotedListed(items[1..], s[1..]);
        var i :| 0 <= i < |Strings(items[1..])| && Strings(items[1..])[i] == s[1..];
        assert Strings(items)[i] == [c] + s[1..] == s;
      case Group(alternatives) =>
        var n, k := SplitGroup(items, s);
        DenotedListed(alternatives[k].items, s[..n]);
        DenotedListed(items[1..], s[n..]);
        AlternativeIn(alternatives, k, s[..n]);
        ProductIn(AllStrings(alternatives), Strings(items[1..]), s[..n], s[n..]);
        assert s[..n] + s[n..] == s;
    }
  }

  predicate Distinct<T(==)>(xs: seq<T>) {
    forall i, j :: 0 <= i < j < |xs| ==> xs[i] != xs[j]
  }

  lemma {:induction false} DistinctBound<T>(xs: seq<T>, ys: seq<T>)
    requires Distinct(xs) && forall i :: 0 <= i < |xs| ==> xs[i] in ys
    ensures |xs| <= |ys|
    decreases |xs|
  {
    if xs != [] {
      var n := |xs| - 1;
      var k :| 0 <= k < |ys| && ys[k] == xs[n];
      var rest := ys[..k] + ys[k + 1..];
      forall i | 0 <= i < n
        ensures xs[..n][i] in rest
      {
        var j :| 0 <= j < |ys| && ys[j] == xs[i];
        assert j != k;
        assert rest[if j < k then j else j - 1] == xs[i];
      }
      DistinctBound(xs[..n], rest);
    }
  }

  // Distinct denoted strings are no more than the count.
  lemma DenotedBound(items: seq<Item>, xs: seq<seq<char>>)
    requires Distinct(xs) && forall i :: 0 <= i < |xs| ==> Denotes(items, xs[i])
    ensures |xs| <= Count(items)
  {
    hide Denotes, Strings, Count;
    forall i | 0 <= i < |xs|
      ensures xs[i] in Strings(items)
    {
      DenotedListed(items, xs[i]);
    }
    DistinctBound(xs, Strings(items));
    StringsCount(items);
  }

  lemma StringsCount(items: seq<Item>)
    ensures |Strings(items)| == Count(items)
  {
  }
}
