/** Strings as the registry keys use them: the byte order of std::string, sorted key lists,
    decimal instance numbers and the separator. */
module Text {

  const SEP: char := ':'

  predicate Has(s: string, c: char) {
    exists i :: 0 <= i < |s| && s[i] == c
  }

  /** `a < b` of std::string. */
  predicate Less(a: string, b: string) {
    b != [] && (a == [] || a[0] < b[0] || (a[0] == b[0] && Less(a[1..], b[1..])))
  }

  lemma {:induction false} LessIrreflexive(a: string)
    ensures !Less(a, a)
  {
    if a != [] { LessIrreflexive(a[1..]); }
  }

  lemma {:induction false} LessTransitive(a: string, b: string, c: string)
    requires Less(a, b) && Less(b, c)
    ensures Less(a, c)
  {
    if a != [] && a[0] == b[0] == c[0] { LessTransitive(a[1..], b[1..], c[1..]); }
  }

  lemma {:induction false} LessTotal(a: string, b: string)
    ensures a == b || Less(a, b) || Less(b, a)
  {
    if a != [] && b != [] && a[0] == b[0] {
      LessTotal(a[1..], b[1..]);
      assert a == [a[0]] + a[1..] && b == [b[0]] + b[1..];
    }
  }

  lemma {:induction false} LessCommonPrefix(p: string, a: string, b: string)
    ensures Less(p + a, p + b) <==> Less(a, b)
  {
    if p == [] {
      assert p + a == a && p + b == b;
    } else {
      LessCommonPrefix(p[1..], a, b);
      assert (p + a)[1..] == p[1..] + a && (p + b)[1..] == p[1..] + b;
    }
  }

  /** Between two different names without the separator, the text behind the separator does
      not take part in the comparison. */
  lemma {:induction false} LessSeparated(u: string, v: string, x: string, y: string)
    requires !Has(u, SEP) && !Has(v, SEP) && u != v
    ensures Less(u + [SEP] + x, v + [SEP] + y) <==> Less(u + [SEP], v + [SEP])
  {
    if u != [] && v != [] && u[0] == v[0] {
      forall i | 0 <= i < |u[1..]| ensures u[1..][i] != SEP { assert u[i + 1] != SEP; }
      forall i | 0 <= i < |v[1..]| ensures v[1..][i] != SEP { assert v[i + 1] != SEP; }
      assert u == [u[0]] + u[1..] && v == [v[0]] + v[1..];
      LessSeparated(u[1..], v[1..], x, y);
      assert (u + [SEP] + x)[1..] == u[1..] + [SEP] + x && (v + [SEP] + y)[1..] == v[1..] + [SEP] + y;
      assert (u + [SEP])[1..] == u[1..] + [SEP] && (v + [SEP])[1..] == v[1..] + [SEP];
    } else {
      assert u != [] ==> u[0] != SEP;
      assert v != [] ==> v[0] != SEP;
      assert (u + [SEP] + x)[0] == (u + [SEP])[0] && (v + [SEP] + y)[0] == (v + [SEP])[0];
    }
  }

  /** The separator splits a text uniquely at its first occurrence. */
  lemma {:induction false} SplitUnique(u: string, x: string, v: string, y: string)
    requires !Has(u, SEP) && !Has(v, SEP)
    requires u + [SEP] + x == v + [SEP] + y
    ensures u == v && x == y
  {
    var s, t := u + [SEP] + x, v + [SEP] + y;
    assert s[0] == (if u == [] then SEP else u[0]) && t[0] == if v == [] then SEP else v[0];
    if u == [] || v == [] {
      assert u == v == [];
      assert s[1..] == x && t[1..] == y;
    } else {
      assert s[1..] == u[1..] + [SEP] + x && t[1..] == v[1..] + [SEP] + y;
      forall i | 0 <= i < |u[1..]| ensures u[1..][i] != SEP { assert u[i + 1] != SEP; }
      forall i | 0 <= i < |v[1..]| ensures v[1..][i] != SEP { assert v[i + 1] != SEP; }
      SplitUnique(u[1..], x, v[1..], y);
      assert u == [u[0]] + u[1..] && v == [v[0]] + v[1..];
    }
  }

  // ---- sorted key lists -------------------------------------------------------------------

  predicate Sorted(s: seq<string>) {
    forall i, j :: 0 <= i < j < |s| ==> Less(s[i], s[j])
  }

  function Elements(s: seq<string>): set<string> {
    set x | x in s
  }

  /** Position of the first occurrence, or the length when absent: the index loop over a
      peer's neighbour list. */
  function Rank(s: seq<string>, x: string): (r: nat)
    ensures r <= |s| && (r < |s| <==> x in s) && (r < |s| ==> s[r] == x)
    ensures forall i :: 0 <= i < r ==> s[i] != x
  {
    if s == [] || s[0] == x then 0 else 1 + Rank(s[1..], x)
  }

  lemma SortedDistinct(s: seq<string>, i: nat, j: nat)
    requires Sorted(s) && i < |s| && j < |s| && s[i] == s[j]
    ensures i == j
  {
    LessIrreflexive(s[i]);
  }

  lemma RankOf(s: seq<string>, i: nat)
    requires Sorted(s) && i < |s|
    ensures Rank(s, s[i]) == i
  {
    SortedDistinct(s, Rank(s, s[i]), i);
  }

  function Insert(x: string, s: seq<string>): (r: seq<string>)
    requires Sorted(s)
    ensures Sorted(r) && forall y :: y in r <==> y == x || y in s
  {
    if s == [] then [x]
    else if x == s[0] then s
    else if Less(x, s[0]) then
      LessHead(x, s);
      [x] + s
    else
      LessTotal(x, s[0]);
      assert s == [s[0]] + s[1..];
      var t := Insert(x, s[1..]);
      assert forall j :: 0 <= j < |t| ==> Less(s[0], t[j]) by {
        forall j | 0 <= j < |t| ensures Less(s[0], t[j]) {
          assert t[j] in t;
          assert t[j] == x || t[j] in s[1..];
        }
      }
      [s[0]] + t
  }

  lemma LessHead(x: string, s: seq<string>)
    requires Sorted(s) && s != [] && Less(x, s[0])
    ensures forall j :: 0 <= j < |s| ==> Less(x, s[j])
  {
    forall j | 0 <= j < |s| ensures Less(x, s[j]) {
      if j > 0 { LessTransitive(x, s[0], s[j]); }
    }
  }

  /** std::sort followed by erasing duplicates. */
  function SortUnique(s: seq<string>): (r: seq<string>)
    ensures Sorted(r) && Elements(r) == Elements(s)
  {
    if s == [] then [] else
      var t := SortUnique(s[1..]);
      assert s == [s[0]] + s[1..];
      assert forall y :: y in t <==> y in s[1..] by {
        assert forall y :: y in t <==> y in Elements(t);
      }
      Insert(s[0], t)
  }

  lemma EmptyElements(s: seq<string>)
    ensures Elements(s) == {} <==> s == []
  {
    if s != [] { assert s[0] in Elements(s); }
  }

  /** A set has one sorted list. */
  lemma {:induction false} SortedUnique(s: seq<string>, t: seq<string>)
    requires Sorted(s) && Sorted(t) && Elements(s) == Elements(t)
    ensures s == t
  {
    EmptyElements(s);
    EmptyElements(t);
    if s != [] {
      assert s[0] in Elements(s) && s[0] in t;
      assert t[0] in Elements(t) && t[0] in s;
      var i, j := Rank(t, s[0]), Rank(s, t[0]);
      if i > 0 && j > 0 {
        LessTransitive(s[0], t[0], s[0]);
        LessIrreflexive(s[0]);
      }
      assert s[0] == t[0];
      forall x ensures x in s[1..] <==> x in t[1..] {
        assert x in s <==> x in t by { assert x in Elements(s) <==> x in Elements(t); }
        if x == s[0] { SortedHeadOnce(s); SortedHeadOnce(t); }
      }
      SortedUnique(s[1..], t[1..]);
      assert s == [s[0]] + s[1..] && t == [t[0]] + t[1..];
    }
  }

  lemma SortedHeadOnce(s: seq<string>)
    requires Sorted(s) && s != []
    ensures s[0] !in s[1..]
  {
    if s[0] in s[1..] {
      var k :| 0 <= k < |s[1..]| && s[1..][k] == s[0];
      SortedDistinct(s, 0, k + 1);
    }
  }

  lemma {:induction false} SortedSize(s: seq<string>)
    requires Sorted(s)
    ensures |Elements(s)| == |s|
  {
    if s != [] {
      SortedHeadOnce(s);
      SortedSize(s[1..]);
      assert s == [s[0]] + s[1..];
      assert Elements(s) == {s[0]} + Elements(s[1..]);
    }
  }

  // ---- decimal numbers --------------------------------------------------------------------

  function Digit(d: nat): char
    requires d < 10
  {
    ('0' as int + d) as char
  }

  /** std::to_string of a non-negative number. */
  function Dec(n: nat): (s: string)
    ensures s != [] && forall i :: 0 <= i < |s| ==> '0' <= s[i] <= '9'
  {
    if n < 10 then [Digit(n)] else Dec(n / 10) + [Digit(n % 10)]
  }

  lemma DecLast(n: nat)
    requires n >= 10
    ensures |Dec(n)| == |Dec(n / 10)| + 1 >= 2
    ensures Dec(n)[..|Dec(n)| - 1] == Dec(n / 10) && Dec(n)[|Dec(n)| - 1] == Digit(n % 10)
  {
  }

  lemma {:induction false} DecInjective(i: nat, j: nat)
    requires Dec(i) == Dec(j)
    ensures i == j
  {
    if i >= 10 { DecLast(i); }
    if j >= 10 { DecLast(j); }
    if i >= 10 && j >= 10 { DecInjective(i / 10, j / 10); }
  }

  /** A number whose text starts another number's text is the smaller one. */
  lemma {:induction false} DecPrefix(i: nat, j: nat)
    requires Dec(i) <= Dec(j)
    ensures i <= j
  {
    if Dec(i) == Dec(j) {
      DecInjective(i, j);
    } else if j >= 10 {
      assert Dec(i) <= Dec(j / 10);
      DecPrefix(i, j / 10);
    }
  }

  lemma DecNoSep(n: nat)
    ensures !Has(Dec(n), SEP)
  {
  }
}
