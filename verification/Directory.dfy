/** The redirect array of a window: which tab each of its 2048 hash indexes goes to, as an extendible-hashing directory. */
module Directory {
  const INDEXES := 2048
  const BITS := 11

  function Pow2(d: nat): (m: nat)
    ensures m > 0
  {
    if d == 0 then 1 else 2 * Pow2(d - 1)
  }

  /** Tab t is reached from exactly the indexes that are r modulo m. */
  ghost predicate Owns(redirect: seq<nat>, t: nat, m: nat, r: nat) {
    m > 0 && r < m && forall i :: 0 <= i < |redirect| ==> (redirect[i] == t <==> i % m == r)
  }

  ghost predicate OwnsNothing(redirect: seq<nat>, t: nat) {
    forall i :: 0 <= i < |redirect| ==> redirect[i] != t
  }

  /** Tab t owns nothing, or one residue class modulo a power of two. */
  ghost predicate OwnsClass(redirect: seq<nat>, t: nat) {
    OwnsNothing(redirect, t) || exists d: nat, r: nat :: d <= BITS && Owns(redirect, t, Pow2(d), r)
  }

  ghost predicate IsDirectory(redirect: seq<nat>, tabs: nat) {
    && |redirect| == INDEXES
    && (forall i :: 0 <= i < INDEXES ==> redirect[i] < tabs)
    && (forall t :: 0 <= t < tabs ==> OwnsClass(redirect, t))
  }

  /** The parting loop after n indexes: every second index of the old tab goes to the new one. The flag is tab_switch. */
  function Split(redirect: seq<nat>, from: nat, onto: nat, n: nat): (r: (seq<nat>, bool))
    requires n <= |redirect|
    ensures |r.0| == |redirect|
  {
    if n == 0 then (redirect, false)
    else
      var (r, toggle) := Split(redirect, from, onto, n - 1);
      if redirect[n - 1] == from then (r[n - 1 := if toggle then onto else from], !toggle) else (r, toggle)
  }

  /** The parting loop itself, in place. */
  method SplitInPlace(tabs: array<nat>, from: nat, onto: nat)
    requires onto != from
    modifies tabs
    ensures tabs[..] == Split(old(tabs[..]), from, onto, tabs.Length).0
  {
    ghost var before := tabs[..];
    var toggle := false;
    for i := 0 to tabs.Length
      invariant Split(before, from, onto, i) == (tabs[..], toggle)
      invariant forall j :: i <= j < tabs.Length ==> tabs[j] == before[j]
    {
      if tabs[i] == from {
        tabs[i] := if toggle then onto else from;
        toggle := !toggle;
      }
    }
  }

  lemma {:induction false} SplitOnly(redirect: seq<nat>, from: nat, onto: nat, n: nat)
    requires n <= |redirect|
    ensures var s := Split(redirect, from, onto, n).0;
            forall j :: 0 <= j < |redirect| ==> s[j] == redirect[j] || (redirect[j] == from && s[j] == onto && j < n)
  {
    if n > 0 { SplitOnly(redirect, from, onto, n - 1); }
  }

  /** c is how many of r, r+m, r+2m, ... lie below n. */
  ghost predicate Below(m: nat, r: nat, n: nat, c: nat) {
    n <= r + c * m && (c > 0 ==> r + (c - 1) * m < n)
  }

  /** j is an odd-numbered member of the class. */
  ghost predicate Odd(m: nat, r: nat, j: nat) {
    m > 0 && j % m == r && j / m % 2 == 1
  }

  lemma NextOdd(m: nat, r: nat, i: nat, c: nat)
    requires m > 0 && r < m && Below(m, r, i, c)
    ensures Odd(m, r, i) <==> i % m == r && c % 2 == 1
  {
    NextMember(m, r, i, c);
  }

  lemma NextMember(m: nat, r: nat, i: nat, c: nat)
    requires m > 0 && r < m && Below(m, r, i, c)
    ensures i % m == r <==> i == r + c * m
    ensures i % m == r ==> i / m == c && Below(m, r, i + 1, c + 1)
    ensures i % m != r ==> Below(m, r, i + 1, c)
  {
    var q, s := i / m, i % m;
    assert i == q * m + s;
    if i == r + c * m {
      Quotient(m, c, r, i);
    } else if s == r {
      assert q * m < c * m;
      Smaller(m, q, c);
      assert c > 0;
      assert (c - 1) * m < q * m;
      Smaller(m, c - 1, q);
      assert false;
    }
  }

  lemma Quotient(m: nat, q: nat, s: nat, i: nat)
    requires m > 0 && s < m && i == s + q * m
    ensures i / m == q && i % m == s
  {
    var a, b := i / m, i % m;
    assert i == a * m + b;
    if a < q { assert (a + 1) * m <= q * m by { Grow(m, a + 1, q); } }
    if a > q { assert (q + 1) * m <= a * m by { Grow(m, q + 1, a); } }
  }

  lemma Grow(m: nat, a: nat, b: nat)
    requires a <= b
    ensures a * m <= b * m
  {
    assert b * m == a * m + (b - a) * m;
  }

  lemma Smaller(m: nat, a: nat, b: nat)
    requires a * m < b * m
    ensures a < b
  {
    if b <= a { Grow(m, b, a); }
  }

  lemma SplitNext(redirect: seq<nat>, from: nat, onto: nat, n: nat)
    requires n < |redirect|
    ensures var s, toggle := Split(redirect, from, onto, n).0, Split(redirect, from, onto, n).1;
            Split(redirect, from, onto, n + 1) ==
            if redirect[n] == from then (s[n := if toggle then onto else from], !toggle) else (s, toggle)
  {
  }

  /** What the loop has done to a class after n indexes: kept the even members, given away the odd ones. */
  ghost predicate Halved(redirect: seq<nat>, s: seq<nat>, onto: nat, m: nat, r: nat, n: nat) {
    && |s| == |redirect|
    && (forall j :: 0 <= j < n && j < |s| ==> s[j] == if Odd(m, r, j) then onto else redirect[j])
    && (forall j :: n <= j < |s| ==> s[j] == redirect[j])
  }

  lemma HalvedNext(redirect: seq<nat>, s: seq<nat>, from: nat, onto: nat, m: nat, r: nat, n: nat, c: nat)
    requires n < |redirect| && Owns(redirect, from, m, r) && Below(m, r, n, c) && Halved(redirect, s, onto, m, r, n)
    ensures var here := redirect[n] == from;
            && Below(m, r, n + 1, if here then c + 1 else c)
            && Halved(redirect, if here then s[n := if c % 2 == 1 then onto else from] else s, onto, m, r, n + 1)
  {
    hide Below, Odd;
    assert redirect[n] == from <==> n % m == r;
    NextMember(m, r, n, c);
    NextOdd(m, r, n, c);
  }

  lemma SplitNone(redirect: seq<nat>, from: nat, onto: nat, m: nat, r: nat)
    requires m > 0
    ensures Below(m, r, 0, 0) && Split(redirect, from, onto, 0) == (redirect, false) && Halved(redirect, redirect, onto, m, r, 0)
  {
  }

  lemma OwnsPositive(redirect: seq<nat>, t: nat, m: nat, r: nat)
    requires Owns(redirect, t, m, r)
    ensures m > 0
  {
  }

  /** Inside a class the loop keeps the even members and gives away the odd ones. */
  lemma {:induction false} SplitClass(redirect: seq<nat>, from: nat, onto: nat, m: nat, r: nat, n: nat) returns (c: nat)
    requires n <= |redirect| && from != onto && Owns(redirect, from, m, r)
    ensures Below(m, r, n, c) && Split(redirect, from, onto, n).1 == (c % 2 == 1)
    ensures Halved(redirect, Split(redirect, from, onto, n).0, onto, m, r, n)
  {
    hide Split, Owns, Below, Halved;
    if n == 0 {
      c := 0;
      OwnsPositive(redirect, from, m, r);
      SplitNone(redirect, from, onto, m, r);
    } else {
      c := SplitClass(redirect, from, onto, m, r, n - 1);
      SplitNext(redirect, from, onto, n - 1);
      HalvedNext(redirect, Split(redirect, from, onto, n - 1).0, from, onto, m, r, n - 1, c);
      if redirect[n - 1] == from { c := c + 1; }
    }
  }

  /** The remainder modulo 2m is the remainder modulo m and the parity of the quotient. */
  lemma ModDouble(i: nat, m: nat)
    requires m > 0
    ensures i % (2 * m) == i % m + if i / m % 2 == 1 then m else 0
  {
    var q, s := i / m, i % m;
    assert i == q * m + s;
    var h := q / 2;
    if q % 2 == 1 {
      assert q == 2 * h + 1;
      assert q * m == h * (2 * m) + m;
      Quotient(2 * m, h, s + m, i);
    } else {
      assert q == 2 * h;
      assert q * m == h * (2 * m);
      Quotient(2 * m, h, s, i);
    }
  }

  /** Parting a tab that owns the class r modulo m leaves it r modulo 2m and gives the new tab r + m modulo 2m. */
  lemma SplitHalves(redirect: seq<nat>, from: nat, onto: nat, m: nat, r: nat)
    requires from != onto && Owns(redirect, from, m, r) && OwnsNothing(redirect, onto)
    ensures var s := Split(redirect, from, onto, |redirect|).0;
            Owns(s, from, 2 * m, r) && Owns(s, onto, 2 * m, r + m)
  {
    var s := Split(redirect, from, onto, |redirect|).0;
    var c := SplitClass(redirect, from, onto, m, r, |redirect|);
    forall i | 0 <= i < |s|
      ensures s[i] == from <==> i % (2 * m) == r
      ensures s[i] == onto <==> i % (2 * m) == r + m
    {
      ModDouble(i, m);
      assert redirect[i] == from <==> i % m == r;
      assert i % m < m;
    }
  }

  /** With a single index left the class cannot be halved, and the new tab owns nothing. */
  lemma SplitSingle(redirect: seq<nat>, from: nat, onto: nat, r: nat)
    requires |redirect| == INDEXES && from != onto && Owns(redirect, from, INDEXES, r)
    ensures Split(redirect, from, onto, INDEXES).0 == redirect
  {
    var s := Split(redirect, from, onto, INDEXES).0;
    var c := SplitClass(redirect, from, onto, INDEXES, r, INDEXES);
    forall i | 0 <= i < INDEXES ensures s[i] == redirect[i] { assert i / INDEXES == 0; }
  }

  lemma BitsAreIndexes()
    ensures Pow2(BITS) == INDEXES
  {
    assert Pow2(3) == 8;
    assert Pow2(6) == 64;
    assert Pow2(9) == 512;
  }

  lemma OwnsOther(redirect: seq<nat>, s: seq<nat>, from: nat, onto: nat, t: nat)
    requires |s| == |redirect| && t != from && t != onto && OwnsClass(redirect, t)
    requires forall j :: 0 <= j < |redirect| ==> s[j] == redirect[j] || (redirect[j] == from && s[j] == onto)
    ensures OwnsClass(s, t)
  {
    if !OwnsNothing(redirect, t) {
      var d: nat, r: nat :| d <= BITS && Owns(redirect, t, Pow2(d), r);
      assert Owns(s, t, Pow2(d), r);
    }
  }

  /** Parting keeps the directory: it moves indexes of the old tab only, to the new tab only. */
  lemma SplitKeeps(redirect: seq<nat>, tabs: nat, from: nat)
    requires IsDirectory(redirect, tabs) && from < tabs && !OwnsNothing(redirect, from)
    ensures IsDirectory(Split(redirect, from, tabs, INDEXES).0, tabs + 1)
  {
    var s := Split(redirect, from, tabs, INDEXES).0;
    SplitOnly(redirect, from, tabs, INDEXES);
    assert OwnsClass(redirect, from);
    var d: nat, r: nat :| d <= BITS && Owns(redirect, from, Pow2(d), r);
    if d == BITS {
      BitsAreIndexes();
      SplitSingle(redirect, from, tabs, r);
    } else {
      SplitHalves(redirect, from, tabs, Pow2(d), r);
      assert Pow2(d + 1) == 2 * Pow2(d);
      assert Owns(s, from, Pow2(d + 1), r) && Owns(s, tabs, Pow2(d + 1), r + Pow2(d));
    }
    forall t | 0 <= t < tabs + 1 ensures OwnsClass(s, t) {
      if t != from && t != tabs { OwnsOther(redirect, s, from, tabs, t); }
    }
  }

  /** After a parting the tab an index goes to owns a class of half the size. */
  lemma SplitDeeper(redirect: seq<nat>, tabs: nat, i: nat, d: nat, r: nat) returns (r': nat)
    requires IsDirectory(redirect, tabs) && i < INDEXES && d < BITS && Owns(redirect, redirect[i], Pow2(d), r)
    ensures var s := Split(redirect, redirect[i], tabs, INDEXES).0; Owns(s, s[i], Pow2(d + 1), r')
  {
    var s := Split(redirect, redirect[i], tabs, INDEXES).0;
    SplitOnly(redirect, redirect[i], tabs, INDEXES);
    SplitHalves(redirect, redirect[i], tabs, Pow2(d), r);
    assert Pow2(d + 1) == 2 * Pow2(d);
    r' := if s[i] == tabs then r + Pow2(d) else r;
  }

  /** A new window: every index goes to tab 0. */
  lemma FreshDirectory()
    ensures IsDirectory(seq(INDEXES, i => 0), 1)
  {
    assert Pow2(0) == 1;
    assert Owns(seq(INDEXES, i => 0), 0, Pow2(0), 0);
  }
}
