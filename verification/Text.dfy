/** Strings as Go sees them: sequences of bytes (one `char` stands for one byte),
    compared byte by byte.  Sorting by a string key stands for Go's `sort.Slice`
    and for the sorted listing of a string set. */
module Text {

  // ---------------------------------------------------------------- order

  /** Go's `a < b` on strings. */
  predicate Below(a: string, b: string) {
    b != [] && (a == [] || a[0] < b[0] || (a[0] == b[0] && Below(a[1..], b[1..])))
  }

  lemma BelowIrreflexive(a: string)
    ensures !Below(a, a)
  {}

  lemma {:induction false} BelowTransitive(a: string, b: string, c: string)
    requires Below(a, b) && Below(b, c)
    ensures Below(a, c)
  {
    if a != [] && a[0] == b[0] && b[0] == c[0] {
      BelowTransitive(a[1..], b[1..], c[1..]);
    }
  }

  lemma {:induction false} BelowTotal(a: string, b: string)
    ensures a == b || Below(a, b) || Below(b, a)
  {
    if a != [] && b != [] && a[0] == b[0] {
      BelowTotal(a[1..], b[1..]);
      assert a == [a[0]] + a[1..] && b == [b[0]] + b[1..];
    }
  }

  /** The order of strings: a proper prefix comes first, and otherwise the first byte that differs decides. */
  lemma {:induction false} BelowMeaning(a: string, b: string)
    ensures Below(a, b) <==> a < b || exists i :: 0 <= i < |a| && i < |b| && a[..i] == b[..i] && a[i] < b[i]
  {
    if a != [] && b != [] && a[0] == b[0] {
      BelowMeaning(a[1..], b[1..]);
      assert a == [a[0]] + a[1..] && b == [b[0]] + b[1..];
      if i :| 0 <= i < |a[1..]| && i < |b[1..]| && a[1..][..i] == b[1..][..i] && a[1..][i] < b[1..][i] {
        DifferLater(a, b, i);
      }
      if i :| 0 <= i < |a| && i < |b| && a[..i] == b[..i] && a[i] < b[i] {
        DifferEarlier(a, b, i);
      }
    } else if a != [] && b != [] {
      assert a[..0] == b[..0];
      forall i | 0 <= i < |a| && i < |b| && a[..i] == b[..i] ensures i == 0 {
        if i > 0 { SameHead(a, b, i); }
      }
    }
  }

  lemma SameHead(a: string, b: string, i: nat)
    requires 0 < i < |a| && i < |b| && a[..i] == b[..i]
    ensures a[0] == b[0]
  {
    assert a[..i][0] == b[..i][0];
  }

  lemma DifferLater(a: string, b: string, i: nat)
    requires a != [] && b != [] && a[0] == b[0] && i < |a[1..]| && i < |b[1..]| && a[1..][..i] == b[1..][..i]
    ensures a[..i + 1] == b[..i + 1]
  {
    assert a[..i + 1] == [a[0]] + a[1..][..i] && b[..i + 1] == [b[0]] + b[1..][..i];
  }

  lemma DifferEarlier(a: string, b: string, i: nat)
    requires i < |a| && i < |b| && a[..i] == b[..i] && a[0] == b[0] && a[i] < b[i]
    ensures i > 0 && a[1..][..i - 1] == b[1..][..i - 1] && a[1..][i - 1] < b[1..][i - 1]
  {
    assert a[1..][..i - 1] == a[..i][1..] && b[1..][..i - 1] == b[..i][1..];
  }

  // ---------------------------------------------------------------- sorting

  ghost predicate StrictlySorted(ss: seq<string>) {
    forall i, j :: 0 <= i < j < |ss| ==> Below(ss[i], ss[j])
  }

  ghost predicate DistinctKeys<T(!new)>(xs: seq<T>, key: T -> string) {
    forall i, j :: 0 <= i < j < |xs| ==> key(xs[i]) != key(xs[j])
  }

  ghost predicate SortedBy<T(!new)>(xs: seq<T>, key: T -> string) {
    forall i, j :: 0 <= i < j < |xs| ==> !Below(key(xs[j]), key(xs[i]))
  }

  /** Insertion of one element; the reference for `Sort`. */
  method Insert<T(!new)>(xs: seq<T>, x: T, key: T -> string) returns (r: seq<T>)
    requires SortedBy(xs, key)
    ensures SortedBy(r, key)
    ensures multiset(r) == multiset(xs) + multiset{x}
  {
    var i := 0;
    while i < |xs| && !Below(key(x), key(xs[i]))
      invariant 0 <= i <= |xs|
      invariant forall k :: 0 <= k < i ==> !Below(key(x), key(xs[k]))
    {
      i := i + 1;
    }
    forall k | i <= k < |xs| ensures !Below(key(xs[k]), key(x)) {
      if Below(key(xs[k]), key(x)) {
        BelowTransitive(key(xs[k]), key(x), key(xs[i]));
        BelowIrreflexive(key(xs[i]));
      }
    }
    r := xs[..i] + [x] + xs[i..];
    InsertedIsSorted(xs, x, key, i);
    assert xs == xs[..i] + xs[i..];
  }

  lemma InsertedIsSorted<T(!new)>(xs: seq<T>, x: T, key: T -> string, n: nat)
    requires SortedBy(xs, key) && n <= |xs|
    requires forall k :: 0 <= k < n ==> !Below(key(x), key(xs[k]))
    requires forall k :: n <= k < |xs| ==> !Below(key(xs[k]), key(x))
    ensures SortedBy(xs[..n] + [x] + xs[n..], key)
  {
    var r := xs[..n] + [x] + xs[n..];
    assert r[n] == x && (forall k :: 0 <= k < n ==> r[k] == xs[k]) && forall k :: n < k < |r| ==> r[k] == xs[k - 1];
    forall i, j | 0 <= i < j < |r| ensures !Below(key(r[j]), key(r[i])) {
      if i == n { assert r[j] == xs[j - 1]; }
    }
  }

  /** `sort.Slice(xs, ...)` with the less function comparing `key`. */
  method Sort<T(!new)>(xs: seq<T>, key: T -> string) returns (r: seq<T>)
    ensures SortedBy(r, key)
    ensures multiset(r) == multiset(xs)
  {
    r := [];
    for i := 0 to |xs|
      invariant SortedBy(r, key)
      invariant multiset(r) == multiset(xs[..i])
    {
      r := Insert(r, xs[i], key);
      assert xs[..i + 1] == xs[..i] + [xs[i]];
    }
    assert xs[..|xs|] == xs;
  }

  lemma OccursTwice<T>(xs: seq<T>, i: nat, j: nat)
    requires i < j < |xs| && xs[i] == xs[j]
    ensures multiset(xs)[xs[i]] >= 2
  {
    assert xs == xs[..j] + xs[j..];
    assert xs[i] in xs[..j] && xs[j] in xs[j..];
  }

  lemma {:induction false} OccursOnce<T(!new)>(xs: seq<T>, key: T -> string, x: T)
    requires DistinctKeys(xs, key)
    ensures multiset(xs)[x] <= 1
  {
    if xs != [] {
      OccursOnce(xs[1..], key, x);
      assert xs == [xs[0]] + xs[1..];
      assert xs[0] !in xs[1..];
    }
  }

  lemma MultisetKeepsDistinct<T(!new)>(xs: seq<T>, ys: seq<T>, key: T -> string)
    requires multiset(xs) == multiset(ys) && DistinctKeys(xs, key)
    ensures DistinctKeys(ys, key)
  {
    forall i, j | 0 <= i < j < |ys| ensures key(ys[i]) != key(ys[j]) {
      if key(ys[i]) == key(ys[j]) {
        assert ys[i] in multiset(xs) && ys[j] in multiset(xs);
        if ys[i] == ys[j] {
          OccursTwice(ys, i, j);
          OccursOnce(xs, key, ys[i]);
        }
        assert false;
      }
    }
  }

  lemma SomeMember<T>(xs: seq<T>) returns (x: T)
    requires xs != []
    ensures x in xs
  {
    x := xs[0];
  }

  /** With distinct keys a list has one sorted arrangement only. */
  lemma {:induction false} SortedUnique<T(!new)>(xs: seq<T>, ys: seq<T>, key: T -> string)
    requires SortedBy(xs, key) && SortedBy(ys, key)
    requires DistinctKeys(xs, key) && DistinctKeys(ys, key)
    requires forall x :: x in xs <==> x in ys
    ensures xs == ys
    decreases |xs|
  {
    if xs == [] || ys == [] {
      var both := xs + ys;
      if both != [] {
        var x := SomeMember(both);
        assert false;
      }
    } else {
      assert xs[0] in ys;
      assert ys[0] in xs;
      var a :| 0 <= a < |ys| && ys[a] == xs[0];
      var b :| 0 <= b < |xs| && xs[b] == ys[0];
      BelowTotal(key(xs[0]), key(ys[0]));
      assert a == 0 && b == 0;
      forall x ensures x in xs[1..] <==> x in ys[1..] {
        if x in xs[1..] {
          var i :| 0 < i < |xs| && xs[i] == x;
          assert x in ys && x != ys[0];
        }
        if x in ys[1..] {
          var i :| 0 < i < |ys| && ys[i] == x;
          assert x in xs && x != xs[0];
        }
      }
      SortedUnique(xs[1..], ys[1..], key);
      assert xs == [xs[0]] + xs[1..] && ys == [ys[0]] + ys[1..];
    }
  }

  /** Two strictly sorted string lists with the same members are equal. */
  lemma StrictlySortedUnique(xs: seq<string>, ys: seq<string>)
    requires StrictlySorted(xs) && StrictlySorted(ys)
    requires forall x :: x in xs <==> x in ys
    ensures xs == ys
  {
    var id := (s: string) => s;
    StrictlySortedIsSorted(xs);
    StrictlySortedIsSorted(ys);
    SortedUnique(xs, ys, id);
  }

  lemma StrictlySortedIsSorted(xs: seq<string>)
    requires StrictlySorted(xs)
    ensures forall i, j :: 0 <= i < j < |xs| ==> xs[i] != xs[j] && !Below(xs[j], xs[i])
  {
    forall i, j | 0 <= i < j < |xs| ensures xs[i] != xs[j] && !Below(xs[j], xs[i]) {
      BelowIrreflexive(xs[i]);
      if Below(xs[j], xs[i]) { BelowTransitive(xs[i], xs[j], xs[i]); }
    }
  }

  lemma SortedDistinctIsStrict(xs: seq<string>)
    requires SortedBy(xs, s => s) && DistinctKeys(xs, s => s)
    ensures StrictlySorted(xs)
  {
    var id := (s: string) => s;
    forall i, j | 0 <= i < j < |xs| ensures Below(xs[i], xs[j]) {
      assert id(xs[i]) != id(xs[j]);
      BelowTotal(xs[i], xs[j]);
    }
  }

  lemma LeastExists(s: set<string>) returns (m: string)
    requires s != {}
    ensures m in s && forall x :: x in s && x != m ==> Below(m, x)
  {
    m :| m in s;
    if s != {m} {
      var rest := s - {m};
      var n := LeastExists(rest);
      BelowTotal(m, n);
      if Below(n, m) {
        m := n;
      } else {
        forall x | x in s && x != m ensures Below(m, x) {
          if x != n { BelowTransitive(m, n, x); }
        }
      }
    }
  }

  ghost function Least(s: set<string>): (m: string)
    requires s != {}
    ensures m in s && forall x :: x in s && x != m ==> Below(m, x)
  {
    assert exists m :: m in s && forall x :: x in s && x != m ==> Below(m, x) by {
      var m := LeastExists(s);
    }
    var m :| m in s && forall x :: x in s && x != m ==> Below(m, x);
    m
  }

  /** The members of a set in ascending order, as `sets.String.List` returns them. */
  ghost function Ascending(s: set<string>): (r: seq<string>)
    ensures StrictlySorted(r)
    ensures forall x :: x in r <==> x in s
  {
    if s == {} then [] else [Least(s)] + Ascending(s - {Least(s)})
  }

  /** The members of a list. */
  function Elements(ss: seq<string>): set<string> {
    set s | s in ss
  }

  // ---------------------------------------------------------------- splitting

  /** Where `sep` first starts in `s`, or -1. */
  function IndexOf(s: string, sep: string): (r: int)
    ensures -1 <= r
    ensures r >= 0 ==> r + |sep| <= |s| && s[r..r + |sep|] == sep
  {
    if sep <= s then 0
    else if s == "" then -1
    else
      var r := IndexOf(s[1..], sep);
      if r < 0 then -1 else r + 1
  }

  /** `strings.Split` for a separator that is not empty. */
  function Split(s: string, sep: string): (r: seq<string>)
    requires sep != ""
    ensures r != []
    decreases |s|
  {
    var i := IndexOf(s, sep);
    if i < 0 then [s] else [s[..i]] + Split(s[i + |sep|..], sep)
  }

  predicate Lacks(s: string, c: char) {
    forall i :: 0 <= i < |s| ==> s[i] != c
  }

  lemma {:induction false} FirstIndex(s: string, sep: string)
    requires sep != ""
    ensures IndexOf(s, sep) >= 0 ==> forall i :: 0 <= i < IndexOf(s, sep) ==> !(sep <= s[i..])
    ensures IndexOf(s, sep) < 0 ==> forall i :: 0 <= i <= |s| ==> !(sep <= s[i..])
  {
    if s != "" && !(sep <= s) {
      FirstIndex(s[1..], sep);
      assert forall i :: 1 <= i <= |s| ==> s[i..] == s[1..][i - 1..];
    }
  }

  /** The parts with the separator between them. */
  function Joined(parts: seq<string>, sep: string): string {
    if parts == [] then "" else if |parts| == 1 then parts[0] else parts[0] + sep + Joined(parts[1..], sep)
  }

  ghost predicate Without(s: string, sep: string) {
    forall i :: 0 <= i <= |s| ==> !(sep <= s[i..])
  }

  /** Splitting, told by its result: the parts join to the string again, and none contains the separator. */
  lemma {:induction false} SplitMeaning(s: string, sep: string)
    requires sep != ""
    ensures Joined(Split(s, sep), sep) == s
    ensures forall p :: p in Split(s, sep) ==> Without(p, sep)
    decreases |s|
  {
    var i := IndexOf(s, sep);
    FirstIndex(s, sep);
    if i >= 0 {
      var rest := s[i + |sep|..];
      SplitMeaning(rest, sep);
      assert s == s[..i] + sep + rest;
      var parts := Split(s, sep);
      assert parts[1..] == Split(rest, sep);
      forall j | 0 <= j <= i ensures !(sep <= s[..i][j..]) { BeforeIndex(s, sep, i, j); }
    }
  }

  lemma BeforeIndex(s: string, sep: string, i: nat, j: nat)
    requires sep != "" && j <= i <= |s| && forall j :: 0 <= j < i ==> !(sep <= s[j..])
    ensures !(sep <= s[..i][j..])
  {
    assert s[..i][j..] == s[j..][..i - j] <= s[j..];
    assert j == i ==> s[..i][j..] == "";
  }

  lemma SepAtIndex(s: string, sep: string)
    requires sep != ""
    ensures var i := IndexOf(s, sep);
      i >= 0 ==> i + |sep| <= |s| && s[i] == sep[0] && s[i + |sep| - 1] == sep[|sep| - 1]
  {
    var i := IndexOf(s, sep);
    if i >= 0 {
      assert s[i] == s[i..i + |sep|][0] && s[i + |sep| - 1] == s[i..i + |sep|][|sep| - 1];
    }
  }

  lemma {:induction false} SplitNever(s: string, sep: string)
    requires sep != "" && Lacks(s, sep[0])
    ensures Split(s, sep) == [s]
  {
    SepAtIndex(s, sep);
  }

  /** Splitting at a separator whose first character stands nowhere else. */
  lemma {:induction false} SplitOnce(a: string, b: string, sep: string)
    requires sep != "" && Lacks(a, sep[0]) && Lacks(b, sep[0])
    ensures Split(a + sep + b, sep) == [a, b]
  {
    var s := a + sep + b;
    FirstIndex(s, sep);
    assert s[|a|..] == sep + b;
    forall j | 0 <= j < |a| ensures !(sep <= s[j..]) { assert s[j..][0] == a[j]; }
    assert IndexOf(s, sep) == |a|;
    assert s[..|a|] == a && s[|a| + |sep|..] == b;
    SplitNever(b, sep);
  }
}
