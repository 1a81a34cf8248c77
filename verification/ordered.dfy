/** Ascending key sequences: what `ORDER BY id ASC` returns. */
module Ordered {

  predicate Ascending(s: seq<nat>) {
    forall i, j :: 0 <= i < j < |s| ==> s[i] < s[j]
  }

  function Members(s: seq<nat>): set<nat> {
    set x | x in s
  }

  predicate IsMin(m: nat, s: set<nat>) {
    m in s && forall x :: x in s ==> m <= x
  }

  lemma {:induction false} MinExists(s: set<nat>)
    requires |s| > 0
    ensures exists m :: IsMin(m, s)
    decreases |s|
  {
    var y :| y in s;
    var rest := s - {y};
    if |rest| > 0 {
      MinExists(rest);
      var m :| IsMin(m, rest);
      assert s == rest + {y};
      assert IsMin(if y <= m then y else m, s);
    } else {
      assert IsMin(y, s);
    }
  }

  function Min(s: set<nat>): (m: nat)
    requires |s| > 0
    ensures IsMin(m, s)
  {
    MinExists(s);
    var m :| IsMin(m, s);
    m
  }

  /** The elements of a finite set in ascending order. */
  function Sorted(s: set<nat>): (r: seq<nat>)
    ensures Ascending(r)
    ensures forall x :: x in r <==> x in s
    ensures |r| == |s|
    decreases |s|
  {
    if |s| == 0 then []
    else
      var m := Min(s);
      var rest := Sorted(s - {m});
      assert s == {m} + (s - {m});
      [m] + rest
  }

  lemma HeadIsMember(s: seq<nat>)
    ensures |s| > 0 ==> s[0] in s
  {
  }

  /** Ascending sequences are determined by their elements. */
  lemma {:induction false} AscendingUnique(a: seq<nat>, b: seq<nat>)
    requires Ascending(a) && Ascending(b)
    requires forall x :: x in a <==> x in b
    ensures a == b
  {
    if a == [] {
      HeadIsMember(b);
    } else {
      assert a[0] in b;
      assert b[0] in a;
      assert a[0] == b[0];
      var a', b' := a[1..], b[1..];
      assert a == [a[0]] + a' && b == [b[0]] + b';
      assert a[0] !in a' && b[0] !in b';
      assert forall x :: x in a' <==> x in a && x != a[0];
      assert forall x :: x in b' <==> x in b && x != b[0];
      AscendingUnique(a', b');
    }
  }

  /** `LIMIT n` */
  function Limit<T>(s: seq<T>, n: nat): (r: seq<T>)
    ensures |r| == if |s| <= n then |s| else n
    ensures r == s[..|r|]
  {
    if |s| <= n then s else s[..n]
  }

  lemma LimitReaches<T>(s: seq<T>, n: nat, k: nat)
    requires k < |s| && k < n
    ensures s[k] in Limit(s, n)
  {
    assert Limit(s, n)[k] == s[k];
  }

  lemma {:induction false} AscendingHasNoDuplicates(s: seq<nat>)
    requires Ascending(s)
    ensures |Members(s)| == |s|
  {
    if |s| > 0 {
      var last := s[|s| - 1];
      var before := s[..|s| - 1];
      AscendingHasNoDuplicates(before);
      assert s == before + [last];
      assert last !in before;
      assert Members(s) == Members(before) + {last};
    }
  }

  /** In an ascending scan an element comes after exactly the smaller ones. */
  lemma SmallerComeFirst(s: seq<nat>, k: nat)
    requires Ascending(s) && k < |s|
    ensures Members(s[..k]) == set x | x in s && x < s[k]
    ensures |Members(s[..k])| == k
  {
    AscendingHasNoDuplicates(s[..k]);
    forall x ensures x in s[..k] <==> x in s && x < s[k] {
      if x in s[..k] {
        var i :| 0 <= i < k && s[i] == x;
      }
    }
  }

  lemma AscendingHalves(s: seq<nat>, n: nat, x: nat)
    requires Ascending(s) && n <= |s|
    ensures x in s[n..] <==> x in s && x !in s[..n]
  {
    assert s == s[..n] + s[n..];
    if x in s[..n] {
      var i :| 0 <= i < n && s[i] == x;
      forall j | n <= j < |s| ensures s[j] != x { assert s[i] < s[j]; }
    }
  }

  /** The part of an ascending scan above its first `n` elements is the ascending scan of what is left. */
  lemma SortedDrop(s: set<nat>, n: nat)
    requires n <= |s|
    ensures Sorted(s)[n..] == Sorted(s - Members(Sorted(s)[..n]))
  {
    var all := Sorted(s);
    forall x ensures x in all[n..] <==> x in s - Members(all[..n]) {
      AscendingHalves(all, n, x);
    }
    AscendingUnique(all[n..], Sorted(s - Members(all[..n])));
  }
}
