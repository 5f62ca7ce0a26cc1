/** The list operations the handlers perform on id arrays (likes, saves, members, admins). */
module Seqs {

  predicate Distinct<T(==)>(s: seq<T>)
  {
    forall i, j :: 0 <= i < j < |s| ==> s[i] != s[j]
  }

  /** `s.findIndex(y => y === x)`: the first position of x, or -1 when x is absent. */
  function FindIndex<T(==)>(s: seq<T>, x: T): (i: int)
    ensures -1 <= i < |s|
    ensures i == -1 <==> x !in s
    ensures 0 <= i ==> s[i] == x && x !in s[..i]
  {
    if s == [] then -1
    else if s[0] == x then 0
    else
      var j := FindIndex(s[1..], x);
      if j == -1 then -1
      else
        assert s[..j + 1] == [s[0]] + s[1..][..j];
        j + 1
  }

  /** `s.splice(s.findIndex(y => y === x), 1)` when x occurs: drops the first occurrence only. */
  function RemoveFirst<T(==)>(s: seq<T>, x: T): (r: seq<T>)
    ensures x !in s ==> r == s
    ensures x in s ==> |r| == |s| - 1 && multiset(r) == multiset(s) - multiset{x}
  {
    var i := FindIndex(s, x);
    if i == -1 then s
    else
      assert s == s[..i] + [s[i]] + s[i + 1..];
      s[..i] + s[i + 1..]
  }

  /** `s.filter(y => y !== x)`: drops every occurrence of x and keeps the rest in order. */
  function RemoveAll<T(==,!new)>(s: seq<T>, x: T): (r: seq<T>)
    ensures x !in r
    ensures forall y :: y != x ==> (y in r <==> y in s)
    ensures |r| <= |s|
    ensures x in s ==> |r| < |s|
  {
    if s == [] then []
    else (if s[0] == x then [] else [s[0]]) + RemoveAll(s[1..], x)
  }

  /**
   * The like/save toggle: append x when `findIndex` says it is absent, otherwise splice out
   * its first occurrence.
   */
  function Toggle<T(==,!new)>(s: seq<T>, x: T): (r: seq<T>)
    ensures forall y :: y != x ==> (y in r <==> y in s)
  {
    if FindIndex(s, x) == -1 then s + [x] else RemoveFirst(s, x)
  }

  lemma RemoveFirstKeepsDistinct<T>(s: seq<T>, x: T)
    requires Distinct(s)
    ensures Distinct(RemoveFirst(s, x)) && x !in RemoveFirst(s, x)
  {
    var i := FindIndex(s, x);
    if i != -1 {
      var r := s[..i] + s[i + 1..];
      forall a, b | 0 <= a < b < |r| ensures r[a] != r[b] {
        var a' := if a < i then a else a + 1;
        var b' := if b < i then b else b + 1;
        assert r[a] == s[a'] && r[b] == s[b'] && a' < b';
      }
      forall a | 0 <= a < |r| ensures r[a] != x {
        var a' := if a < i then a else a + 1;
        assert r[a] == s[a'] && a' != i;
      }
    }
  }

  /** A toggle flips membership: a like is added exactly when it was not there. */
  lemma ToggleFlips<T(!new)>(s: seq<T>, x: T)
    requires Distinct(s)
    ensures x in Toggle(s, x) <==> x !in s
  {
    RemoveFirstKeepsDistinct(s, x);
  }

  /** Toggling keeps an id list free of duplicates. */
  lemma ToggleKeepsDistinct<T(!new)>(s: seq<T>, x: T)
    requires Distinct(s)
    ensures Distinct(Toggle(s, x))
  {
    RemoveFirstKeepsDistinct(s, x);
  }

  /** Adding then removing the same id gives back exactly the original list. */
  lemma ToggleTwiceFromAbsent<T(!new)>(s: seq<T>, x: T)
    requires x !in s
    ensures Toggle(Toggle(s, x), x) == s
  {
    var t := s + [x];
    assert Toggle(s, x) == t;
    var i := FindIndex(t, x);
    assert t[|s|] == x;
    assert i == |s|;
    assert t[..i] == s && t[i + 1..] == [];
  }

  /**
   * Removing then re-adding an id gives back the same ids, the re-added one now last:
   * the list is restored up to order.
   */
  lemma ToggleTwiceFromPresent<T(!new)>(s: seq<T>, x: T)
    requires x in s && Distinct(s)
    ensures multiset(Toggle(Toggle(s, x), x)) == multiset(s)
  {
    RemoveFirstKeepsDistinct(s, x);
    var r := RemoveFirst(s, x);
    assert Toggle(r, x) == r + [x];
  }

  /** A non-empty sequence has a member: the witness for "nothing matched, so the result is empty". */
  lemma HeadIn<T>(s: seq<T>)
    ensures s != [] ==> s[0] in s
  {
  }

  /** Removing every occurrence of x keeps a list free of duplicates. */
  lemma {:induction false} RemoveAllKeepsDistinct<T(!new)>(s: seq<T>, x: T)
    requires Distinct(s)
    ensures Distinct(RemoveAll(s, x))
  {
    if s != [] {
      RemoveAllKeepsDistinct(s[1..], x);
      assert s[0] !in s[1..];
    }
  }

  /** Removing an element that is not there changes nothing. */
  lemma {:induction false} RemoveAllAbsent<T(!new)>(s: seq<T>, x: T)
    requires x !in s
    ensures RemoveAll(s, x) == s
  {
    if s != [] {
      RemoveAllAbsent(s[1..], x);
      assert s == [s[0]] + s[1..];
    }
  }

  /** Appending x and then removing every x gives what removing every x gave before. */
  lemma {:induction false} RemoveAllAppended<T(!new)>(s: seq<T>, x: T)
    ensures RemoveAll(s + [x], x) == RemoveAll(s, x)
  {
    if s == [] {
      assert RemoveAll([x], x) == [] + RemoveAll([], x);
    } else {
      assert (s + [x])[1..] == s[1..] + [x];
      RemoveAllAppended(s[1..], x);
    }
  }

  /** Order-preserving removal of later duplicates: `Array.from(new Set(s))`. */
  function Dedupe<T(==)>(s: seq<T>): (r: seq<T>)
  {
    if s == [] then []
    else
      var init := Dedupe(s[..|s| - 1]);
      if s[|s| - 1] in init then init else init + [s[|s| - 1]]
  }

  lemma {:induction false} DedupeSound<T(!new)>(s: seq<T>)
    ensures Distinct(Dedupe(s))
    ensures forall y :: y in Dedupe(s) <==> y in s
  {
    if s != [] {
      var init := s[..|s| - 1];
      DedupeSound(init);
      assert s == init + [s[|s| - 1]];
    }
  }
}
