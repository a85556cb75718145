/** Counting the occurrences of a pattern in a sequence, overlaps included. */
module Occurrences {

  predicate OccursAt<T(==)>(s: seq<T>, p: seq<T>, i: int) {
    0 <= i <= |s| && p <= s[i..]
  }

  /** Python's `p in s`. */
  ghost predicate Contains<T>(s: seq<T>, p: seq<T>) {
    exists i :: OccursAt(s, p, i)
  }

  /** The number of positions at which the non-empty pattern `p` occurs. */
  function Count<T(==)>(s: seq<T>, p: seq<T>): nat
    requires p != []
  {
    if s == [] then 0 else (if p <= s then 1 else 0) + Count(s[1..], p)
  }

  /** No element of `g` can take part in an occurrence of `p`. */
  predicate Foreign<T(==)>(g: seq<T>, p: seq<T>) {
    forall i :: 0 <= i < |g| ==> g[i] !in p
  }

  lemma {:induction false} CountPositive<T>(s: seq<T>, p: seq<T>)
    requires p != []
    ensures Count(s, p) > 0 <==> Contains(s, p)
  {
    if s == [] {
    } else {
      CountPositive(s[1..], p);
      if p <= s {
        assert s[0..] == s;
        assert OccursAt(s, p, 0);
      }
      if Contains(s[1..], p) {
        var i :| OccursAt(s[1..], p, i);
        assert s[1..][i..] == s[i + 1..];
        assert OccursAt(s, p, i + 1);
      }
      if Contains(s, p) {
        var i :| OccursAt(s, p, i);
        if i > 0 {
          assert s[1..][i - 1..] == s[i..];
          assert OccursAt(s[1..], p, i - 1);
        }
      }
    }
  }

  /** Two occurrences are at least two: a pattern that occurs once has one position. */
  lemma {:induction false} UniquePosition<T>(s: seq<T>, p: seq<T>, i: int, j: int)
    requires p != [] && Count(s, p) == 1
    requires OccursAt(s, p, i) && OccursAt(s, p, j)
    ensures i == j
  {
    if i != j {
      var low, high := if i < j then i else j, if i < j then j else i;
      if low == 0 {
        assert s[0..] == s;
        assert s[1..][high - 1..] == s[high..];
        assert OccursAt(s[1..], p, high - 1);
        CountPositive(s[1..], p);
      } else {
        assert s[1..][low - 1..] == s[low..] && s[1..][high - 1..] == s[high..];
        if p <= s {
          assert OccursAt(s[1..], p, low - 1);
          CountPositive(s[1..], p);
        } else {
          UniquePosition(s[1..], p, low - 1, high - 1);
        }
      }
    }
  }

  lemma {:induction false} CountAfterForeign<T>(g: seq<T>, t: seq<T>, p: seq<T>)
    requires p != [] && Foreign(g, p)
    ensures Count(g + t, p) == Count(t, p)
  {
    if g == [] {
      assert g + t == t;
    } else {
      assert (g + t)[1..] == g[1..] + t;
      assert !(p <= g + t) by {
        assert (g + t)[0] == g[0] && g[0] !in p && p[0] in p;
      }
      CountAfterForeign(g[1..], t, p);
    }
  }

  /** A separator that shares no element with the pattern keeps the two sides apart. */
  lemma {:induction false} CountAcross<T>(a: seq<T>, g: seq<T>, t: seq<T>, p: seq<T>)
    requires p != [] && g != [] && Foreign(g, p)
    ensures Count(a + g + t, p) == Count(a, p) + Count(t, p)
  {
    if a == [] {
      assert a + g + t == g + t;
      CountAfterForeign(g, t, p);
    } else {
      assert (a + g + t)[1..] == a[1..] + g + t;
      CountAcross(a[1..], g, t, p);
      assert p <= a + g + t ==> |p| <= |a| by {
        assert (a + g + t)[|a|] == g[0];
        assert |p| > |a| ==> p[|a|] in p;
      }
    }
  }

  lemma {:induction false} CountWithoutHead<T>(s: seq<T>, p: seq<T>)
    requires p != [] && p[0] !in s
    ensures Count(s, p) == 0
  {
    if s != [] {
      assert s[0] in s;
      CountWithoutHead(s[1..], p);
    }
  }
}
