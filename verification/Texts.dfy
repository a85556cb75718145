/** Python's `split`, `join` and `replace` on sequences. */
module Texts {

  /** `s.split(sep)` for a one-element separator. */
  function Split<E(==)>(s: seq<E>, sep: E): (parts: seq<seq<E>>)
    ensures parts != []
    ensures forall i :: 0 <= i < |parts| ==> sep !in parts[i]
  {
    if s == [] then [[]]
    else
      var rest := Split(s[1..], sep);
      if s[0] == sep then [[]] + rest else [[s[0]] + rest[0]] + rest[1..]
  }

  /** `sep.join(parts)` */
  function Join<E>(parts: seq<seq<E>>, sep: E): seq<E> {
    if parts == [] then []
    else if |parts| == 1 then parts[0]
    else parts[0] + [sep] + Join(parts[1..], sep)
  }

  lemma {:induction false} JoinSplit<E>(s: seq<E>, sep: E)
    ensures Join(Split(s, sep), sep) == s
  {
    if s != [] {
      JoinSplit(s[1..], sep);
      var rest := Split(s[1..], sep);
      if s[0] == sep {
        var parts := [[]] + rest;
        assert parts[1..] == rest;
        assert [] + [sep] + s[1..] == s;
      } else {
        var parts := [[s[0]] + rest[0]] + rest[1..];
        assert parts[1..] == rest[1..];
        assert Join(parts, sep) == [s[0]] + Join(rest, sep);
      }
    }
  }

  /** Splitting at a separator that stands between two texts splits each of them. */
  lemma {:induction false} SplitConcat<E>(a: seq<E>, sep: E, b: seq<E>)
    ensures Split(a + [sep] + b, sep) == Split(a, sep) + Split(b, sep)
  {
    var s := a + [sep] + b;
    if a == [] {
      assert s[1..] == b;
    } else {
      assert s[1..] == a[1..] + [sep] + b;
      SplitConcat(a[1..], sep, b);
    }
  }

  lemma {:induction false} SplitOne<E>(s: seq<E>, sep: E)
    requires sep !in s
    ensures Split(s, sep) == [s]
  {
    if s != [] {
      assert s[0] in s;
      SplitOne(s[1..], sep);
      assert [s[0]] + s[1..] == s;
    }
  }

  lemma {:induction false} SplitJoin<E>(parts: seq<seq<E>>, sep: E)
    requires parts != [] && forall i :: 0 <= i < |parts| ==> sep !in parts[i]
    ensures Split(Join(parts, sep), sep) == parts
  {
    SplitOne(parts[0], sep);
    if |parts| > 1 {
      SplitJoin(parts[1..], sep);
      SplitConcat(parts[0], sep, Join(parts[1..], sep));
      assert [parts[0]] + parts[1..] == parts;
    }
  }

  lemma {:induction false} JoinConcat<E>(a: seq<seq<E>>, b: seq<seq<E>>, sep: E)
    requires a != [] && b != []
    ensures Join(a + b, sep) == Join(a, sep) + [sep] + Join(b, sep)
  {
    if |a| == 1 {
      assert (a + b)[1..] == b;
    } else {
      assert (a + b)[1..] == a[1..] + b;
      JoinConcat(a[1..], b, sep);
    }
  }

  /** Joining adds separators and nothing else. */
  lemma {:induction false} JoinHas<E>(parts: seq<seq<E>>, sep: E, e: E)
    requires e != sep
    ensures e in Join(parts, sep) <==> exists i :: 0 <= i < |parts| && e in parts[i]
  {
    if |parts| > 1 {
      JoinHas(parts[1..], sep, e);
      assert forall i :: 0 < i < |parts| ==> parts[i] == parts[1..][i - 1];
      if i :| 0 <= i < |parts[1..]| && e in parts[1..][i] {
        assert e in parts[i + 1];
      }
    }
  }
}
