/**
 The last line of _strip_tcodes in assistant/views.py, `s.replace("  ", " ").strip()`, and
 the fields that _drop_label_subkeys drops.
 */
module TidyTexts {
  import opened Json
  import opened Views

  // ----- Blanks -----

  function Blanks(n: nat): (t: Text)
    ensures |t| == n
  {
    seq(n, _ => BLANK)
  }

  /** A run of n blanks becomes one of half the length, rounded up. */
  lemma {:induction false} RunsAreHalved(n: nat)
    ensures Collapse(Blanks(n)) == Blanks((n + 1) / 2)
  {
    if n >= 2 {
      assert Blanks(n)[2..] == Blanks(n - 2);
      RunsAreHalved(n - 2);
      assert [BLANK] + Blanks((n - 1) / 2) == Blanks((n + 1) / 2);
    } else {
      assert Blanks(n) == Blanks((n + 1) / 2);
    }
  }

  /** Runs are treated one by one: a text may be cut anywhere but inside a run. */
  lemma {:induction false} CollapseConcat(a: Text, b: Text)
    requires a == [] || b == [] || a[|a| - 1] != BLANK || b[0] != BLANK
    ensures Collapse(a + b) == Collapse(a) + Collapse(b)
    decreases |a|
  {
    if a == [] {
      assert a + b == b;
    } else if b == [] {
      assert a + b == a;
    } else if |a| == 1 {
      assert (a + b)[1..] == b;
    } else if a[0] == BLANK && a[1] == BLANK {
      assert (a + b)[2..] == a[2..] + b;
      CollapseConcat(a[2..], b);
    } else {
      assert (a + b)[1..] == a[1..] + b;
      CollapseConcat(a[1..], b);
    }
  }

  /** What is not a blank of any kind. */
  function Ink(u: Unicode, s: Text): Text {
    if s == [] then [] else (if u.space(s[0]) then [] else [s[0]]) + Ink(u, s[1..])
  }

  lemma {:induction false} InkConcat(u: Unicode, a: Text, b: Text)
    ensures Ink(u, a + b) == Ink(u, a) + Ink(u, b)
  {
    if a == [] {
      assert a + b == b;
    } else {
      assert (a + b)[1..] == a[1..] + b;
      InkConcat(u, a[1..], b);
    }
  }

  lemma {:induction false} CollapseKeepsInk(u: Unicode, s: Text)
    requires u.space(BLANK)
    ensures Ink(u, Collapse(s)) == Ink(u, s)
    decreases |s|
  {
    if |s| >= 2 {
      if s[0] == BLANK && s[1] == BLANK {
        CollapseKeepsInk(u, s[2..]);
        assert s[1..][1..] == s[2..];
        assert ([BLANK] + Collapse(s[2..]))[1..] == Collapse(s[2..]);
      } else {
        CollapseKeepsInk(u, s[1..]);
        assert ([s[0]] + Collapse(s[1..]))[1..] == Collapse(s[1..]);
      }
    }
  }

  lemma {:induction false} TrimsLeft(u: Unicode, s: Text)
    ensures Ink(u, TrimLeft(u, s)) == Ink(u, s)
    ensures TrimLeft(u, s) == [] || !u.space(TrimLeft(u, s)[0])
  {
    if s != [] && u.space(s[0]) {
      TrimsLeft(u, s[1..]);
    }
  }

  lemma {:induction false} TrimsRight(u: Unicode, s: Text)
    ensures Ink(u, TrimRight(u, s)) == Ink(u, s)
    ensures TrimRight(u, s) <= s && (TrimRight(u, s) == [] || !u.space(TrimRight(u, s)[|TrimRight(u, s)| - 1]))
    decreases |s|
  {
    if s != [] && u.space(s[|s| - 1]) {
      var start, last := s[..|s| - 1], [s[|s| - 1]];
      TrimsRight(u, start);
      assert s == start + last && last[1..] == [];
      InkConcat(u, start, last);
    }
  }

  /** Tidying changes blanks and nothing else, and leaves none at either end. */
  lemma TidyChangesOnlyBlanks(u: Unicode, s: Text)
    requires u.space(BLANK)
    ensures Ink(u, Tidy(u, s)) == Ink(u, s)
    ensures Tidy(u, s) == [] || (!u.space(Tidy(u, s)[0]) && !u.space(Tidy(u, s)[|Tidy(u, s)| - 1]))
  {
    CollapseKeepsInk(u, s);
    TrimsLeft(u, Collapse(s));
    TrimsRight(u, TrimLeft(u, Collapse(s)));
  }

  // ----- Label fields -----

  /** The key is `key`, or ends with it after a dot or an underscore. */
  ghost predicate NamesKey(key: Text) {
    key == T("key") || exists start: Text :: key == start + T(".key") || key == start + T("_key")
  }

  lemma EndsWithExactly(s: Text, tail: Text)
    ensures EndsWith(s, tail) <==> exists start: Text :: s == start + tail
  {
    if EndsWith(s, tail) {
      assert s == s[..|s| - |tail|] + tail;
    }
  }

  /** A field is dropped exactly when it is `audit.key`, or is named as a key and its text holds a code. */
  lemma DroppedExactly(u: Unicode, key: Text, value: Json)
    ensures Dropped(u, key, value) <==>
            u.lower(key) == T("audit.key") || (NamesKey(u.lower(key)) && value.Str? && HasCode(u, value.s))
  {
    EndsWithExactly(u.lower(key), T(".key"));
    EndsWithExactly(u.lower(key), T("_key"));
  }

  /** The fields that the view leaves out at the top of an alert. */
  lemma LabelKeysExactly(key: Text)
    ensures LabelKey(key) <==> key == T("mitre") || key == T("rule_id") || key == T("rule_description") || key == T("evidence_file")
  {
    assert LABEL_KEYS[0] == "mitre" && LABEL_KEYS[1] == "rule_id" && LABEL_KEYS[2] == "rule_description" && LABEL_KEYS[3] == "evidence_file";
  }
}
