/**
 resolve_setting in siem/rbac/collect_dashboard_inventory.py: a setting with a dotted name
 may be written flat, nested or mixed, and every way of writing it is looked at.
 */
module Settings {
  import opened Common
  import opened Texts

  /** A loaded document. A mapping's entries are those with text keys; everything else is a scalar. */
  datatype Yaml = Scalar(text: string) | Mapping(entries: map<string, Yaml>)

  const PARENT_SHAPE := "invalid configuration parent shape"
  const AMBIGUOUS := "ambiguous configuration setting"

  // ----- Groupings of a dotted name -----

  function Sum(g: seq<nat>): nat {
    if g == [] then 0 else g[0] + Sum(g[1..])
  }

  /** Lengths of consecutive, non-empty groups that use up `n` parts. */
  predicate IsGrouping(g: seq<nat>, n: nat) {
    Sum(g) == n && forall i :: 0 <= i < |g| ==> g[i] > 0
  }

  function Key(parts: seq<string>, length: nat): string
    requires length <= |parts|
  {
    Join(parts[..length], '.')
  }

  datatype Step = Found(value: Yaml) | Absent | Blocked

  /** Where one grouping leads: each group is one key, and every group but the last needs a mapping. */
  function Follow(document: Yaml, parts: seq<string>, g: seq<nat>): Step
    requires IsGrouping(g, |parts|)
    decreases |g|
  {
    if g == [] then Found(document)
    else if document.Scalar? then Blocked
    else if Key(parts, g[0]) !in document.entries then Absent
    else Follow(document.entries[Key(parts, g[0])], parts[g[0]..], g[1..])
  }

  function Prepend(k: nat, gs: seq<seq<nat>>): (r: seq<seq<nat>>)
    ensures |r| == |gs| && forall i :: 0 <= i < |r| ==> r[i] == [k] + gs[i]
  {
    seq(|gs|, i requires 0 <= i < |gs| => [k] + gs[i])
  }

  /** All groupings of `n` parts whose first group has at least `least` of them. */
  function Groupings(n: nat, least: nat): (gs: seq<seq<nat>>)
    requires least > 0
    ensures forall i :: 0 <= i < |gs| ==> IsGrouping(gs[i], n) && (n > 0 ==> gs[i] != [] && gs[i][0] >= least)
    ensures least <= n || n == 0 ==> gs != []
    decreases n, n + 1 - least
  {
    if n == 0 then [[]]
    else if least > n then []
    else Prepend(least, Groupings(n - least, 1)) + Groupings(n, least + 1)
  }

  /** Taking the first group off leaves a grouping of the other parts. */
  lemma GroupingTail(g: seq<nat>, n: nat)
    requires IsGrouping(g, n) && n > 0
    ensures g != [] && 0 < g[0] <= n && IsGrouping(g[1..], n - g[0]) && g == [g[0]] + g[1..]
  {
  }

  /** Where the groupings with a longer first group start. */
  lemma GroupingsSplit(n: nat, least: nat)
    requires 0 < least <= n
    ensures Groupings(n, least) == Prepend(least, Groupings(n - least, 1)) + Groupings(n, least + 1)
  {
  }

  /** The groupings whose first group has `least` parts come first, in the order of what follows it. */
  lemma ShortFirstAt(n: nat, least: nat, i: nat)
    requires 0 < least <= n && i < |Groupings(n - least, 1)|
    ensures i < |Groupings(n, least)| && Groupings(n, least)[i] == [least] + Groupings(n - least, 1)[i]
  {
    GroupingsSplit(n, least);
  }

  /** Those with a longer first group come after them, in their own order. */
  lemma LongFirstAt(n: nat, least: nat, i: nat)
    requires 0 < least <= n && i < |Groupings(n, least + 1)|
    ensures var k := |Groupings(n - least, 1)| + i;
            k < |Groupings(n, least)| && Groupings(n, least)[k] == Groupings(n, least + 1)[i]
  {
    GroupingsSplit(n, least);
  }

  /** Every grouping is among them. */
  lemma {:induction false} GroupingsComplete(n: nat, least: nat, g: seq<nat>) returns (i: nat)
    requires least > 0 && IsGrouping(g, n) && (g != [] ==> g[0] >= least)
    ensures i < |Groupings(n, least)| && Groupings(n, least)[i] == g
    decreases n, n + 1 - least
  {
    if n == 0 {
      i := 0;
      assert g == [];
    } else {
      GroupingTail(g, n);
      if g[0] == least {
        i := GroupingsComplete(n - least, 1, g[1..]);
        ShortFirstAt(n, least, i);
      } else {
        i := GroupingsComplete(n, least + 1, g);
        LongFirstAt(n, least, i);
        i := i + |Groupings(n - least, 1)|;
      }
    }
  }

  ghost predicate AllDiffer(gs: seq<seq<nat>>) {
    forall i, j :: 0 <= i < j < |gs| ==> gs[i] != gs[j]
  }

  lemma PrependDiffers(k: nat, gs: seq<seq<nat>>)
    requires AllDiffer(gs)
    ensures AllDiffer(Prepend(k, gs))
  {
    forall i, j | 0 <= i < j < |gs| ensures Prepend(k, gs)[i] != Prepend(k, gs)[j] {
      assert ([k] + gs[i])[1..] == gs[i] && ([k] + gs[j])[1..] == gs[j];
    }
  }

  lemma ConcatDiffers(a: seq<seq<nat>>, b: seq<seq<nat>>, least: nat)
    requires AllDiffer(a) && AllDiffer(b)
    requires forall i :: 0 <= i < |a| ==> a[i] != [] && a[i][0] == least
    requires forall i :: 0 <= i < |b| ==> b[i] != [] && b[i][0] > least
    ensures AllDiffer(a + b)
  {
  }

  /** No grouping is there twice. */
  lemma {:induction false} GroupingsDiffer(n: nat, least: nat)
    requires least > 0
    ensures AllDiffer(Groupings(n, least))
    decreases n, n + 1 - least
  {
    if 0 < least <= n {
      GroupingsSplit(n, least);
      GroupingsDiffer(n - least, 1);
      GroupingsDiffer(n, least + 1);
      PrependDiffers(least, Groupings(n - least, 1));
      ConcatDiffers(Prepend(least, Groupings(n - least, 1)), Groupings(n, least + 1), least);
    }
  }

  // ----- candidates -----

  /** What one turn of the loop finds: the values below the key of the first `length` parts. */
  function Turn(entries: map<string, Yaml>, parts: seq<string>, length: nat): Result<seq<Yaml>, string>
    requires 0 < length <= |parts|
    decreases |parts|, |parts| + 1 - length, 0
  {
    var key := Key(parts, length);
    if key !in entries then Ok([])
    else if length == |parts| then Ok([entries[key]])
    else if entries[key].Scalar? then Err(PARENT_SHAPE)
    else Candidates(entries[key].entries, parts[length..], 1)
  }

  /** What the loop finds for the group lengths from `least` on. */
  function Candidates(entries: map<string, Yaml>, parts: seq<string>, least: nat): Result<seq<Yaml>, string>
    requires least > 0
    decreases |parts|, |parts| + 1 - least, 1
  {
    if least > |parts| then Ok([])
    else
      var head := Turn(entries, parts, least);
      if head.Err? then head
      else
        var rest := Candidates(entries, parts, least + 1);
        if rest.Err? then rest else Ok(head.value + rest.value)
  }

  /** What is made of the candidates. */
  function Decide(found: Result<seq<Yaml>, string>): Result<Option<Yaml>, string> {
    if found.Err? then Err(found.error)
    else if |found.value| > 1 then Err(AMBIGUOUS)
    else if found.value == [] then Ok(None)
    else Ok(Some(found.value[0]))
  }

  function ResolveSetting(document: map<string, Yaml>, name: string): Result<Option<Yaml>, string> {
    Decide(Candidates(document, Split(name, '.'), 1))
  }

  /** The nested function with its loop. */
  method FindCandidates(entries: map<string, Yaml>, parts: seq<string>) returns (r: Result<seq<Yaml>, string>)
    ensures r == Candidates(entries, parts, 1)
    decreases |parts|
  {
    var found: seq<Yaml> := [];
    ghost var whole := Candidates(entries, parts, 1);
    assert whole.Ok? ==> found + whole.value == whole.value;
    for length := 1 to |parts| + 1
      invariant whole ==
                var rest := Candidates(entries, parts, length);
                if rest.Err? then rest else Ok(found + rest.value)
    {
      ghost var rest := Candidates(entries, parts, length + 1);
      var key := Join(parts[..length], '.');
      if key !in entries {
        assert rest.Ok? ==> [] + rest.value == rest.value;
        continue;
      }
      var value := entries[key];
      if length == |parts| {
        assert rest.Ok? ==> found + ([value] + rest.value) == (found + [value]) + rest.value;
        found := found + [value];
      } else {
        if value.Scalar? {
          return Err(PARENT_SHAPE);
        }
        var inner := FindCandidates(value.entries, parts[length..]);
        if inner.Err? {
          return inner;
        }
        assert rest.Ok? ==> found + (inner.value + rest.value) == (found + inner.value) + rest.value;
        found := found + inner.value;
      }
    }
    assert found + [] == found;
    r := Ok(found);
  }

  method Resolve(document: map<string, Yaml>, name: string) returns (r: Result<Option<Yaml>, string>)
    ensures r == ResolveSetting(document, name)
  {
    var found := FindCandidates(document, Split(name, '.'));
    if found.Err? {
      return Err(found.error);
    }
    if |found.value| > 1 {
      return Err(AMBIGUOUS);
    }
    r := Ok(if found.value != [] then Some(found.value[0]) else None);
  }

  // ----- One entry for every grouping that leads to a value -----

  function Steps(document: Yaml, parts: seq<string>, gs: seq<seq<nat>>): (steps: seq<Step>)
    requires forall i :: 0 <= i < |gs| ==> IsGrouping(gs[i], |parts|)
    ensures |steps| == |gs| && forall i :: 0 <= i < |gs| ==> steps[i] == Follow(document, parts, gs[i])
  {
    seq(|gs|, i requires 0 <= i < |gs| => Follow(document, parts, gs[i]))
  }

  /** Where all groupings of the name lead, in order. */
  function AllSteps(document: Yaml, parts: seq<string>): seq<Step> {
    Steps(document, parts, Groupings(|parts|, 1))
  }

  ghost predicate SomeBlocked(steps: seq<Step>) {
    exists i :: 0 <= i < |steps| && steps[i].Blocked?
  }

  ghost predicate SomeFound(steps: seq<Step>, value: Yaml) {
    exists i :: 0 <= i < |steps| && steps[i] == Found(value)
  }

  ghost predicate TwoFound(steps: seq<Step>) {
    exists i, j :: 0 <= i < j < |steps| && steps[i].Found? && steps[j].Found?
  }

  /** The values found, in order. */
  function Values(steps: seq<Step>): seq<Yaml> {
    if steps == [] then []
    else (if steps[0].Found? then [steps[0].value] else []) + Values(steps[1..])
  }

  lemma {:induction false} ValuesConcat(a: seq<Step>, b: seq<Step>)
    ensures Values(a + b) == Values(a) + Values(b)
  {
    if a == [] {
      assert a + b == b;
    } else {
      var first, rest := (if a[0].Found? then [a[0].value] else []), a[1..];
      assert (a + b)[1..] == rest + b;
      ValuesConcat(rest, b);
      assert Values(a) == first + Values(rest) && Values(a + b) == first + Values(rest + b);
      assert first + (Values(rest) + Values(b)) == (first + Values(rest)) + Values(b);
    }
  }

  lemma BlockedConcat(a: seq<Step>, b: seq<Step>)
    ensures SomeBlocked(a + b) <==> SomeBlocked(a) || SomeBlocked(b)
  {
    if i :| 0 <= i < |a| && a[i].Blocked? {
      assert (a + b)[i].Blocked?;
    }
    if i :| 0 <= i < |b| && b[i].Blocked? {
      assert (a + b)[|a| + i].Blocked?;
    }
  }

  lemma {:induction false} AbsentValues(steps: seq<Step>)
    requires forall i :: 0 <= i < |steps| ==> steps[i].Absent?
    ensures Values(steps) == []
  {
    if steps != [] {
      AbsentValues(steps[1..]);
    }
  }

  /** Groupings that start with one key continue below its value, or stop where it is missing. */
  lemma StepsBelow(entries: map<string, Yaml>, parts: seq<string>, k: nat, gs: seq<seq<nat>>)
    requires 0 < k <= |parts| && forall i :: 0 <= i < |gs| ==> IsGrouping(gs[i], |parts| - k)
    ensures forall i :: 0 <= i < |gs| ==> IsGrouping([k] + gs[i], |parts|)
    ensures var steps := Steps(Mapping(entries), parts, Prepend(k, gs));
            if Key(parts, k) in entries then steps == Steps(entries[Key(parts, k)], parts[k..], gs)
            else Values(steps) == [] && !SomeBlocked(steps)
  {
    forall i | 0 <= i < |gs|
      ensures IsGrouping([k] + gs[i], |parts|)
      ensures Follow(Mapping(entries), parts, [k] + gs[i]) ==
              if Key(parts, k) in entries then Follow(entries[Key(parts, k)], parts[k..], gs[i]) else Absent
    {
      assert ([k] + gs[i])[1..] == gs[i];
    }
    if Key(parts, k) !in entries {
      AbsentValues(Steps(Mapping(entries), parts, Prepend(k, gs)));
    }
  }

  /** What steps amount to: an error when one is blocked, or the values found. */
  ghost function Collected(steps: seq<Step>): Result<seq<Yaml>, string> {
    if SomeBlocked(steps) then Err(PARENT_SHAPE) else Ok(Values(steps))
  }

  lemma CollectedConcat(a: seq<Step>, b: seq<Step>)
    ensures Collected(a + b) ==
            if Collected(a).Err? then Collected(a) else if Collected(b).Err? then Collected(b)
            else Ok(Collected(a).value + Collected(b).value)
  {
    ValuesConcat(a, b);
    BlockedConcat(a, b);
  }

  /** With no parts left there is one grouping, and it leads to the value itself. */
  lemma LastTurn(value: Yaml)
    ensures Collected(Steps(value, [], Groupings(0, 1))) == Ok([value])
  {
    var gs := Groupings(0, 1);
    assert |gs| == 1 && gs[0] == [];
    var steps := Steps(value, [], gs);
    assert steps[0] == Follow(value, [], []) == Found(value);
    assert steps == [Found(value)] && steps[1..] == [];
    assert Values(steps) == [value] + Values(steps[1..]) == [value] && !SomeBlocked(steps);
  }

  /** One turn fails exactly when one of the groupings that start with its key is blocked. */
  lemma {:induction false} TurnMeetsGroupings(entries: map<string, Yaml>, parts: seq<string>, length: nat)
    requires 0 < length <= |parts|
    ensures Turn(entries, parts, length) ==
            Collected(Steps(Mapping(entries), parts, Prepend(length, Groupings(|parts| - length, 1))))
    decreases |parts|, |parts| + 1 - length, 0
  {
    var below, key := Groupings(|parts| - length, 1), Key(parts, length);
    StepsBelow(entries, parts, length, below);
    if key in entries {
      var steps := Steps(entries[key], parts[length..], below);
      if length == |parts| {
        LastTurn(entries[key]);
      } else if entries[key].Scalar? {
        assert steps[0] == Follow(entries[key], parts[length..], below[0]);
      } else {
        CandidatesMeetGroupings(entries[key].entries, parts[length..], 1);
      }
    }
  }

  /** The groupings from a length on are those with that length first and those with more. */
  lemma StepsSplit(document: Yaml, parts: seq<string>, least: nat)
    requires 0 < least <= |parts|
    ensures Steps(document, parts, Groupings(|parts|, least)) ==
            Steps(document, parts, Prepend(least, Groupings(|parts| - least, 1)))
            + Steps(document, parts, Groupings(|parts|, least + 1))
  {
  }

  /** The loop fails exactly when a grouping is blocked, and otherwise collects what the groupings lead to. */
  lemma {:induction false} CandidatesMeetGroupings(entries: map<string, Yaml>, parts: seq<string>, least: nat)
    requires least > 0 && parts != []
    ensures Candidates(entries, parts, least) == Collected(Steps(Mapping(entries), parts, Groupings(|parts|, least)))
    decreases |parts|, |parts| + 1 - least, 1
  {
    if least <= |parts| {
      TurnMeetsGroupings(entries, parts, least);
      CandidatesMeetGroupings(entries, parts, least + 1);
      var a := Steps(Mapping(entries), parts, Prepend(least, Groupings(|parts| - least, 1)));
      var b := Steps(Mapping(entries), parts, Groupings(|parts|, least + 1));
      StepsSplit(Mapping(entries), parts, least);
      CollectedConcat(a, b);
    }
  }

  lemma {:induction false} ValuesAreFound(steps: seq<Step>, value: Yaml)
    ensures value in Values(steps) <==> SomeFound(steps, value)
  {
    if steps != [] {
      ValuesAreFound(steps[1..], value);
      assert forall i :: 1 <= i < |steps| ==> steps[i] == steps[1..][i - 1];
      if SomeFound(steps[1..], value) {
        var i :| 0 <= i < |steps[1..]| && steps[1..][i] == Found(value);
        assert steps[i + 1] == Found(value);
      }
    }
  }

  lemma {:induction false} TwoValues(steps: seq<Step>)
    ensures |Values(steps)| > 1 <==> TwoFound(steps)
  {
    if steps != [] {
      var rest := steps[1..];
      TwoValues(rest);
      assert forall i :: 1 <= i < |steps| ==> steps[i] == rest[i - 1];
      if TwoFound(rest) {
        var i, j :| 0 <= i < j < |rest| && rest[i].Found? && rest[j].Found?;
        assert steps[i + 1].Found? && steps[j + 1].Found?;
      }
      if steps[0].Found? && Values(rest) != [] {
        ValuesAreFound(rest, Values(rest)[0]);
        var i :| 0 <= i < |rest| && rest[i] == Found(Values(rest)[0]);
        assert steps[0].Found? && steps[i + 1].Found?;
      }
      if TwoFound(steps) {
        var i, j :| 0 <= i < j < |steps| && steps[i].Found? && steps[j].Found?;
        assert SomeFound(rest, rest[j - 1].value);
        ValuesAreFound(rest, rest[j - 1].value);
        assert i > 0 ==> rest[i - 1].Found? && rest[j - 1].Found?;
      }
    }
  }

  // ----- What is decided -----

  /** The grouping `g` of the name leads through nested mappings to `value`. */
  ghost predicate Leads(document: map<string, Yaml>, name: string, g: seq<nat>, value: Yaml) {
    IsGrouping(g, |Split(name, '.')|) && Follow(Mapping(document), Split(name, '.'), g) == Found(value)
  }

  /** Some grouping of the name leads to `value`. */
  ghost predicate LeadsTo(document: map<string, Yaml>, name: string, value: Yaml) {
    exists g :: Leads(document, name, g, value)
  }

  /** The grouping `g` needs a mapping where the document has a scalar. */
  ghost predicate Obstructed(document: map<string, Yaml>, name: string, g: seq<nat>) {
    IsGrouping(g, |Split(name, '.')|) && Follow(Mapping(document), Split(name, '.'), g).Blocked?
  }

  /** Two different groupings lead to values, equal or not. */
  ghost predicate Ambiguous(document: map<string, Yaml>, name: string) {
    exists g, h, v, w :: g != h && Leads(document, name, g, v) && Leads(document, name, h, w)
  }

  lemma BlockedMeansObstructed(document: map<string, Yaml>, name: string)
    ensures SomeBlocked(AllSteps(Mapping(document), Split(name, '.'))) <==> exists g :: Obstructed(document, name, g)
  {
    var parts := Split(name, '.');
    var gs := Groupings(|parts|, 1);
    if i :| 0 <= i < |gs| && AllSteps(Mapping(document), parts)[i].Blocked? {
      assert Obstructed(document, name, gs[i]);
    }
    if g :| Obstructed(document, name, g) {
      var i := GroupingsComplete(|parts|, 1, g);
      assert AllSteps(Mapping(document), parts)[i].Blocked?;
    }
  }

  lemma FoundMeansLeads(document: map<string, Yaml>, name: string, value: Yaml)
    ensures SomeFound(AllSteps(Mapping(document), Split(name, '.')), value) <==> LeadsTo(document, name, value)
  {
    var parts := Split(name, '.');
    var gs := Groupings(|parts|, 1);
    if i :| 0 <= i < |gs| && AllSteps(Mapping(document), parts)[i] == Found(value) {
      assert Leads(document, name, gs[i], value);
    }
    if g :| Leads(document, name, g, value) {
      var i := GroupingsComplete(|parts|, 1, g);
      assert AllSteps(Mapping(document), parts)[i] == Found(value);
    }
  }

  lemma TwoFoundMeansAmbiguous(document: map<string, Yaml>, name: string)
    ensures TwoFound(AllSteps(Mapping(document), Split(name, '.'))) <==> Ambiguous(document, name)
  {
    if TwoFound(AllSteps(Mapping(document), Split(name, '.'))) {
      TwoFoundIsAmbiguous(document, name);
    }
    if Ambiguous(document, name) {
      AmbiguousIsTwoFound(document, name);
    }
  }

  lemma TwoFoundIsAmbiguous(document: map<string, Yaml>, name: string)
    requires TwoFound(AllSteps(Mapping(document), Split(name, '.')))
    ensures Ambiguous(document, name)
  {
    var parts := Split(name, '.');
    var gs, steps := Groupings(|parts|, 1), AllSteps(Mapping(document), parts);
    var i, j :| 0 <= i < j < |steps| && steps[i].Found? && steps[j].Found?;
    GroupingsDiffer(|parts|, 1);
    assert Leads(document, name, gs[i], steps[i].value) && Leads(document, name, gs[j], steps[j].value);
  }

  lemma AmbiguousIsTwoFound(document: map<string, Yaml>, name: string)
    requires Ambiguous(document, name)
    ensures TwoFound(AllSteps(Mapping(document), Split(name, '.')))
  {
    var parts := Split(name, '.');
    var steps := AllSteps(Mapping(document), parts);
    var g, h, v, w :| g != h && Leads(document, name, g, v) && Leads(document, name, h, w);
    var i := GroupingsComplete(|parts|, 1, g);
    var j := GroupingsComplete(|parts|, 1, h);
    assert steps[i].Found? && steps[j].Found? && (i < j || j < i);
  }

  /** The decision, in terms of where the groupings lead. */
  lemma DecideBySteps(steps: seq<Step>)
    ensures var r := Decide(Collected(steps));
            && (r == Err(PARENT_SHAPE) <==> SomeBlocked(steps))
            && (!SomeBlocked(steps) ==>
                  && (r == Err(AMBIGUOUS) <==> TwoFound(steps))
                  && (r == Ok(None) <==> forall v :: !SomeFound(steps, v))
                  && forall v :: r == Ok(Some(v)) <==> !TwoFound(steps) && SomeFound(steps, v))
  {
    var values := Values(steps);
    TwoValues(steps);
    forall v ensures v in values <==> SomeFound(steps, v) {
      ValuesAreFound(steps, v);
    }
    assert PARENT_SHAPE[0] != AMBIGUOUS[0];
    assert values != [] ==> values[0] in values;
    assert |values| == 1 ==> forall v :: v in values <==> v == values[0];
  }

  /** Missing, unique, ambiguous and malformed are told apart exactly. */
  lemma ResolveDecides(document: map<string, Yaml>, name: string)
    ensures ResolveSetting(document, name) == Err(PARENT_SHAPE) <==> exists g :: Obstructed(document, name, g)
    ensures (forall g :: !Obstructed(document, name, g)) ==>
              var r := ResolveSetting(document, name);
              && (r == Ok(None) <==> forall v :: !LeadsTo(document, name, v))
              && (r == Err(AMBIGUOUS) <==> Ambiguous(document, name))
              && (forall v :: r == Ok(Some(v)) <==> !Ambiguous(document, name) && LeadsTo(document, name, v))
  {
    CandidatesMeetGroupings(document, Split(name, '.'), 1);
    DecideBySteps(AllSteps(Mapping(document), Split(name, '.')));
    BlockedMeansObstructed(document, name);
    TwoFoundMeansAmbiguous(document, name);
    forall v ensures SomeFound(AllSteps(Mapping(document), Split(name, '.')), v) <==> LeadsTo(document, name, v) {
      FoundMeansLeads(document, name, v);
    }
  }

  // ----- Every encoding resolves -----

  /** The setting written with one grouping of its name, and nothing else. */
  function Nest(parts: seq<string>, g: seq<nat>, value: Yaml): Yaml
    requires IsGrouping(g, |parts|)
    decreases |g|
  {
    if g == [] then value else Mapping(map[Key(parts, g[0]) := Nest(parts[g[0]..], g[1..], value)])
  }

  /** The document writes the setting with grouping `g`; other keys are there as long as none starts another way to write it. */
  ghost predicate Writes(document: Yaml, parts: seq<string>, g: seq<nat>, value: Yaml)
    requires IsGrouping(g, |parts|)
    decreases |g|
  {
    if g == [] then document == value
    else
      && document.Mapping? && Key(parts, g[0]) in document.entries
      && (forall k :: 0 < k <= |parts| && k != g[0] ==> Key(parts, k) !in document.entries)
      && Writes(document.entries[Key(parts, g[0])], parts[g[0]..], g[1..], value)
  }

  /** Longer groups make longer keys. */
  lemma KeysGrow(parts: seq<string>, a: nat, b: nat)
    requires 0 < a < b <= |parts|
    ensures |Key(parts, a)| < |Key(parts, b)|
  {
    JoinConcat(parts[..a], parts[a..b], '.');
    assert parts[..a] + parts[a..b] == parts[..b];
  }

  lemma {:induction false} NestWrites(parts: seq<string>, g: seq<nat>, value: Yaml)
    requires IsGrouping(g, |parts|)
    ensures Writes(Nest(parts, g, value), parts, g, value)
    decreases |g|
  {
    if g != [] {
      NestWrites(parts[g[0]..], g[1..], value);
      forall k | 0 < k <= |parts| && k != g[0] ensures Key(parts, k) != Key(parts, g[0]) {
        if k < g[0] {
          KeysGrow(parts, k, g[0]);
        } else {
          KeysGrow(parts, g[0], k);
        }
      }
    }
  }

  /** In such a document the grouping leads to the value and every other one leads nowhere. */
  lemma {:induction false} WrittenLeads(document: Yaml, parts: seq<string>, g: seq<nat>, value: Yaml, h: seq<nat>)
    requires IsGrouping(g, |parts|) && IsGrouping(h, |parts|) && Writes(document, parts, g, value)
    ensures Follow(document, parts, h) == if h == g then Found(value) else Absent
    decreases |g|
  {
    if g == [] {
      assert h == [];
    } else if h[0] == g[0] {
      WrittenLeads(document.entries[Key(parts, g[0])], parts[g[0]..], g[1..], value, h[1..]);
      assert g == [g[0]] + g[1..] && h == [h[0]] + h[1..];
    }
  }

  /** Written flat, nested or mixed, with whatever beside it, a setting resolves to its value. */
  lemma EveryEncodingResolves(document: map<string, Yaml>, name: string, g: seq<nat>, value: Yaml)
    requires IsGrouping(g, |Split(name, '.')|) && Writes(Mapping(document), Split(name, '.'), g, value)
    ensures ResolveSetting(document, name) == Ok(Some(value))
  {
    var parts := Split(name, '.');
    forall h | IsGrouping(h, |parts|) ensures Follow(Mapping(document), parts, h) == if h == g then Found(value) else Absent {
      WrittenLeads(Mapping(document), parts, g, value, h);
    }
    assert Leads(document, name, g, value);
    ResolveDecides(document, name);
  }

  lemma NestResolves(name: string, g: seq<nat>, value: Yaml)
    requires IsGrouping(g, |Split(name, '.')|)
    ensures var document := Nest(Split(name, '.'), g, value);
            document.Mapping? && ResolveSetting(document.entries, name) == Ok(Some(value))
  {
    var parts := Split(name, '.');
    assert g != [];
    NestWrites(parts, g, value);
    EveryEncodingResolves(Nest(parts, g, value).entries, name, g, value);
  }
}
