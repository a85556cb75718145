/**
 "Read everything twice and compare": the pattern that load_bootstrap,
 observe_service_configuration, observe_running_process and the server inventory's
 collect share. The values belong to others, who may change them between any two reads.
 */
module DoubleCollect {
  import opened Common

  /** A value that, once changed, never comes back. */
  ghost predicate NeverReturns<V>(register: nat -> V) {
    forall a, b, c :: a <= b <= c && register(a) == register(c) ==> register(b) == register(a)
  }

  /** The values read one after another, and the time of the last read. */
  datatype Pass<V> = Pass(values: seq<V>, end: nat)

  function Collect<V>(registers: seq<nat -> V>, gap: nat -> nat, t: nat): (p: Pass<V>)
    ensures |p.values| == |registers| && p.end >= t
  {
    if registers == [] then Pass([], t)
    else
      var t1 := Next(gap, t);
      var rest := Collect(registers[1..], gap, t1);
      Pass([registers[0](t1)] + rest.values, rest.end)
  }

  /** The two passes that an observer makes, the second after the first. */
  function CollectTwice<V(==)>(registers: seq<nat -> V>, gap: nat -> nat, t: nat): Option<seq<V>> {
    var first := Collect(registers, gap, t);
    var second := Collect(registers, gap, first.end);
    if first.values == second.values then Some(first.values) else None
  }

  method ObservePass<V>(registers: seq<nat -> V>, gap: nat -> nat, t: nat) returns (values: seq<V>, clock: nat)
    ensures Pass(values, clock) == Collect(registers, gap, t)
  {
    values, clock := [], t;
    ghost var whole := Collect(registers, gap, t);
    assert registers[0..] == registers && values + whole.values == whole.values;
    for i := 0 to |registers|
      invariant whole == Collected(values, Collect(registers[i..], gap, clock))
    {
      CollectStep(registers, gap, clock, i);
      clock := Next(gap, clock);
      Regroup(values, registers[i](clock), Collect(registers[i + 1..], gap, clock));
      values := values + [registers[i](clock)];
    }
  }

  /** What is collected when `values` precede the rest. */
  ghost function Collected<V>(values: seq<V>, rest: Pass<V>): Pass<V> {
    Pass(values + rest.values, rest.end)
  }

  lemma Regroup<V>(values: seq<V>, value: V, rest: Pass<V>)
    ensures Collected(values, Pass([value] + rest.values, rest.end)) == Collected(values + [value], rest)
  {
    assert values + ([value] + rest.values) == (values + [value]) + rest.values;
  }

  lemma CollectStep<V>(registers: seq<nat -> V>, gap: nat -> nat, t: nat, i: nat)
    requires i < |registers|
    ensures var t1 := Next(gap, t);
            var rest := Collect(registers[i + 1..], gap, t1);
            Collect(registers[i..], gap, t) == Pass([registers[i](t1)] + rest.values, rest.end)
  {
    assert registers[i..][1..] == registers[i + 1..];
  }

  /** The observers' loop: two passes, the second compared with the first. */
  method Observe<V(==)>(registers: seq<nat -> V>, gap: nat -> nat, t: nat) returns (r: Option<seq<V>>)
    ensures r == CollectTwice(registers, gap, t)
  {
    var snapshots: seq<seq<V>> := [];
    var clock := t;
    for pass := 0 to 2
      invariant |snapshots| == pass
      invariant pass == 0 ==> clock == t
      invariant pass >= 1 ==> Pass(snapshots[0], Collect(registers, gap, t).end) == Collect(registers, gap, t)
      invariant pass == 1 ==> clock == Collect(registers, gap, t).end
      invariant pass == 2 ==> snapshots[1] == Collect(registers, gap, Collect(registers, gap, t).end).values
    {
      var values;
      values, clock := ObservePass(registers, gap, clock);
      snapshots := snapshots + [values];
    }
    r := if snapshots[0] == snapshots[1] then Some(snapshots[0]) else None;
  }

  /** Each value of a pass was read at some time during it. */
  lemma {:induction false} ReadDuringPass<V>(registers: seq<nat -> V>, gap: nat -> nat, t: nat, i: nat) returns (u: nat)
    requires i < |registers|
    ensures t < u <= Collect(registers, gap, t).end && registers[i](u) == Collect(registers, gap, t).values[i]
    decreases i
  {
    var t1 := Next(gap, t);
    if i == 0 {
      u := t1;
    } else {
      u := ReadDuringPass(registers[1..], gap, t1, i - 1);
    }
  }

  /** A value seen before and after `cut` held at `cut`. */
  lemma HeldBetween<V>(register: nat -> V, before: nat, cut: nat, after: nat)
    requires NeverReturns(register) && before <= cut <= after && register(before) == register(after)
    ensures register(cut) == register(before)
  {
  }

  ghost predicate AllHold<V>(registers: seq<nat -> V>, values: seq<V>, instant: nat)
    requires |registers| == |values|
  {
    forall i :: 0 <= i < |registers| ==> registers[i](instant) == values[i]
  }

  /** If no value returns after changing, all values of two equal passes held together when the first pass ended. */
  lemma EqualPassesAreSnapshot<V>(registers: seq<nat -> V>, gap: nat -> nat, t: nat)
    requires forall i :: 0 <= i < |registers| ==> NeverReturns(registers[i])
    requires CollectTwice(registers, gap, t).Some?
    ensures AllHold(registers, CollectTwice(registers, gap, t).value, Collect(registers, gap, t).end)
  {
    var instant := Collect(registers, gap, t).end;
    forall i | 0 <= i < |registers| ensures registers[i](instant) == CollectTwice(registers, gap, t).value[i] {
      var u := ReadDuringPass(registers, gap, t, i);
      var w := ReadDuringPass(registers, gap, instant, i);
      HeldBetween(registers[i], u, instant, w);
    }
  }

  /** Values that hold still during both passes are always accepted. */
  lemma StillValuesAccepted<V>(registers: seq<nat -> V>, gap: nat -> nat, t: nat)
    requires forall i, u, w :: 0 <= i < |registers| && t < u && t < w ==> registers[i](u) == registers[i](w)
    ensures CollectTwice(registers, gap, t).Some?
  {
    var first := Collect(registers, gap, t);
    var second := Collect(registers, gap, first.end);
    forall i | 0 <= i < |registers| ensures first.values[i] == second.values[i] {
      var u := ReadDuringPass(registers, gap, t, i);
      var w := ReadDuringPass(registers, gap, first.end, i);
    }
    assert first.values == second.values;
  }

  /** Two registers that are never zero together, each read only when it is. */
  lemma EqualPassesWithoutInstant()
    ensures var odd, even := (t: nat) => t % 2, (t: nat) => (t + 1) % 2;
            CollectTwice([even, odd], (t: nat) => 0, 0) == Some([0, 0])
            && forall instant :: !AllHold([even, odd], [0, 0], instant)
  {
    var odd, even, gap := (t: nat) => t % 2, (t: nat) => (t + 1) % 2, (t: nat) => 0;
    var registers := [even, odd];
    assert registers[1..] == [odd] && [odd][1..] == [];
    assert Collect([odd], gap, 1) == Pass([0], 2) && Collect([odd], gap, 3) == Pass([0], 4);
    assert forall instant :: registers[0](instant) + registers[1](instant) == 1;
    assert Collect(registers, gap, 0) == Pass([0, 0], 2) && Collect(registers, gap, 2) == Pass([0, 0], 4);
  }
}
