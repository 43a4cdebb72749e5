/**
  The nestable critical section: a nesting counter that masks interrupts (HwiP_disable)
  on the outermost Enter and restores them (HwiP_restore) whenever an Exit leaves the
  counter at zero.
*/
module CriticalSection {
  import opened PortTypes

  /** A call into the interrupt-masking primitives, with the key it passes or returns. */
  datatype HwiCall = Disable(key: Uint32) | Restore(key: Uint32)

  /** The file's static state, together with the masking calls made so far. */
  datatype GuardState = GuardState(irqNestCounter: int, previousIrqState: Uint32, key: Uint32, hwi: seq<HwiCall>)

  /** Static zero initialisation, before any call. */
  const Initial: GuardState := GuardState(0, 0, 0, [])

  /** Enter, where `disableKey` is what HwiP_disable returns if it is called. */
  function EnterStep(s: GuardState, disableKey: Uint32): (t: GuardState)
    ensures t.irqNestCounter == s.irqNestCounter + 1 && t.previousIrqState == s.previousIrqState
    ensures t.hwi != s.hwi <==> s.irqNestCounter == 0
    ensures s.irqNestCounter == 0 ==> t.key == disableKey && t.hwi == s.hwi + [Disable(disableKey)]
    ensures s.irqNestCounter != 0 ==> t.key == s.key && t.hwi == s.hwi
  {
    var masked := if s.irqNestCounter == 0 then s.(key := disableKey, hwi := s.hwi + [Disable(disableKey)]) else s;
    masked.(irqNestCounter := s.irqNestCounter + 1)
  }

  /** Exit: decrement, clamp at zero, restore when the counter is zero and no earlier state was saved. */
  function ExitStep(s: GuardState): (t: GuardState)
    ensures t.irqNestCounter == (if s.irqNestCounter >= 1 then s.irqNestCounter - 1 else 0)
    ensures t.key == s.key && t.previousIrqState == s.previousIrqState
    ensures !(t.irqNestCounter == 0 && s.previousIrqState == 0) ==> t.hwi == s.hwi
    ensures s.previousIrqState == 0 ==>
      (t.hwi == s.hwi + [Restore(s.key)] <==> t.irqNestCounter == 0)
  {
    var decremented := s.irqNestCounter - 1;
    var counter := if decremented < 0 then 0 else decremented;
    if counter == 0 && s.previousIrqState == 0 then
      s.(irqNestCounter := counter, hwi := s.hwi + [Restore(s.key)])
    else
      s.(irqNestCounter := counter)
  }

  datatype Op = Enter(disableKey: Uint32) | Exit

  function Step(s: GuardState, op: Op): GuardState
  {
    match op
    case Enter(k) => EnterStep(s, k)
    case Exit => ExitStep(s)
  }

  /** The state after running `ops` in order from `s`. */
  function Run(s: GuardState, ops: seq<Op>): GuardState
    decreases |ops|
  {
    if ops == [] then s else Step(Run(s, ops[..|ops| - 1]), ops[|ops| - 1])
  }

  lemma {:induction false} RunAppend(s: GuardState, a: seq<Op>, b: seq<Op>)
    ensures Run(s, a + b) == Run(Run(s, a), b)
    decreases |b|
  {
    if b == [] {
      assert a + b == a;
    } else {
      var n := |b| - 1;
      assert (a + b)[..|a + b| - 1] == a + b[..n];
      assert (a + b)[|a + b| - 1] == b[n];
      RunAppend(s, a, b[..n]);
    }
  }

  /** One Enter per key, in order. */
  function Enters(keys: seq<Uint32>): (ops: seq<Op>)
    ensures |ops| == |keys|
  {
    if keys == [] then [] else [Enter(keys[0])] + Enters(keys[1..])
  }

  /** `n` Exits. */
  function Exits(n: nat): (ops: seq<Op>)
    ensures |ops| == n
  {
    if n == 0 then [] else Exits(n - 1) + [Exit]
  }

  /** Enters made while the counter is already positive touch neither the hardware nor the key. */
  lemma {:induction false} NestedEntersQuiet(s: GuardState, keys: seq<Uint32>)
    requires s.irqNestCounter > 0
    ensures Run(s, Enters(keys)) == s.(irqNestCounter := s.irqNestCounter + |keys|)
    decreases |keys|
  {
    if keys != [] {
      RunAppend(s, [Enter(keys[0])], Enters(keys[1..]));
      assert Run(s, [Enter(keys[0])]) == s.(irqNestCounter := s.irqNestCounter + 1) by {
        assert [Enter(keys[0])][..0] == [];
      }
      NestedEntersQuiet(s.(irqNestCounter := s.irqNestCounter + 1), keys[1..]);
    }
  }

  /** Exits that leave the counter positive touch neither the hardware nor the key. */
  lemma {:induction false} NestedExitsQuiet(s: GuardState, n: nat)
    requires s.irqNestCounter > n
    ensures Run(s, Exits(n)) == s.(irqNestCounter := s.irqNestCounter - n)
  {
    if n > 0 {
      assert Exits(n)[..n - 1] == Exits(n - 1);
      NestedExitsQuiet(s, n - 1);
    }
  }

  /**
    n >= 1 Enters followed by n Exits, starting outside any critical section: exactly one
    Disable and one Restore, the Restore gets the key of that Disable, and the counter is
    back at zero.
  */
  lemma {:induction false} BalancedNesting(s: GuardState, keys: seq<Uint32>)
    requires s.irqNestCounter == 0 && s.previousIrqState == 0
    requires |keys| >= 1
    ensures Run(s, Enters(keys) + Exits(|keys|))
         == s.(key := keys[0], hwi := s.hwi + [Disable(keys[0]), Restore(keys[0])])
  {
    var n := |keys|;
    var first := [Enter(keys[0])];
    assert Enters(keys) == first + Enters(keys[1..]);
    assert Exits(n) == Exits(n - 1) + [Exit];
    var ops := Enters(keys) + Exits(n);
    assert ops == first + (Enters(keys[1..]) + (Exits(n - 1) + [Exit]));

    var s1 := s.(irqNestCounter := 1, key := keys[0], hwi := s.hwi + [Disable(keys[0])]);
    assert Run(s, first) == s1 by {
      assert first[..0] == [];
    }
    NestedEntersQuiet(s1, keys[1..]);
    var s2 := s1.(irqNestCounter := n);
    NestedExitsQuiet(s2, n - 1);
    var s3 := s2.(irqNestCounter := 1);
    assert Run(s3, [Exit]) == ExitStep(s3) by {
      assert [Exit][..0] == [];
    }
    calc {
      Run(s, ops);
      { RunAppend(s, first, Enters(keys[1..]) + (Exits(n - 1) + [Exit])); }
      Run(s1, Enters(keys[1..]) + (Exits(n - 1) + [Exit]));
      { RunAppend(s1, Enters(keys[1..]), Exits(n - 1) + [Exit]); }
      Run(s2, Exits(n - 1) + [Exit]);
      { RunAppend(s2, Exits(n - 1), [Exit]); }
      Run(s3, [Exit]);
    }
  }

  // ---------------------------------------------------------------------------
  // Invariants of the states reachable from static initialisation
  // ---------------------------------------------------------------------------

  /** Interrupts are masked: the latest masking call was a Disable. */
  predicate Masked(hwi: seq<HwiCall>)
  {
    |hwi| > 0 && hwi[|hwi| - 1].Disable?
  }

  /** The key of the latest Disable in `hwi`, or the zero-initialised key if there is none. */
  function LatestDisableKey(hwi: seq<HwiCall>): Uint32
  {
    if hwi == [] then 0
    else if hwi[|hwi| - 1].Disable? then hwi[|hwi| - 1].key
    else LatestDisableKey(hwi[..|hwi| - 1])
  }

  /** Every Restore hands back the key of the Disable that came most recently before it. */
  predicate RestoresPaired(hwi: seq<HwiCall>)
  {
    forall i :: 0 <= i < |hwi| && hwi[i].Restore? ==> hwi[i].key == LatestDisableKey(hwi[..i])
  }

  predicate Inv(s: GuardState)
  {
    && s.irqNestCounter >= 0
    && s.previousIrqState == 0
    && (s.irqNestCounter > 0 <==> Masked(s.hwi))
    && s.key == LatestDisableKey(s.hwi)
    && RestoresPaired(s.hwi)
  }

  lemma {:induction false} StepPreservesInv(s: GuardState, op: Op)
    requires Inv(s)
    ensures Inv(Step(s, op))
  {
    var t := Step(s, op);
    if t.hwi != s.hwi {
      var c := t.hwi[|s.hwi|];
      assert t.hwi == s.hwi + [c];
      assert t.hwi[..|s.hwi|] == s.hwi;
      forall i | 0 <= i < |s.hwi| ensures t.hwi[..i] == s.hwi[..i] {
      }
    }
  }

  /**
    In every state reachable from static initialisation the counter is never negative,
    interrupts are masked exactly while it is positive, and every Restore so far has handed
    back the key of the latest Disable.
  */
  lemma {:induction false} ReachableInv(ops: seq<Op>)
    ensures Inv(Run(Initial, ops))
    decreases |ops|
  {
    if ops != [] {
      ReachableInv(ops[..|ops| - 1]);
      StepPreservesInv(Run(Initial, ops[..|ops| - 1]), ops[|ops| - 1]);
    }
  }

  function EnterCount(ops: seq<Op>): nat
  {
    if ops == [] then 0 else EnterCount(ops[..|ops| - 1]) + (if ops[|ops| - 1].Enter? then 1 else 0)
  }

  function ExitCount(ops: seq<Op>): nat
  {
    if ops == [] then 0 else ExitCount(ops[..|ops| - 1]) + (if ops[|ops| - 1].Exit? then 1 else 0)
  }

  /** No prefix of `ops` has more Exits than Enters. */
  predicate BalancedPrefixes(ops: seq<Op>)
  {
    forall k :: 0 <= k <= |ops| ==> ExitCount(ops[..k]) <= EnterCount(ops[..k])
  }

  /** Over a sequence none of whose prefixes exits too often, the counter is Enters minus Exits. */
  lemma {:induction false} CounterIsBalance(ops: seq<Op>)
    requires BalancedPrefixes(ops)
    ensures Run(Initial, ops).irqNestCounter == EnterCount(ops) - ExitCount(ops)
    decreases |ops|
  {
    if ops != [] {
      var front := ops[..|ops| - 1];
      assert BalancedPrefixes(front) by {
        forall k | 0 <= k <= |front| ensures ExitCount(front[..k]) <= EnterCount(front[..k]) {
          assert front[..k] == ops[..k];
        }
      }
      CounterIsBalance(front);
      assert ops[..|ops|] == ops;
    }
  }

  // ---------------------------------------------------------------------------
  // The imperative critical section
  // ---------------------------------------------------------------------------

  /** The file-level statics `irqNestCounter`, `previousIrqState` and `key`. */
  class IrqGuard {
    var irqNestCounter: int
    var previousIrqState: Uint32
    var key: Uint32
    ghost var hwi: seq<HwiCall>

    ghost function State(): GuardState
      reads this
    {
      GuardState(irqNestCounter, previousIrqState, key, hwi)
    }

    ghost predicate Valid()
      reads this
    {
      Inv(State())
    }

    /** Static zero initialisation. */
    constructor ()
      ensures Valid() && State() == Initial
    {
      irqNestCounter, previousIrqState, key := 0, 0, 0;
      hwi := [];
    }

    /** Enters the critical section; `disableKey` is what HwiP_disable returns if it is called. */
    method Enter(disableKey: Uint32)
      requires Valid()
      modifies this
      ensures Valid() && State() == EnterStep(old(State()), disableKey)
    {
      ghost var before := State();
      if 0 == irqNestCounter {
        key := disableKey;
        hwi := hwi + [Disable(disableKey)];
      }
      irqNestCounter := irqNestCounter + 1;
      StepPreservesInv(before, Op.Enter(disableKey));
    }

    /** Leaves the critical section. */
    method Exit()
      requires Valid()
      modifies this
      ensures Valid() && State() == ExitStep(old(State()))
    {
      ghost var before := State();
      irqNestCounter := irqNestCounter - 1;
      if irqNestCounter < 0 {
        irqNestCounter := 0;
      }
      if 0 == irqNestCounter && 0 == previousIrqState {
        hwi := hwi + [Restore(key)];
      }
      StepPreservesInv(before, Op.Exit);
    }
  }
}
