/** The `render` loop every adapter shares: consume the frame's steps in order,
    hand each draw call to the adapter's `draw`, let the side effects of the
    unsupported commands through, and return at the first error (the `?` on
    `self.draw(..)`), leaving later draw calls unissued. */
module Driver {
  import opened Base
  import opened Draw
  import opened DrawIter

  /** Adapter state after the loop, the operations issued, and the error that
      ended it, if any. */
  datatype Outcome<S, O, E> = Outcome(state: S, trace: seq<O>, error: Option<E>)

  /** Continue `o` with `steps` unless it already failed. */
  function Then<S, O, E>(o: Outcome<S, O, E>, steps: seq<Step>, draw: (S, DrawParams) -> Outcome<S, O, E>,
                         side: Hook -> O): Outcome<S, O, E>
    decreases |steps|, 1
  {
    if o.error.Some? then o
    else var r := Run(steps, o.state, draw, side); Outcome(r.state, o.trace + r.trace, r.error)
  }

  function Run<S, O, E>(steps: seq<Step>, s: S, draw: (S, DrawParams) -> Outcome<S, O, E>,
                        side: Hook -> O): Outcome<S, O, E>
    decreases |steps|, 0
  {
    if |steps| == 0 then Outcome(s, [], None)
    else match steps[0]
      case Side(h) => Then(Outcome(s, [side(h)], None), steps[1..], draw, side)
      case Item(p) => Then(draw(s, p), steps[1..], draw, side)
  }

  /** Running `a + b` is running `a`, then `b` from where `a` left off if it
      succeeded. */
  lemma {:induction false} RunConcat<S, O, E>(a: seq<Step>, b: seq<Step>, s: S,
                                              draw: (S, DrawParams) -> Outcome<S, O, E>, side: Hook -> O)
    ensures Run(a + b, s, draw, side) == Then(Run(a, s, draw, side), b, draw, side)
    decreases |a|
  {
    if |a| == 0 {
      assert a + b == b;
    } else {
      assert (a + b)[1..] == a[1..] + b;
      RunConcat(a[1..], b, NextState(a[0], s, draw, side), draw, side);
      var o := FirstStep(a[0], s, draw, side);
      if o.error.None? {
        var r := Run(a[1..], o.state, draw, side);
        if r.error.None? {
          var q := Run(b, r.state, draw, side);
          assert o.trace + (r.trace + q.trace) == (o.trace + r.trace) + q.trace;
        }
      }
    }
  }

  /** The outcome of the first step alone. */
  function FirstStep<S, O, E>(st: Step, s: S, draw: (S, DrawParams) -> Outcome<S, O, E>, side: Hook -> O): Outcome<S, O, E> {
    match st
    case Side(h) => Outcome(s, [side(h)], None)
    case Item(p) => draw(s, p)
  }

  function NextState<S, O, E>(st: Step, s: S, draw: (S, DrawParams) -> Outcome<S, O, E>, side: Hook -> O): S {
    FirstStep(st, s, draw, side).state
  }

  /** Once a prefix fails, nothing after it runs: the outcome is the prefix's. */
  lemma RunStopsAtFirstError<S, O, E>(a: seq<Step>, b: seq<Step>, s: S,
                                      draw: (S, DrawParams) -> Outcome<S, O, E>, side: Hook -> O)
    requires Run(a, s, draw, side).error.Some?
    ensures Run(a + b, s, draw, side) == Run(a, s, draw, side)
  {
    RunConcat(a, b, s, draw, side);
  }

  /** When whether a draw fails depends only on its parameters (the adapters'
      texture registry does not change during a frame), the loop fails exactly
      when some draw call of the frame is bad. */
  lemma {:induction false} RunFailsIff<S, O, E>(steps: seq<Step>, s: S, draw: (S, DrawParams) -> Outcome<S, O, E>,
                                                side: Hook -> O, bad: DrawParams -> bool)
    requires forall t: S, p: DrawParams :: draw(t, p).error.Some? <==> bad(p)
    ensures Run(steps, s, draw, side).error.Some? <==> exists p :: p in Items(steps) && bad(p)
    decreases |steps|
  {
    if |steps| > 0 {
      RunFailsIff(steps[1..], NextState(steps[0], s, draw, side), draw, side, bad);
      assert steps == [steps[0]] + steps[1..];
      match steps[0]
      case Side(h) =>
        assert Items(steps) == Items(steps[1..]);
      case Item(p) =>
        assert Items(steps) == [p] + Items(steps[1..]);
    }
  }

  /** An invariant of the adapter state that every draw of a `good` draw call
      keeps holds after a loop over good draw calls, failed or not. */
  lemma {:induction false} RunPreserves<S, O, E>(steps: seq<Step>, s: S, draw: (S, DrawParams) -> Outcome<S, O, E>,
                                                 side: Hook -> O, inv: S -> bool, good: DrawParams -> bool)
    requires forall t: S, p: DrawParams :: inv(t) && good(p) ==> inv(draw(t, p).state)
    requires forall p :: p in Items(steps) ==> good(p)
    requires inv(s)
    ensures inv(Run(steps, s, draw, side).state)
    decreases |steps|
  {
    if |steps| > 0 {
      ItemsCons(steps);
      RunPreserves(steps[1..], NextState(steps[0], s, draw, side), draw, side, inv, good);
    }
  }

  /** The draw calls of a sequence of steps: those of its first step, then the rest's. */
  lemma ItemsCons(steps: seq<Step>)
    requires |steps| > 0
    ensures Items(steps) == (match steps[0] case Item(p) => [p] case Side(_) => []) + Items(steps[1..])
  {
  }

  /** If every error a draw reports is blamed on its own parameters, the error
      that ends the loop is blamed on some draw call of the frame. */
  lemma {:induction false} RunErrorWitness<S, O, E>(steps: seq<Step>, s: S, draw: (S, DrawParams) -> Outcome<S, O, E>,
                                                    side: Hook -> O, blame: (DrawParams, E) -> bool)
    requires forall t: S, p: DrawParams :: draw(t, p).error.Some? ==> blame(p, draw(t, p).error.value)
    ensures Run(steps, s, draw, side).error.Some? ==>
      exists p :: p in Items(steps) && blame(p, Run(steps, s, draw, side).error.value)
    decreases |steps|
  {
    if |steps| > 0 && Run(steps, s, draw, side).error.Some? {
      RunErrorWitness(steps[1..], NextState(steps[0], s, draw, side), draw, side, blame);
      assert steps == [steps[0]] + steps[1..];
      match steps[0]
      case Side(h) =>
        assert Items(steps) == Items(steps[1..]);
        var r := Run(steps[1..], s, draw, side);
        assert Run(steps, s, draw, side).error == r.error;
        var q :| q in Items(steps[1..]) && blame(q, r.error.value);
        assert q in Items(steps);
      case Item(p) =>
        assert Items(steps) == [p] + Items(steps[1..]);
        if draw(s, p).error.Some? {
          assert blame(p, Run(steps, s, draw, side).error.value);
        } else {
          var r := Run(steps[1..], draw(s, p).state, draw, side);
          assert Run(steps, s, draw, side).error == r.error;
          var q :| q in Items(steps[1..]) && blame(q, r.error.value);
          assert q in Items(steps);
        }
    }
  }

  /** The concatenation of what `pick` extracts from each operation. */
  function Collect<O, X>(pick: O -> seq<X>, ops: seq<O>): seq<X>
    decreases |ops|
  {
    if |ops| == 0 then [] else pick(ops[0]) + Collect(pick, ops[1..])
  }

  /** The concatenation of `keys` of each draw call. */
  function Gather<X>(keys: DrawParams -> seq<X>, ps: seq<DrawParams>): seq<X>
    decreases |ps|
  {
    if |ps| == 0 then [] else keys(ps[0]) + Gather(keys, ps[1..])
  }

  lemma {:induction false} CollectConcat<O, X>(pick: O -> seq<X>, a: seq<O>, b: seq<O>)
    ensures Collect(pick, a + b) == Collect(pick, a) + Collect(pick, b)
    decreases |a|
  {
    if |a| == 0 {
      assert a + b == b;
    } else {
      assert (a + b)[1..] == a[1..] + b;
      CollectConcat(pick, a[1..], b);
    }
  }

  lemma {:induction false} CollectNone<O, X>(pick: O -> seq<X>, ops: seq<O>)
    requires forall i :: 0 <= i < |ops| ==> pick(ops[i]) == []
    ensures Collect(pick, ops) == []
    decreases |ops|
  {
    if |ops| > 0 {
      CollectNone(pick, ops[1..]);
    }
  }

  lemma CollectOne<O, X>(pick: O -> seq<X>, o: O)
    ensures Collect(pick, [o]) == pick(o)
  {
    assert [o][1..] == [];
  }

  lemma CollectPair<O, X>(pick: O -> seq<X>, a: O, b: O)
    ensures Collect(pick, [a, b]) == pick(a) + pick(b)
  {
    CollectOne(pick, a);
    CollectOne(pick, b);
    CollectConcat(pick, [a], [b]);
    assert [a] + [b] == [a, b];
  }

  lemma CollectThree<O, X>(pick: O -> seq<X>, a: O, b: O, c: O)
    ensures Collect(pick, [a, b, c]) == pick(a) + pick(b) + pick(c)
  {
    CollectOne(pick, a);
    CollectOne(pick, b);
    CollectOne(pick, c);
    CollectConcat(pick, [a], [b]);
    CollectConcat(pick, [a, b], [c]);
    assert [a] + [b] == [a, b];
    assert [a, b] + [c] == [a, b, c];
  }

  /** If every successful draw issues, among the operations `pick` selects, exactly
      `keys(p)`, and the side effects issue none of them, then a successful loop
      issues exactly the keys of the frame's draw calls, in the frame's order.
      With `keys(p)` a single draw operation this says that the draw calls are
      issued one per item, in order; with `keys(p)` empty unless `idx_offset` is 0
      it says which draw calls upload buffers or set the projection. */
  lemma {:induction false} RunCollects<S, O, E, X>(steps: seq<Step>, s: S, draw: (S, DrawParams) -> Outcome<S, O, E>,
                                                   side: Hook -> O, pick: O -> seq<X>, keys: DrawParams -> seq<X>)
    requires forall t: S, p: DrawParams :: draw(t, p).error.None? ==> Collect(pick, draw(t, p).trace) == keys(p)
    requires forall h: Hook :: pick(side(h)) == []
    ensures Run(steps, s, draw, side).error.None? ==>
      Collect(pick, Run(steps, s, draw, side).trace) == Gather(keys, Items(steps))
    decreases |steps|
  {
    if |steps| > 0 && Run(steps, s, draw, side).error.None? {
      var o := FirstStep(steps[0], s, draw, side);
      var r := Run(steps[1..], o.state, draw, side);
      RunCollects(steps[1..], o.state, draw, side, pick, keys);
      CollectConcat(pick, o.trace, r.trace);
      assert steps == [steps[0]] + steps[1..];
      match steps[0]
      case Side(h) =>
        assert Collect(pick, [side(h)]) == [];
        assert Items(steps) == Items(steps[1..]);
      case Item(p) =>
        assert Items(steps) == [p] + Items(steps[1..]);
        assert Gather(keys, [p] + Items(steps[1..])) == keys(p) + Gather(keys, Items(steps[1..]));
    }
  }

  /** An operation that neither a draw nor a side effect ever issues is absent
      from the loop's trace, whether or not the loop fails. */
  lemma {:induction false} RunIssuesNone<S, O, E, X>(steps: seq<Step>, s: S, draw: (S, DrawParams) -> Outcome<S, O, E>,
                                                     side: Hook -> O, pick: O -> seq<X>)
    requires forall t: S, p: DrawParams :: Collect(pick, draw(t, p).trace) == []
    requires forall h: Hook :: pick(side(h)) == []
    ensures Collect(pick, Run(steps, s, draw, side).trace) == []
    decreases |steps|
  {
    if |steps| > 0 {
      var o := FirstStep(steps[0], s, draw, side);
      RunIssuesNone(steps[1..], o.state, draw, side, pick);
      if o.error.None? {
        CollectConcat(pick, o.trace, Run(steps[1..], o.state, draw, side).trace);
      }
      match steps[0]
      case Side(h) =>
        CollectOne(pick, side(h));
      case Item(p) =>
    }
  }

  /** Every side effect reaches the trace, in order, when the loop succeeds. */
  lemma {:induction false} RunPassesSideEffects<S, O, E>(steps: seq<Step>, s: S, draw: (S, DrawParams) -> Outcome<S, O, E>,
                                                         side: Hook -> O, pick: O -> seq<Hook>)
    requires forall t: S, p: DrawParams :: draw(t, p).error.None? ==> Collect(pick, draw(t, p).trace) == []
    requires forall h: Hook :: pick(side(h)) == [h]
    ensures Run(steps, s, draw, side).error.None? ==>
      Collect(pick, Run(steps, s, draw, side).trace) == HooksOf(steps)
    decreases |steps|
  {
    if |steps| > 0 && Run(steps, s, draw, side).error.None? {
      var o := FirstStep(steps[0], s, draw, side);
      var r := Run(steps[1..], o.state, draw, side);
      RunPassesSideEffects(steps[1..], o.state, draw, side, pick);
      CollectConcat(pick, o.trace, r.trace);
      match steps[0]
      case Side(h) =>
        assert Collect(pick, [side(h)]) == [h];
      case Item(p) =>
    }
  }

  /** The total of `w` over a sequence of draw calls. */
  function Sum(w: DrawParams -> int, ps: seq<DrawParams>): int
    decreases |ps|
  {
    if |ps| == 0 then 0 else w(ps[0]) + Sum(w, ps[1..])
  }

  /** If every successful draw of a `good` draw call from a state satisfying `inv`
      raises `measure` of the state by `w(p)`, keeping `inv`, and side effects
      leave the state alone, a successful loop over good draw calls raises it by
      the sum of `w` over the frame's draw calls. */
  lemma {:induction false} RunAccumulates<S, O, E>(steps: seq<Step>, s: S, draw: (S, DrawParams) -> Outcome<S, O, E>,
                                                   side: Hook -> O, measure: S -> int, w: DrawParams -> int,
                                                   inv: S -> bool, good: DrawParams -> bool)
    requires forall t: S, p: DrawParams :: inv(t) && good(p) && draw(t, p).error.None? ==>
      measure(draw(t, p).state) == measure(t) + w(p) && inv(draw(t, p).state)
    requires forall p :: p in Items(steps) ==> good(p)
    requires inv(s)
    ensures Run(steps, s, draw, side).error.None? ==>
      measure(Run(steps, s, draw, side).state) == measure(s) + Sum(w, Items(steps))
    decreases |steps|
  {
    if |steps| > 0 && Run(steps, s, draw, side).error.None? {
      ItemsCons(steps);
      match steps[0]
      case Side(h) =>
        assert Run(steps, s, draw, side) == Then(Outcome(s, [side(h)], None), steps[1..], draw, side);
        RunAccumulates(steps[1..], s, draw, side, measure, w, inv, good);
        assert Items(steps) == Items(steps[1..]);
      case Item(p) =>
        assert p in Items(steps);
        assert Run(steps, s, draw, side) == Then(draw(s, p), steps[1..], draw, side);
        assert draw(s, p).error.None?;
        RunAccumulates(steps[1..], draw(s, p).state, draw, side, measure, w, inv, good);
        assert Sum(w, [p] + Items(steps[1..])) == w(p) + Sum(w, Items(steps[1..]));
    }
  }
}
