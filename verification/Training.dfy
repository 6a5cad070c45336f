/** Training: gradient accumulation over several batches, validation, and the traversal of the
    dataset. Graphs are static, as the epoch loop demands. */
module Training {
  import opened Modular

  datatype Build = Forward | Gradients | Step

  /** The gradient of a batch, at the parameters that `iter - 1` optimizer steps have made. */
  datatype Grad = Grad(shards: seq<int>, iter: int)

  /** `acc` holds the gradients added up since the accumulators were zeroed, `steps` what each
      optimizer step saw. */
  datatype State = State(build: Build, optI: int, iter: int, acc: seq<Grad>, steps: seq<seq<Grad>>)

  // --------------------------------------------------------- one batch, as a function

  function Allocated(st: State, period: nat, backward: bool): State
    requires period > 0
  {
    var s := if st.build == Step && period > 1 && st.optI == 0 then st.(acc := []) else st;
    s.(build := if !backward then Forward else if (st.optI + 1) % period == 0 then Step else Gradients)
  }

  function Evaluated(st: State, period: nat, shards: seq<int>): State
    requires period > 0
  {
    var g := Grad(shards, st.iter);
    var sum := if period > 1 then st.acc + [g] else [g];
    var s :=
      match st.build
      case Forward => st
      case Gradients => st.(acc := sum)
      case Step => st.(acc := sum, steps := st.steps + [sum], iter := st.iter + 1);
    s.(optI := (st.optI + 1) % period)
  }

  function Train(st: State, period: nat, batches: seq<seq<int>>): State
    requires period > 0
    decreases |batches|
  {
    if batches == [] then st
    else Evaluated(Allocated(Train(st, period, batches[..|batches| - 1]), period, true), period, batches[|batches| - 1])
  }

  function Validate(st: State, period: nat, n: nat): State
    requires period > 0
  {
    if n == 0 then st else Evaluated(Allocated(Validate(st, period, n - 1), period, false), period, [])
  }

  // ------------------------------------------------------------------ accumulation

  /** The next batch begins a period with zeroed accumulators. */
  predicate InSync(st: State, period: nat) {
    st.optI == 0 && (period > 1 ==> st.build == Step || st.acc == [])
  }

  function Tagged(batches: seq<seq<int>>, iter: int): seq<Grad> {
    seq(|batches|, i requires 0 <= i < |batches| => Grad(batches[i], iter))
  }

  /** One step per `period` consecutive batches, each at its own parameters. */
  function Grouped(batches: seq<seq<int>>, period: nat, iter: int): (steps: seq<seq<Grad>>)
    requires period > 0
    decreases |batches|
  {
    if |batches| < period then []
    else [Tagged(batches[..period], iter)] + Grouped(batches[period..], period, iter + 1)
  }

  lemma {:induction false} TrainSplits(st: State, period: nat, a: seq<seq<int>>, b: seq<seq<int>>)
    requires period > 0
    ensures Train(st, period, a + b) == Train(Train(st, period, a), period, b)
    decreases |b|
  {
    hide Allocated, Evaluated;
    if b == [] {
      assert a + b == a;
    } else {
      assert (a + b)[..|a + b| - 1] == a + b[..|b| - 1] && (a + b)[|a + b| - 1] == b[|b| - 1];
      TrainSplits(st, period, a, b[..|b| - 1]);
    }
  }

  /** Inside a period the gradients add up, and nothing else happens. */
  lemma {:induction false} Accumulates(st: State, period: nat, batches: seq<seq<int>>)
    requires InSync(st, period) && 0 < |batches| < period
    ensures Train(st, period, batches) == State(Gradients, |batches|, st.iter, Tagged(batches, st.iter), st.steps)
    decreases |batches|
  {
    hide Allocated, Evaluated, Tagged;
    var rest, last := batches[..|batches| - 1], batches[|batches| - 1];
    TaggedPush(rest, last, st.iter);
    assert batches == rest + [last];
    if rest != [] {
      Accumulates(st, period, rest);
      InsidePeriod(Train(st, period, rest), period, last);
    } else {
      FirstOfPeriod(st, period, last);
      assert [] + [Grad(last, st.iter)] == [Grad(last, st.iter)];
    }
  }

  lemma FirstOfPeriod(st: State, period: nat, shards: seq<int>)
    requires InSync(st, period) && period > 1
    ensures Evaluated(Allocated(st, period, true), period, shards) ==
            State(Gradients, 1, st.iter, [Grad(shards, st.iter)], st.steps)
  {
    SmallMod(1, period);
  }

  lemma InsidePeriod(st: State, period: nat, shards: seq<int>)
    requires period > 1 && st.build != Step && 0 <= st.optI && st.optI + 1 < period
    ensures Evaluated(Allocated(st, period, true), period, shards) ==
            State(Gradients, st.optI + 1, st.iter, st.acc + [Grad(shards, st.iter)], st.steps)
  {
    SmallMod(st.optI + 1, period);
  }

  /** The batch that completes the period takes a step with everything that is there. */
  lemma LastOfPeriod(st: State, period: nat, shards: seq<int>)
    requires period > 1 && st.build != Step && st.optI == period - 1
    ensures var sum := st.acc + [Grad(shards, st.iter)];
            Evaluated(Allocated(st, period, true), period, shards) ==
            State(Step, 0, st.iter + 1, sum, st.steps + [sum])
  {
    SmallMod(period, period);
  }

  lemma OnlyOfPeriod(st: State, shards: seq<int>)
    requires InSync(st, 1)
    ensures var next := Evaluated(Allocated(st, 1, true), 1, shards);
            && InSync(next, 1) && next.build == Step && next.iter == st.iter + 1
            && next.steps == st.steps + [[Grad(shards, st.iter)]]
  {
  }

  lemma TaggedNone(iter: int)
    ensures Tagged([], iter) == []
  {
  }

  lemma TaggedPush(rest: seq<seq<int>>, last: seq<int>, iter: int)
    ensures Tagged(rest + [last], iter) == Tagged(rest, iter) + [Grad(last, iter)]
    ensures Tagged([], iter) == []
  {
  }

  lemma SmallMod(x: int, m: nat)
    requires m > 0 && 0 <= x <= m
    ensures x % m == if x == m then 0 else x
  {
    if x == m {
      DivModUnique(x, m, 1, 0);
    } else {
      DivModUnique(x, m, 0, x);
    }
  }

  /** A whole period ends in one step that sees exactly its gradients. */
  lemma OnePeriod(st: State, period: nat, batches: seq<seq<int>>)
    requires period > 0 && InSync(st, period) && |batches| == period
    ensures var next := Train(st, period, batches);
            && InSync(next, period) && next.build == Step && next.iter == st.iter + 1
            && next.steps == st.steps + [Tagged(batches, st.iter)]
  {
    hide Allocated, Evaluated, Tagged;
    var rest, last := batches[..period - 1], batches[period - 1];
    TaggedPush(rest, last, st.iter);
    assert batches == rest + [last];
    if period > 1 {
      Accumulates(st, period, rest);
      LastOfPeriod(Train(st, period, rest), period, last);
    } else {
      OnlyOfPeriod(st, last);
      assert [] + [Grad(last, st.iter)] == [Grad(last, st.iter)];
    }
  }

  /** Training in whole periods: every step sees exactly `period` consecutive gradients. */
  lemma {:induction false} TrainGroups(st: State, period: nat, batches: seq<seq<int>>)
    requires period > 0 && InSync(st, period) && Multiple(|batches|, period)
    ensures var next := Train(st, period, batches);
            && InSync(next, period) && (batches != [] ==> next.build == Step)
            && next.steps == st.steps + Grouped(batches, period, st.iter)
            && next.iter == st.iter + |Grouped(batches, period, st.iter)|
    decreases |batches|
  {
    hide InSync, Tagged;
    if |batches| < period {
      assert st.steps + [] == st.steps;
    } else {
      var first, rest := batches[..period], batches[period..];
      OnePeriod(st, period, first);
      var mid := Train(st, period, first);
      TrainGroups(mid, period, rest);
      TrainSplits(st, period, first, rest);
      assert first + rest == batches;
      Assoc(st.steps, [Tagged(first, st.iter)], Grouped(rest, period, mid.iter));
    }
  }

  lemma Assoc<T>(a: seq<T>, b: seq<T>, c: seq<T>)
    ensures a + b + c == a + (b + c)
  {
  }

  /** Validation takes no step and leaves zeroed accumulators behind; but it counts as batches. */
  lemma {:induction false} ValidateKeeps(st: State, period: nat, n: nat)
    requires period > 0 && InSync(st, period)
    ensures var next := Validate(st, period, n);
            && next.steps == st.steps && next.iter == st.iter && next.optI == n % period
            && (n > 0 ==> next.build == Forward && (period > 1 ==> next.acc == []))
            && (n == 0 ==> next == st)
  {
    if n > 0 {
      ValidateKeeps(st, period, n - 1);
      NextMod(n - 1, period);
      if n == 1 {
        SmallMod(0, period);
      }
    } else {
      SmallMod(0, period);
    }
  }

  lemma NextMod(n: nat, m: nat)
    requires m > 0
    ensures (n % m + 1) % m == (n + 1) % m
  {
    assert n + 1 == n % m + 1 + (n / m) * m;
    ModAddMultiple(n % m + 1, n / m, m);
  }

  /** After training that ended in step, validation keeps it so exactly when the number of its
      batches is a multiple of the period. */
  lemma InSyncAfterValidation(st: State, period: nat, n: nat)
    requires period > 0 && InSync(st, period)
    ensures InSync(Validate(st, period, n), period) <==> n % period == 0
  {
    ValidateKeeps(st, period, n);
    if n == 0 {
      SmallMod(0, period);
    }
  }

  // --------------------------------------------- epochs that are no whole periods

  /** Validation does not clear gradients that wait for a step. */
  lemma {:induction false} LeftoversSurvive(st: State, period: nat, n: nat)
    requires period > 1 && st.build != Step && 0 <= st.optI < period
    ensures var next := Validate(st, period, n);
            && next.acc == st.acc && next.steps == st.steps && next.iter == st.iter && next.build != Step
            && next.optI == (st.optI + n) % period
  {
    hide Allocated, Evaluated;
    if n == 0 {
      SmallMod(st.optI, period);
    } else {
      LeftoversSurvive(st, period, n - 1);
      ForwardOnly(Validate(st, period, n - 1), period);
      NextMod(st.optI + (n - 1), period);
    }
  }

  lemma ForwardOnly(st: State, period: nat)
    requires period > 0 && st.build != Step
    ensures Evaluated(Allocated(st, period, false), period, []) == st.(build := Forward, optI := (st.optI + 1) % period)
  {
  }

  /** Batches that do not complete the period add to what is there. */
  lemma {:induction false} AddsUp(st: State, period: nat, batches: seq<seq<int>>)
    requires period > 1 && st.build != Step && 0 <= st.optI && st.optI + |batches| < period
    ensures var next := Train(st, period, batches);
            && next.acc == st.acc + Tagged(batches, st.iter) && next.steps == st.steps && next.iter == st.iter
            && next.optI == st.optI + |batches| && next.build != Step
    decreases |batches|
  {
    hide Allocated, Evaluated, Tagged;
    TaggedNone(st.iter);
    if batches != [] {
      var rest, last := batches[..|batches| - 1], batches[|batches| - 1];
      AddsUp(st, period, rest);
      InsidePeriod(Train(st, period, rest), period, last);
      Assoc(st.acc, Tagged(rest, st.iter), [Grad(last, st.iter)]);
      TaggedPush(rest, last, st.iter);
      assert batches == rest + [last];
    } else {
      assert st.acc + [] == st.acc;
    }
  }

  /** The batch that completes the period takes a step with everything that is there. */
  lemma StepTakesAll(st: State, period: nat, batches: seq<seq<int>>)
    requires period > 1 && st.build != Step && 0 <= st.optI < period && |batches| == period - st.optI
    ensures Train(st, period, batches).steps == st.steps + [st.acc + Tagged(batches, st.iter)]
  {
    hide Tagged, Allocated, Evaluated;
    var rest, last := batches[..|batches| - 1], batches[|batches| - 1];
    AddsUp(st, period, rest);
    LastOfPeriod(Train(st, period, rest), period, last);
    TaggedPush(rest, last, st.iter);
    assert batches == rest + [last];
    Assoc(st.acc, Tagged(rest, st.iter), [Grad(last, st.iter)]);
  }

  /** Training that is in step leaves the batches after the last whole period waiting. */
  lemma LeavesRest(st: State, period: nat, whole: seq<seq<int>>, left: seq<seq<int>>)
    requires period > 0 && InSync(st, period) && Multiple(|whole|, period) && 0 < |left| < period
    ensures var mid, next := Train(st, period, whole), Train(st, period, whole + left);
            next == State(Gradients, |left|, mid.iter, Tagged(left, mid.iter), mid.steps)
  {
    TrainGroups(st, period, whole);
    TrainSplits(st, period, whole, left);
    Accumulates(Train(st, period, whole), period, left);
  }

  /** The first step after an epoch of `whole + left` training and `n` validation batches, where
      `left` does not fill a period: it comes as soon as the batch counter says so, and sees the
      leftovers of that epoch and the new batches together. */
  lemma NextStepSees(st: State, period: nat, whole: seq<seq<int>>, left: seq<seq<int>>, n: nat, more: seq<seq<int>>)
    requires period > 0 && InSync(st, period) && Multiple(|whole|, period) && |left| < period
    requires |more| == period - (|left| + n) % period
    ensures var mid := Train(st, period, whole);
            Train(Validate(Train(st, period, whole + left), period, n), period, more).steps ==
            mid.steps + [Tagged(left + more, mid.iter)]
  {
    hide Train, Validate, InSync, Multiple, Tagged, Grouped;
    var mid := Train(st, period, whole);
    TrainGroups(st, period, whole);
    PositiveMod(|left| + n, period);
    if left == [] {
      assert whole + left == whole && left + more == more;
      AfterWholePeriods(mid, period, n, more);
    } else {
      LeavesRest(st, period, whole, left);
      LeftoversSurvive(Train(st, period, whole + left), period, n);
      StepTakesAll(Validate(Train(st, period, whole + left), period, n), period, more);
      TaggedConcat(left, more, mid.iter);
    }
  }

  lemma AfterWholePeriods(mid: State, period: nat, n: nat, more: seq<seq<int>>)
    requires period > 0 && InSync(mid, period) && |more| == period - n % period
    ensures Train(Validate(mid, period, n), period, more).steps == mid.steps + [Tagged(more, mid.iter)]
  {
    hide Train, Validate;
    ValidateKeeps(mid, period, n);
    PositiveMod(n, period);
    if n % period == 0 {
      OnePeriod(Validate(mid, period, n), period, more);
    } else {
      assert n > 0 by { SmallMod(0, period); }
      StepTakesAll(Validate(mid, period, n), period, more);
      assert [] + Tagged(more, mid.iter) == Tagged(more, mid.iter);
    }
  }

  lemma TaggedConcat(a: seq<seq<int>>, b: seq<seq<int>>, iter: int)
    ensures Tagged(a + b, iter) == Tagged(a, iter) + Tagged(b, iter)
  {
  }

  lemma PositiveMod(n: nat, m: nat)
    requires m > 0
    ensures 0 <= n % m < m
  {
  }

  /** An epoch leaves the training in step exactly when both its training and its validation
      batches are whole periods. */
  lemma EpochStaysInStep(st: State, period: nat, batches: seq<seq<int>>, n: nat)
    requires period > 0 && InSync(st, period)
    ensures InSync(Validate(Train(st, period, batches), period, n), period) <==>
            (|batches| % period == 0 && n % period == 0)
  {
    hide Train, Validate, Multiple;
    var q := |batches| / period * period;
    WholePart(|batches|, period);
    var whole, left := batches[..q], batches[q..];
    assert batches == whole + left;
    if left == [] {
      assert batches == whole;
      TrainGroups(st, period, batches);
      InSyncAfterValidation(Train(st, period, batches), period, n);
    } else {
      LeavesRest(st, period, whole, left);
      LeftoversSurvive(Train(st, period, batches), period, n);
      assert Tagged(left, Train(st, period, whole).iter) != [] by {
        assert |Tagged(left, Train(st, period, whole).iter)| == |left|;
      }
    }
  }

  lemma WholePart(n: nat, m: nat)
    requires m > 0
    ensures 0 <= n / m * m <= n && n - n / m * m == n % m < m && Multiple(n / m * m, m)
  {
    assert n == n / m * m + n % m;
    MultipleMod(n / m, m);
    MultipleIsMod(n / m * m, m);
  }

  /** One training and one validation batch with a period of 2: the next step sees three
      gradients, one of them from the epoch before. */
  lemma ThreeGradientsInOneStep(a: seq<int>, b: seq<int>, c: seq<int>)
    ensures Train(Validate(Train(State(Step, 0, 1, [], []), 2, [a]), 2, 1), 2, [b, c]).steps ==
            [[Grad(a, 1), Grad(b, 1), Grad(c, 1)]]
  {
    hide Train, Validate, Multiple, Tagged, Allocated, Evaluated;
    var start := State(Step, 0, 1, [], []);
    Nothing(start, 2);
    NextStepSees(start, 2, [], [a], 1, [b, c]);
    assert [] + [a] == [a] && [a] + [b, c] == [a, b, c];
    assert Tagged([a, b, c], 1) == [Grad(a, 1), Grad(b, 1), Grad(c, 1)] by { TaggedThree(a, b, c, 1); }
  }

  /** One training and two validation batches with a period of 2: the next step mixes two epochs. */
  lemma StepAcrossEpochs(a: seq<int>, b: seq<int>)
    ensures Train(Validate(Train(State(Step, 0, 1, [], []), 2, [a]), 2, 2), 2, [b]).steps == [[Grad(a, 1), Grad(b, 1)]]
  {
    hide Train, Validate, Multiple, Tagged, Allocated, Evaluated;
    var start := State(Step, 0, 1, [], []);
    Nothing(start, 2);
    NextStepSees(start, 2, [], [a], 2, [b]);
    assert [] + [a] == [a] && [a] + [b] == [a, b];
    assert Tagged([a, b], 1) == [Grad(a, 1), Grad(b, 1)] by { TaggedTwo(a, b, 1); }
  }

  lemma Nothing(st: State, period: nat)
    requires period > 0
    ensures Multiple(0, period) && Train(st, period, []) == st
  {
  }

  lemma TaggedTwo(a: seq<int>, b: seq<int>, iter: int)
    ensures Tagged([a, b], iter) == [Grad(a, iter), Grad(b, iter)]
  {
  }

  lemma TaggedThree(a: seq<int>, b: seq<int>, c: seq<int>, iter: int)
    ensures Tagged([a, b, c], iter) == [Grad(a, iter), Grad(b, iter), Grad(c, iter)]
  {
  }

  // -------------------------------------------------------------------- dataset

  class Dataset {
    /** Shards are visited in this order. */
    var permutation: seq<int>

    constructor (shards: nat)
      ensures |permutation| == shards && forall i :: 0 <= i < shards ==> permutation[i] == i
    {
      permutation := [];
      new;
      for i := 0 to shards
        invariant |permutation| == i && forall k :: 0 <= k < i ==> permutation[k] == k
      {
        permutation := permutation + [i];
      }
    }

    /** Shuffles the first `n` entries by swaps that the random picks decide. */
    method Shuffle(n: nat, pick: int -> nat)
      requires n <= |permutation|
      modifies this
      ensures |permutation| == |old(permutation)| && permutation[n..] == old(permutation)[n..]
      ensures multiset(permutation[..n]) == multiset(old(permutation)[..n])
    {
      if n == 0 {
        return;
      }
      for i := 1 to n
        invariant |permutation| == |old(permutation)| && permutation[n..] == old(permutation)[n..]
        invariant multiset(permutation[..n]) == multiset(old(permutation)[..n])
      {
        var j := pick(i) % (i + 1);
        SwapKeeps(permutation, n, i, j);
        permutation := permutation[i := permutation[j]][j := permutation[i]];
      }
    }

    lemma SwapKeeps(s: seq<int>, n: nat, i: nat, j: nat)
      requires i < n <= |s| && j < n
      ensures var t := s[i := s[j]][j := s[i]];
              |t| == |s| && t[n..] == s[n..] && multiset(t[..n]) == multiset(s[..n])
    {
      var t := s[i := s[j]][j := s[i]];
      assert t[..n] == s[..n][i := s[j]][j := s[i]];
    }

    /** The shards of batch `i`. */
    method GetBatch(size: nat, i: nat) returns (shards: seq<int>)
      requires (i + 1) * size <= |permutation|
      ensures i * size + size <= |permutation| && shards == permutation[i * size..i * size + size]
    {
      assert (i + 1) * size == i * size + size;
      shards := [];
      for k := 0 to size
        invariant shards == permutation[i * size..i * size + k]
      {
        shards := shards + [permutation[i * size + k]];
      }
    }
  }

  /** Batches `lo` to below `hi` of `size` shards each. */
  function Batches(perm: seq<int>, size: nat, lo: nat, hi: nat): (b: seq<seq<int>>)
    requires lo <= hi && hi * size <= |perm|
    ensures |b| == hi - lo
    decreases hi
  {
    if lo == hi then []
    else
      FewerFit(hi - 1, hi, size, |perm|);
      Batches(perm, size, lo, hi - 1) + [perm[(hi - 1) * size..(hi - 1) * size + size]]
  }

  lemma FewerFit(a: nat, b: nat, size: nat, limit: nat)
    requires a < b && b * size <= limit
    ensures a * size + size <= limit && (a + 1) * size <= limit
  {
    assert b * size - (a + 1) * size == (b - a - 1) * size;
    assert (b - a - 1) * size >= 0;
    assert (a + 1) * size == a * size + size;
  }

  function Flat(b: seq<seq<int>>): seq<int> {
    if b == [] then [] else Flat(b[..|b| - 1]) + b[|b| - 1]
  }

  lemma BatchesNone(perm: seq<int>, size: nat)
    ensures 0 * size == 0 && Batches(perm, size, 0, 0) == []
  {
  }

  lemma BatchesNext(perm: seq<int>, size: nat, i: nat)
    requires (i + 1) * size <= |perm|
    ensures i * size + size <= |perm|
    ensures i * size <= |perm|
    ensures Batches(perm, size, 0, i + 1) == Batches(perm, size, 0, i) + [perm[i * size..i * size + size]]
  {
    FewerFit(i, i + 1, size, |perm|);
  }

  lemma FlatEmpty()
    ensures Flat([]) == []
  {
  }

  lemma FlatPush(b: seq<seq<int>>, last: seq<int>)
    ensures Flat(b + [last]) == Flat(b) + last
  {
    assert (b + [last])[..|b|] == b;
  }

  /** The batches visit a stretch of the permutation in order. */
  lemma {:induction false} BatchesVisit(perm: seq<int>, size: nat, lo: nat, hi: nat)
    requires lo <= hi && hi * size <= |perm|
    ensures lo * size <= hi * size && Flat(Batches(perm, size, lo, hi)) == perm[lo * size..hi * size]
    decreases hi
  {
    if lo < hi {
      FewerFit(hi - 1, hi, size, |perm|);
      BatchesVisit(perm, size, lo, hi - 1);
      assert hi * size == (hi - 1) * size + size;
      var b := Batches(perm, size, lo, hi);
      assert b[..|b| - 1] == Batches(perm, size, lo, hi - 1);
    }
  }

  // -------------------------------------------------------------------- training

  class Optimizer {
    const period: nat
    var build: Build
    var graph: Build
    var optI: int
    var iter: int
    var ready: bool
    /** The accumulators; the gradients they are the sum of. */
    var acc: seq<Grad>
    ghost var steps: seq<seq<Grad>>
    /** The shards of all batches so far, in order. */
    ghost var visits: seq<int>

    constructor (period: nat)
      requires period > 0
      ensures this.period == period && !ready && Now() == State(Step, 0, 1, [], []) && visits == []
    {
      this.period := period;
      build, graph, optI, iter, ready, acc, steps, visits := Step, Step, 0, 1, false, [], [], [];
    }

    ghost function Now(): State
      reads this
    {
      State(build, optI, iter, acc, steps)
    }

    method Alloc(backward: bool)
      requires period > 0 && !ready
      modifies this
      ensures ready && graph == build && Now() == Allocated(old(Now()), period, backward)
      ensures visits == old(visits)
    {
      if build == Step && period > 1 && optI == 0 {
        acc := [];
      }
      if backward {
        var next := (optI + 1) % period;
        build := if next == 0 then Step else Gradients;
      } else {
        build := Forward;
      }
      if graph == build {
        ready := true;
        return;
      }
      graph := build;
      ready := true;
    }

    method Eval(shards: seq<int>)
      requires period > 0 && ready && graph == build
      modifies this
      ensures !ready && Now() == Evaluated(old(Now()), period, shards)
      ensures visits == old(visits) + shards
    {
      if graph != Forward {
        acc := if period > 1 then acc + [Grad(shards, iter)] else [Grad(shards, iter)];
      }
      if graph == Step {
        steps := steps + [acc];
      }
      iter := iter + if graph == Step then 1 else 0;
      optI := (optI + 1) % period;
      ready := false;
      visits := visits + shards;
    }
  }

  /** One epoch: training batches, then validation batches, over the whole permutation. */
  method Epoch(opt: Optimizer, data: Dataset, size: nat, nbatches: nat, split: nat)
    requires opt.period > 0 && !opt.ready && split <= nbatches && nbatches * size == |data.permutation|
    requires split * size <= nbatches * size
    modifies opt
    ensures !opt.ready && opt.visits == old(opt.visits) + data.permutation
    ensures opt.Now() ==
      Validate(Train(old(opt.Now()), opt.period, Batches(data.permutation, size, 0, split)),
               opt.period, nbatches - split)
  {
    hide Allocated, Evaluated, Flat, Batches;
    BatchesNone(data.permutation, size);
    ghost var perm, was, met := data.permutation, opt.Now(), opt.visits;
    ghost var shown: seq<seq<int>> := [];
    FlatEmpty();
    var ibatch := 0;
    while ibatch < split
      invariant 0 <= ibatch <= split && !opt.ready && ibatch * size <= |perm|
      invariant opt.visits == met + Flat(shown)
      invariant shown == Batches(perm, size, 0, ibatch) && opt.Now() == Train(was, opt.period, shown)
    {
      ghost var before := shown;
      FewerFit(ibatch, nbatches, size, |perm|);
      opt.Alloc(true);
      var shards := data.GetBatch(size, ibatch);
      opt.Eval(shards);
      FlatPush(shown, shards);
      BatchesNext(perm, size, ibatch);
      shown := shown + [shards];
      assert shown[..|shown| - 1] == before;
      ibatch := ibatch + 1;
    }
    ghost var trained := opt.Now();
    while ibatch < nbatches
      invariant split <= ibatch <= nbatches && !opt.ready && ibatch * size <= |perm|
      invariant opt.visits == met + Flat(shown)
      invariant shown == Batches(perm, size, 0, ibatch) && opt.Now() == Validate(trained, opt.period, ibatch - split)
    {
      FewerFit(ibatch, nbatches, size, |perm|);
      opt.Alloc(false);
      var shards := data.GetBatch(size, ibatch);
      ForwardIgnores(opt.Now(), opt.period, shards, Validate(trained, opt.period, ibatch - split));
      opt.Eval(shards);
      FlatPush(shown, shards);
      BatchesNext(perm, size, ibatch);
      shown := shown + [shards];
      ibatch := ibatch + 1;
    }
    BatchesVisit(perm, size, 0, nbatches);
    assert perm[0 * size..nbatches * size] == perm;
  }

  lemma ForwardIgnores(st: State, period: nat, shards: seq<int>, from: State)
    requires period > 0 && st == Allocated(from, period, false)
    ensures Evaluated(st, period, shards) == Evaluated(st, period, [])
  {
  }

  /** The steps of epochs that went through the data in these orders. */
  function AllSteps(perms: seq<seq<int>>, size: nat, split: nat, period: nat): seq<seq<Grad>>
    requires period > 0 && forall e :: 0 <= e < |perms| ==> split * size <= |perms[e]|
    decreases |perms|
  {
    if perms == [] then []
    else
      var last := perms[|perms| - 1];
      var before := AllSteps(perms[..|perms| - 1], size, split, period);
      before + Grouped(Batches(last, size, 0, split), period, 1 + |before|)
  }

  /** Step number `k` of epoch `e` is number `e * trained + k` of all: it sees `period` gradients, of
      consecutive stretches of the epoch's order, at the parameters that all steps before it made. */
  predicate StepSees(steps: seq<seq<Grad>>, perms: seq<seq<int>>, size: nat, trained: nat, period: nat, e: nat, k: nat)
    requires e < |perms|
  {
    var n := e * trained + k;
    && n < |steps| && |steps[n]| == period
    && forall b :: 0 <= b < period ==> IsGradient(steps[n][b], perms[e], (k * period + b) * size, size, 1 + n)
  }

  predicate IsGradient(g: Grad, perm: seq<int>, at: nat, size: nat, iter: int) {
    at + size <= |perm| && g.shards == perm[at..at + size] && g.iter == iter
  }

  lemma {:induction false} BatchesAt(perm: seq<int>, size: nat, hi: nat, i: nat)
    requires i < hi && hi * size <= |perm|
    ensures i * size + size <= |perm| && Batches(perm, size, 0, hi)[i] == perm[i * size..i * size + size]
    decreases hi
  {
    FewerFit(hi - 1, hi, size, |perm|);
    FewerFit(i, hi, size, |perm|);
    BatchesNext(perm, size, hi - 1);
    if i < hi - 1 {
      BatchesAt(perm, size, hi - 1, i);
    }
  }

  /** The gradient is that of batch number `at`. */
  predicate IsTagged(g: Grad, batches: seq<seq<int>>, at: nat, iter: int) {
    at < |batches| && g == Grad(batches[at], iter)
  }

  lemma GroupedNext(batches: seq<seq<int>>, period: nat, iter: int)
    requires period > 0 && |batches| >= period
    ensures Grouped(batches, period, iter) ==
            [Tagged(batches[..period], iter)] + Grouped(batches[period..], period, iter + 1)
  {
  }

  lemma GroupedNone(batches: seq<seq<int>>, period: nat, iter: int)
    requires period > 0 && batches == []
    ensures Grouped(batches, period, iter) == []
  {
  }

  lemma OneGroupLess(count: nat, period: nat)
    requires count > 0
    ensures count * period == (count - 1) * period + period
  {
  }

  lemma {:induction false} GroupedCount(batches: seq<seq<int>>, period: nat, iter: int, count: nat)
    requires period > 0 && |batches| == count * period
    ensures |Grouped(batches, period, iter)| == count
    decreases count
  {
    hide Grouped, Tagged;
    if count == 0 {
      GroupedNone(batches, period, iter);
    } else {
      OneGroupLess(count, period);
      GroupedNext(batches, period, iter);
      GroupedCount(batches[period..], period, iter + 1, count - 1);
    }
  }

  lemma {:induction false} GroupedAt(batches: seq<seq<int>>, period: nat, iter: int, count: nat, k: nat, b: nat)
    requires period > 0 && |batches| == count * period && k < count && b < period
    ensures |Grouped(batches, period, iter)| == count && |Grouped(batches, period, iter)[k]| == period
    ensures IsTagged(Grouped(batches, period, iter)[k][b], batches, k * period + b, iter + k)
    decreases count
  {
    hide Grouped;
    OneGroupLess(count, period);
    GroupedCount(batches, period, iter, count);
    GroupedNext(batches, period, iter);
    if k > 0 {
      OneGroupLess(k, period);
      GroupedAt(batches[period..], period, iter + 1, count - 1, k - 1, b);
    }
  }

  /** The steps of one epoch. */
  predicate EpochSteps(steps: seq<seq<Grad>>, perm: seq<int>, size: nat, period: nat, iter: int, k: nat) {
    && k < |steps| && |steps[k]| == period
    && forall b :: 0 <= b < period ==> IsGradient(steps[k][b], perm, (k * period + b) * size, size, iter + k)
  }

  lemma EpochSees(perm: seq<int>, size: nat, trained: nat, period: nat, iter: int, k: nat)
    requires period > 0 && trained * period * size <= |perm|
    ensures var steps := Grouped(Batches(perm, size, 0, trained * period), period, iter);
            |steps| == trained && (k < trained ==> EpochSteps(steps, perm, size, period, iter, k))
  {
    hide Batches, Grouped;
    var batches := Batches(perm, size, 0, trained * period);
    GroupedCount(batches, period, iter, trained);
    if k < trained {
      GroupedAt(batches, period, iter, trained, k, 0);
      forall b | 0 <= b < period
        ensures IsGradient(Grouped(batches, period, iter)[k][b], perm, (k * period + b) * size, size, iter + k)
      {
        GroupedAt(batches, period, iter, trained, k, b);
        BatchesAt(perm, size, trained * period, k * period + b);
      }
    }
  }

  lemma {:induction false} AllStepsSee(perms: seq<seq<int>>, size: nat, trained: nat, period: nat, e: nat, k: nat)
    requires period > 0 && forall f :: 0 <= f < |perms| ==> trained * period * size <= |perms[f]|
    requires e < |perms| && k < trained
    ensures |AllSteps(perms, size, trained * period, period)| == |perms| * trained
    ensures StepSees(AllSteps(perms, size, trained * period, period), perms, size, trained, period, e, k)
    decreases |perms|
  {
    hide Batches, Grouped, IsGradient;
    var m := |perms| - 1;
    var last, first := perms[m], perms[..m];
    var before := AllSteps(first, size, trained * period, period);
    assert |perms| * trained == m * trained + trained;
    if m == 0 {
      assert before == [];
    } else {
      AllStepsSee(first, size, trained, period, if e < m then e else 0, k);
    }
    EpochSees(last, size, trained, period, 1 + |before|, k);
    if e < m {
      Ordered(e, m, trained, k);
      assert first[e] == perms[e];
    } else {
      assert EpochSteps(Grouped(Batches(last, size, 0, trained * period), period, 1 + |before|), last, size, period,
                        1 + |before|, k);
    }
  }

  lemma Ordered(e: nat, m: nat, trained: nat, k: nat)
    requires e < m && k < trained
    ensures e * trained + k < m * trained
  {
    var d := m - e - 1;
    assert m * trained == e * trained + trained + d * trained;
    assert d * trained >= 0;
  }

  /** The numbers of batches and shards that follow from the data sizes. */
  lemma Layout(ndata: nat, shard: nat, physical: nat, logical: nat, trained: nat)
    requires shard > 0 && physical > 0 && logical > 0
    requires ndata % logical == 0 && logical % physical == 0 && physical % shard == 0
    requires trained <= ndata / logical
    ensures var period, size, nbatches := logical / physical, physical / shard, ndata / physical;
            var split := trained * period;
            && period > 0 && nbatches == ndata / logical * period && split <= nbatches
            && ndata / shard == nbatches * size && ndata % physical == 0
            && (nbatches - split) % period == 0 && Multiple(split, period)
            && split * size <= nbatches * size
            && (split * physical) % shard == 0 && split * physical / shard == split * size
  {
    var period, size, whole := logical / physical, physical / shard, ndata / logical;
    assert logical == period * physical && physical == size * shard && ndata == whole * logical;
    assert period > 0;
    WholeLayout(whole, period, size, shard);
    FewerTimes(trained, whole, period);
    FewerTimes(trained * period, whole * period, size);
    PeriodLayout(whole, trained, period);
    Scaled(trained * period, size, shard);
    DivModUnique(trained * period * physical, shard, trained * period * size, 0);
  }

  lemma WholeLayout(whole: nat, period: nat, size: nat, shard: nat)
    requires size > 0 && shard > 0
    ensures size * shard > 0
    ensures var ndata := whole * (period * (size * shard));
            && ndata / (size * shard) == whole * period && ndata % (size * shard) == 0
            && ndata / shard == whole * period * size
  {
    var physical := size * shard;
    assert physical > 0;
    Scaled(whole, period, physical);
    DivModUnique(whole * period * physical, physical, whole * period, 0);
    Scaled(whole * period, size, shard);
    DivModUnique(whole * period * physical, shard, whole * period * size, 0);
  }

  lemma PeriodLayout(whole: nat, trained: nat, period: nat)
    requires trained <= whole && period > 0
    ensures (whole * period - trained * period) % period == 0 && Multiple(trained * period, period)
  {
    MultipleMod(whole - trained, period);
    assert (whole - trained) * period == whole * period - trained * period;
    MultipleMod(trained, period);
    MultipleIsMod(trained * period, period);
  }

  lemma Scaled(a: nat, size: nat, shard: nat)
    ensures a * (size * shard) == a * size * shard
  {
  }

  lemma FewerTimes(a: nat, b: nat, c: nat)
    requires a <= b
    ensures a * c <= b * c
  {
    assert (b - a) * c >= 0;
    assert (b - a) * c == b * c - a * c;
  }

  lemma NotNegative(a: real, b: real)
    requires a >= 0.0 && b >= 0.0
    ensures a * b >= 0.0
  {
  }

  /** What is left of `all` without the part. */
  function Share(part: real, all: real): real {
    (1.0 - part) * all
  }

  /** `k` is the training share of the logical batches, rounded down. */
  predicate WholeShare(k: nat, valSplit: real, logicalBatches: nat) {
    k as real <= (1.0 - valSplit) * logicalBatches as real < k as real + 1.0
  }

  function TrainedPeriods(valSplit: real, logicalBatches: nat): (n: nat)
    requires 0.0 <= valSplit < 1.0
    ensures n <= logicalBatches
  {
    hide Share;
    LessThanAll(valSplit, logicalBatches as real);
    Share(valSplit, logicalBatches as real).Floor
  }

  lemma LessThanAll(part: real, all: real)
    requires 0.0 <= part < 1.0 && all >= 0.0
    ensures 0.0 <= Share(part, all) <= all
  {
    NotNegative(part, all);
    NotNegative(1.0 - part, all);
    assert (1.0 - part) * all == all - part * all;
  }

  /** The epochs so far went through all shards, with the same ones for training. */
  predicate History(perms: seq<seq<int>>, all: multiset<int>, first: multiset<int>, shards: nat, cut: nat)
    requires cut <= shards
  {
    forall e :: 0 <= e < |perms| ==> Visited(perms[e], all, first, shards, cut)
  }

  predicate Visited(perm: seq<int>, all: multiset<int>, first: multiset<int>, shards: nat, cut: nat)
    requires cut <= shards
  {
    |perm| == shards && multiset(perm) == all && multiset(perm[..cut]) == first
  }

  /** An epoch of a training that is in step: its steps are added, and it stays in step. */
  method FitEpoch(opt: Optimizer, data: Dataset, size: nat, nbatches: nat, split: nat, ghost perms: seq<seq<int>>)
    requires opt.period > 0 && !opt.ready && split <= nbatches && nbatches * size == |data.permutation|
    requires split * size <= nbatches * size && Multiple(split, opt.period) && (nbatches - split) % opt.period == 0
    requires forall e :: 0 <= e < |perms| ==> |perms[e]| == nbatches * size
    requires InSync(opt.Now(), opt.period) && opt.steps == AllSteps(perms, size, split, opt.period)
    requires opt.iter == 1 + |opt.steps|
    modifies opt
    ensures !opt.ready && opt.visits == old(opt.visits) + data.permutation
    ensures InSync(opt.Now(), opt.period) && opt.iter == 1 + |opt.steps|
    ensures opt.steps == AllSteps(perms + [data.permutation], size, split, opt.period)
  {
    hide Batches, Grouped, InSync, Train, Validate, Multiple;
    ghost var before, perm := opt.Now(), data.permutation;
    ghost var batches := Batches(perm, size, 0, split);
    Epoch(opt, data, size, nbatches, split);
    TrainGroups(before, opt.period, batches);
    ghost var mid := Train(before, opt.period, batches);
    ValidateKeeps(mid, opt.period, nbatches - split);
    InSyncAfterValidation(mid, opt.period, nbatches - split);
    assert (perms + [perm])[..|perms|] == perms;
  }

  /** The epochs, each of which may first shuffle the training shards. */
  method FitEpochs(opt: Optimizer, data: Dataset, size: nat, nbatches: nat, split: nat, cut: nat, reshuffle: bool,
                   nepoch: nat, pick: (int, int) -> nat)
    returns (ghost perms: seq<seq<int>>)
    requires opt.period > 0 && !opt.ready && opt.Now() == State(Step, 0, 1, [], []) && opt.visits == []
    requires split <= nbatches && nbatches * size == |data.permutation| && cut == split * size <= nbatches * size
    requires Multiple(split, opt.period) && (nbatches - split) % opt.period == 0
    modifies opt, data
    ensures |perms| == nepoch && opt.visits == Flat(perms)
    ensures History(perms, multiset(old(data.permutation)), multiset(old(data.permutation[..cut])), nbatches * size,
      cut)
    ensures (forall e :: 0 <= e < |perms| ==> |perms[e]| == nbatches * size)
            && opt.steps == AllSteps(perms, size, split, opt.period) && opt.iter == 1 + |opt.steps|
  {
    hide Batches, Grouped, InSync, Train, Validate, Multiple, AllSteps, History, Flat;
    perms := [];
    FlatEmpty();
    ghost var all, first := multiset(data.permutation), multiset(data.permutation[..cut]);
    Begins(all, first, nbatches * size, size, split, opt.period);
    for epoch := 1 to nepoch + 1
      invariant |perms| == epoch - 1 && !opt.ready && opt.visits == Flat(perms)
      invariant |data.permutation| == nbatches * size && multiset(data.permutation) == all
      invariant multiset(data.permutation[..cut]) == first && History(perms, all, first, nbatches * size, cut)
      invariant forall e :: 0 <= e < |perms| ==> |perms[e]| == nbatches * size
      invariant InSync(opt.Now(), opt.period) && opt.iter == 1 + |opt.steps|
      invariant opt.steps == AllSteps(perms, size, split, opt.period)
    {
      if reshuffle {
        ghost var was := data.permutation;
        data.Shuffle(cut, i => pick(epoch, i));
        SameWhole(was, data.permutation, cut);
      }
      FitEpoch(opt, data, size, nbatches, split, perms);
      HistoryPush(perms, data.permutation, all, first, nbatches * size, cut);
      FlatPush(perms, data.permutation);
      perms := perms + [data.permutation];
    }
  }

  /** `k` steps per epoch, each as `StepSees` says; all epochs go through the same shards, and train
      on the same ones. */
  predicate Fitted(shards: seq<int>, perms: seq<seq<int>>, steps: seq<seq<Grad>>, size: nat, period: nat, k: nat,
                   nepoch: nat) {
    var cut := k * period * size;
    && period > 0 && cut <= |shards| && |perms| == nepoch && |steps| == nepoch * k
    && (forall e, i :: 0 <= e < nepoch && 0 <= i < k ==> StepSees(steps, perms, size, k, period, e, i))
    && (forall e :: 0 <= e < nepoch ==> |perms[e]| == |shards| && multiset(perms[e]) == multiset(shards))
    && forall e, f :: 0 <= e < nepoch && 0 <= f < nepoch && cut <= |perms[e]| && cut <= |perms[f]| ==>
         multiset(perms[e][..cut]) == multiset(perms[f][..cut])
  }

  /** Every step of the whole training sees `period` consecutive gradients of one epoch, `iter`
      counts the steps, and every epoch visits all shards, with the same ones for training. */
  method Fit(data: Dataset, ndata: nat, shard: nat, physical: nat, logical: nat, valSplit: real, nepoch: nat,
             pick: (int, int) -> nat)
    returns (opt: Optimizer, ghost perms: seq<seq<int>>, ghost k: nat)
    requires shard > 0 && physical > 0 && logical > 0 && 0.0 <= valSplit < 1.0
    requires ndata % logical == 0 && logical % physical == 0 && physical % shard == 0
    requires |data.permutation| == ndata / shard
    modifies data
    ensures |perms| == nepoch && opt.visits == Flat(perms)
    ensures WholeShare(k, valSplit, ndata / logical)
    ensures Fitted(old(data.permutation), perms, opt.steps, physical / shard, logical / physical, k, nepoch)
    ensures opt.iter == 1 + |opt.steps|
  {
    hide Multiple, AllSteps, History, Optimizer.Now, TrainedPeriods, StepSees, WholeShare;
    var period, size := logical / physical, physical / shard;
    var trained := TrainedPeriods(valSplit, ndata / logical);
    k := trained;
    TrainedIs(valSplit, ndata / logical);
    Layout(ndata, shard, physical, logical, trained);
    var nbatches, split := ndata / physical, trained * period;
    var idataSplit := split * physical;
    opt := new Optimizer(period);
    ghost var all, cut := multiset(data.permutation), split * size;
    if logical < ndata {
      Whole(data.permutation);
      data.Shuffle(|data.permutation|, i => pick(0, i));
      Whole(data.permutation);
    }
    ghost var first := multiset(data.permutation[..cut]);
    perms := FitEpochs(opt, data, size, nbatches, split, idataSplit / shard, logical < idataSplit, nepoch, pick);
    HistoryMeans(perms, all, first, nbatches * size, cut);
    StepsAre(perms, size, trained, period);
  }

  lemma StepsAre(perms: seq<seq<int>>, size: nat, trained: nat, period: nat)
    requires period > 0 && forall f :: 0 <= f < |perms| ==> trained * period * size <= |perms[f]|
    ensures var steps := AllSteps(perms, size, trained * period, period);
            && |steps| == |perms| * trained
            && forall e, i :: 0 <= e < |perms| && 0 <= i < trained ==>
                 StepSees(steps, perms, size, trained, period, e, i)
  {
    hide StepSees, AllSteps;
    forall e, i | 0 <= e < |perms| && 0 <= i < trained
      ensures StepSees(AllSteps(perms, size, trained * period, period), perms, size, trained, period, e, i)
    {
      AllStepsSee(perms, size, trained, period, e, i);
    }
    AllStepsCount(perms, size, trained, period);
  }

  lemma {:induction false} AllStepsCount(perms: seq<seq<int>>, size: nat, trained: nat, period: nat)
    requires period > 0 && forall f :: 0 <= f < |perms| ==> trained * period * size <= |perms[f]|
    ensures |AllSteps(perms, size, trained * period, period)| == |perms| * trained
    decreases |perms|
  {
    hide Batches, Grouped;
    if perms != [] {
      var m := |perms| - 1;
      AllStepsCount(perms[..m], size, trained, period);
      EpochSees(perms[m], size, trained, period, 1 + |AllSteps(perms[..m], size, trained * period, period)|, trained);
      assert |perms| * trained == m * trained + trained;
    }
  }

  /** As many whole periods as fit into the training share. */
  lemma TrainedIs(valSplit: real, logicalBatches: nat)
    requires 0.0 <= valSplit < 1.0
    ensures var n := TrainedPeriods(valSplit, logicalBatches);
            WholeShare(n, valSplit, logicalBatches)
  {
    LessThanAll(valSplit, logicalBatches as real);
  }

  lemma Begins(all: multiset<int>, first: multiset<int>, shards: nat, size: nat, split: nat, period: nat)
    requires period > 0 && split * size <= shards
    ensures History([], all, first, shards, split * size) && AllSteps([], size, split, period) == []
    ensures InSync(State(Step, 0, 1, [], []), period)
  {
  }

  lemma HistoryPush(perms: seq<seq<int>>, perm: seq<int>, all: multiset<int>, first: multiset<int>,
                    shards: nat, cut: nat)
    requires cut <= shards && History(perms, all, first, shards, cut) && Visited(perm, all, first, shards, cut)
    ensures History(perms + [perm], all, first, shards, cut)
  {
  }

  lemma HistoryMeans(perms: seq<seq<int>>, all: multiset<int>, first: multiset<int>, shards: nat, cut: nat)
    requires cut <= shards && History(perms, all, first, shards, cut)
    ensures forall e :: 0 <= e < |perms| ==> |perms[e]| == shards && multiset(perms[e]) == all
    ensures forall e, f :: 0 <= e < |perms| && 0 <= f < |perms| ==>
      multiset(perms[e][..cut]) == multiset(perms[f][..cut])
  {
    assert forall e :: 0 <= e < |perms| ==> Visited(perms[e], all, first, shards, cut);
  }

  lemma Whole(s: seq<int>)
    ensures s[..|s|] == s
  {
  }

  lemma SameWhole(s: seq<int>, t: seq<int>, n: nat)
    requires |s| == |t| && n <= |s| && t[n..] == s[n..] && multiset(t[..n]) == multiset(s[..n])
    ensures multiset(t) == multiset(s)
  {
    assert s == s[..n] + s[n..] && t == t[..n] + t[n..];
  }
}
