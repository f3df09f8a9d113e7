/**
 * The log of external calls a handler issues. Each entry records the call
 * and whether it returned (`Done`) or threw (`Failed`). A part of a run is a
 * `Run`: its entries and whether it finished without a thrown error.
 */
module Trace {

  datatype Event<Op> = Done(op: Op) | Failed(op: Op)

  /** The answer of an external call that returns a value: the value, or a thrown error. */
  datatype Reply<T> = Threw | Returned(value: T)

  datatype Run<Op> = Run(ok: bool, log: seq<Event<Op>>)

  /** Run `r2` after `r1` unless `r1` threw: a thrown error skips everything after it. */
  function Then<Op>(r1: Run<Op>, r2: Run<Op>): Run<Op> {
    if r1.ok then Run(r2.ok, r1.log + r2.log) else r1
  }

  /** A run that ends normally issued only calls that returned. */
  predicate AllDone<Op>(log: seq<Event<Op>>) {
    forall i :: 0 <= i < |log| ==> log[i].Done?
  }

  /**
   * The shape of a run under "stop at the first error": every call but the
   * last returned, and the run is interrupted exactly when its last call threw.
   */
  predicate StopsAtFirstError<Op>(r: Run<Op>) {
    && (forall i :: 0 <= i < |r.log| - 1 ==> r.log[i].Done?)
    && (r.ok ==> AllDone(r.log))
    && (!r.ok ==> |r.log| > 0 && r.log[|r.log| - 1].Failed?)
  }

  /** Sequencing keeps the stop-at-first-error shape. */
  lemma ThenStopsAtFirstError<Op>(r1: Run<Op>, r2: Run<Op>)
    requires StopsAtFirstError(r1) && StopsAtFirstError(r2)
    ensures StopsAtFirstError(Then(r1, r2))
  {
    if r1.ok {
      var log := r1.log + r2.log;
      forall i | 0 <= i < |log| - 1 ensures log[i].Done? {
        if i < |r1.log| { assert log[i] == r1.log[i]; } else { assert log[i] == r2.log[i - |r1.log|]; }
      }
      if r2.ok {
        forall i | 0 <= i < |log| ensures log[i].Done? {
          if i < |r1.log| { assert log[i] == r1.log[i]; } else { assert log[i] == r2.log[i - |r1.log|]; }
        }
      } else {
        assert log[|log| - 1] == r2.log[|r2.log| - 1];
      }
    }
  }

  /** Sequencing is associative. */
  lemma ThenAssoc<Op>(r1: Run<Op>, r2: Run<Op>, r3: Run<Op>)
    ensures Then(Then(r1, r2), r3) == Then(r1, Then(r2, r3))
  {
    if r1.ok && r2.ok {
      assert r1.log + r2.log + r3.log == r1.log + (r2.log + r3.log);
    }
  }

  /** Every entry of a sequenced run comes from one of its parts. */
  lemma ThenEntries<Op>(r1: Run<Op>, r2: Run<Op>)
    ensures forall e :: e in Then(r1, r2).log ==> e in r1.log || e in r2.log
  {
  }

  /** A slice of the middle part of a concatenation. */
  lemma SliceOfMiddle<T>(a: seq<T>, b: seq<T>, c: seq<T>, i: nat, k: nat)
    requires i <= k <= |b|
    ensures (a + b + c)[|a| + i..|a| + k] == b[i..k]
  {
    var s := a + b + c;
    forall m | 0 <= m < k - i ensures s[|a| + i..|a| + k][m] == b[i..k][m] {
      assert s[|a| + i + m] == b[i + m];
    }
  }

  /** The calls `ops` were issued and returned, one after another, starting at entry `p` of `log`. */
  predicate BlockAt<Op(==)>(log: seq<Event<Op>>, p: int, ops: seq<Op>) {
    0 <= p && p + |ops| <= |log| && forall m :: 0 <= m < |ops| ==> log[p + m] == Done(ops[m])
  }

  /** A block stays where it is when entries are appended. */
  lemma BlockExtend<Op>(a: seq<Event<Op>>, b: seq<Event<Op>>, p: int, ops: seq<Op>)
    requires BlockAt(a, p, ops)
    ensures BlockAt(a + b, p, ops)
  {
    forall m | 0 <= m < |ops| ensures (a + b)[p + m] == Done(ops[m]) {
      assert (a + b)[p + m] == a[p + m];
    }
  }

  /** A block moves by `|a|` when `a` is put in front. */
  lemma BlockShift<Op>(a: seq<Event<Op>>, b: seq<Event<Op>>, p: int, ops: seq<Op>)
    requires BlockAt(b, p, ops)
    ensures BlockAt(a + b, |a| + p, ops)
  {
    forall m | 0 <= m < |ops| ensures (a + b)[|a| + p + m] == Done(ops[m]) {
      assert (a + b)[|a| + p + m] == b[p + m];
    }
  }

  /** A block of the middle part of a concatenation, shifted by the first part. */
  lemma BlockInMiddle<Op>(a: seq<Event<Op>>, b: seq<Event<Op>>, c: seq<Event<Op>>, p: int, ops: seq<Op>)
    requires BlockAt(b, p, ops)
    ensures BlockAt(a + b + c, |a| + p, ops)
  {
    forall m | 0 <= m < |ops| ensures (a + b + c)[|a| + p + m] == Done(ops[m]) {
      assert (a + b + c)[|a| + p + m] == b[p + m];
    }
  }

  /**
   * The calls `ops` issued one after another until the one at position
   * `failAt` throws; with `failAt` at or past the end, all of them return.
   */
  function Attempt<Op>(ops: seq<Op>, failAt: nat): Run<Op>
    decreases |ops|
  {
    if ops == [] then Run(true, [])
    else if failAt == 0 then Run(false, [Failed(ops[0])])
    else Then(Run(true, [Done(ops[0])]), Attempt(ops[1..], failAt - 1))
  }

  /**
   * An attempt issues the calls in order up to and including the one that
   * throws, stops at that error, and ends normally exactly when none throws,
   * in which case it is the block of all of them.
   */
  lemma {:induction false} AttemptShape<Op>(ops: seq<Op>, failAt: nat)
    ensures var r := Attempt(ops, failAt);
      && |r.log| == (if failAt < |ops| then failAt + 1 else |ops|)
      && (forall i :: 0 <= i < |r.log| ==> r.log[i].op == ops[i])
      && (r.ok <==> failAt >= |ops|)
      && StopsAtFirstError(r)
      && (r.ok ==> BlockAt(r.log, 0, ops))
    decreases |ops|
  {
    if ops != [] && failAt > 0 {
      var head := Run(true, [Done(ops[0])]);
      var rest := Attempt(ops[1..], failAt - 1);
      AttemptShape(ops[1..], failAt - 1);
      ThenStopsAtFirstError(head, rest);
      var log := head.log + rest.log;
      forall i | 0 <= i < |log| ensures log[i].op == ops[i] {
        if i > 0 {
          assert log[i] == rest.log[i - 1];
        }
      }
      if rest.ok {
        BlockShift(head.log, rest.log, 0, ops[1..]);
      }
    }
  }

  /** Concatenation is associative. */
  lemma ConcatAssoc<T>(a: seq<T>, b: seq<T>, c: seq<T>)
    ensures a + (b + c) == (a + b) + c
  {
  }

  /** The last `|b|` entries of `a + b` are `b`. */
  lemma SuffixOfConcat<T>(a: seq<T>, b: seq<T>)
    ensures (a + b)[|a|..] == b
  {
  }
}
