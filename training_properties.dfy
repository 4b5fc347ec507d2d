/**
 * What a call of `BaseNetwork.train` does to the network, proved about the
 * functional model `TrainingLoop.Train`: when it refuses to start, what a
 * fixed-length run records and reports, where a stop signal ends it, and
 * what a failed shuffle leaves behind.
 */
module TrainingProperties {
  import opened Wrappers
  import opened ErrorHistory
  import opened ShowEpoch
  import opened Shuffling
  import opened Epochs
  import opened TrainingLoop

  // ---------------------------------------------------------------------
  // Hypotheses about the collaborators, on the values a run passes them
  // ---------------------------------------------------------------------

  /** Both error computations of epoch `e` return when its `try` block runs in state `d`. */
  predicate BodyRecords(d: Progress, e: int, st: Settings, o: Oracles) {
    o.trainEpoch(e, d.input, d.target).Ok? && Validation(st, o, e).Ok?
  }

  /** What `epoch_end_signal` answers once epoch `e`, run in state `d`, has been recorded. */
  function SignalAfter(d: Progress, e: int, st: Settings, o: Oracles): Signal
    requires st.epochEndSignal.Some? && BodyRecords(d, e, st, o)
  {
    st.epochEndSignal.value(e, d.errors + [o.trainEpoch(e, d.input, d.target).error],
                            d.validationErrors + [Validation(st, o, e).error])
  }

  /** Nothing raises in the `try` block of epoch `e` run in state `d`. */
  predicate BodyProceeds(d: Progress, e: int, st: Settings, o: Oracles) {
    BodyRecords(d, e, st, o) && (st.epochEndSignal.Some? ==> SignalAfter(d, e, st, o) == Continue)
  }

  /**
   * StopNetworkTraining is the first exception the `try` block of epoch `e`
   * raises in state `d`, from whichever of the three calls raises it.
   */
  predicate BodyStops(d: Progress, e: int, st: Settings, o: Oracles) {
    var t := o.trainEpoch(e, d.input, d.target);
    || t.Stop?
    || (t.Ok? && Validation(st, o, e).Stop?)
    || (BodyRecords(d, e, st, o) && st.epochEndSignal.Some? && SignalAfter(d, e, st, o) == StopTraining)
  }

  /**
   * Nothing raises in the epochs at positions `i` up to `m` of a loop that
   * is in state `p` at position `i`, each epoch run in the state the ones
   * before it left.
   */
  predicate ProceedsThrough(p: Progress, i: nat, m: nat, st: Settings, o: Oracles)
    requires st.cadence >= 1 && i <= m <= |st.iterEpochs|
    decreases m - i
  {
    i == m
    || (&& BodyProceeds(Started(p, st.iterEpochs[i], st, o), st.iterEpochs[i], st, o)
        && ProceedsThrough(EpochStep(p, st.iterEpochs[i], st, o).0, i + 1, m, st, o))
  }

  /** `shuffle` accepts the pair: no targets, or as many target rows as input rows. */
  predicate RowsAgree(input: Dataset, target: Option<Dataset>) {
    target.Some? ==> |target.value.rows| == |input.rows|
  }

  predicate Increasing(es: seq<int>) {
    forall k, m :: 0 <= k < m < |es| ==> es[k] < es[m]
  }

  // ---------------------------------------------------------------------
  // Reference definitions of what a run records and reports
  // ---------------------------------------------------------------------

  /** Epoch `e` is shown when it is the first one processed or a multiple of the cadence. */
  predicate ShownAt(e: int, cadence: int, first: bool)
    requires cadence >= 1
  {
    first || e % cadence == 0
  }

  /** The reports of one completed epoch: `show_last` when it is shown, then `epoch_end_signal`. */
  function EpochEvents(e: int, cadence: int, first: bool, signal: bool): seq<Event>
    requires cadence >= 1
  {
    (if ShownAt(e, cadence, first) then [Show(e)] else []) + (if signal then [EpochEnd(e)] else [])
  }

  /** The reports of the completed epochs `es`, the first of them first of the call when `first`. */
  function LoopEvents(es: seq<int>, cadence: int, first: bool, signal: bool): seq<Event>
    requires cadence >= 1
  {
    if es == [] then []
    else EpochEvents(es[0], cadence, first, signal) + LoopEvents(es[1..], cadence, false, signal)
  }

  /** The error a call returned; a raised stop records nothing, and `None` stands in for it. */
  function ErrorOf(s: Step): ErrorValue {
    if s.Ok? then s.error else NoValue
  }

  /** The validation entry recorded at epoch `e`: the test error, or NaN without test data. */
  function ValidationEntry(st: Settings, o: Oracles, e: int): ErrorValue {
    ErrorOf(Validation(st, o, e))
  }

  function ValidationEntries(st: Settings, o: Oracles, es: seq<int>): (r: seq<ErrorValue>)
    ensures |r| == |es|
  {
    if es == [] then [] else [ValidationEntry(st, o, es[0])] + ValidationEntries(st, o, es[1..])
  }

  /** The training errors of the epochs `es` when the data is never shuffled. */
  function TrainEntries(o: Oracles, es: seq<int>, input: Dataset, target: Option<Dataset>): (r: seq<ErrorValue>)
    ensures |r| == |es|
  {
    if es == [] then [] else [ErrorOf(o.trainEpoch(es[0], input, target))] + TrainEntries(o, es[1..], input, target)
  }

  /** Without test data every validation entry is NaN. */
  lemma {:induction false} ValidationEntriesWithoutTest(st: Settings, o: Oracles, es: seq<int>)
    requires st.inputTest.None?
    ensures forall k :: 0 <= k < |es| ==> ValidationEntries(st, o, es)[k] == Placeholder
  {
    if es != [] {
      ValidationEntriesWithoutTest(st, o, es[1..]);
    }
  }

  /** `show_last` reports epoch `e` during the loop iff `e` is processed and shown there. */
  lemma {:induction false} LoopEventsShows(es: seq<int>, cadence: int, first: bool, signal: bool, e: int)
    requires cadence >= 1
    ensures Show(e) in LoopEvents(es, cadence, first, signal)
            <==> exists k :: 0 <= k < |es| && es[k] == e && ShownAt(e, cadence, first && k == 0)
  {
    if es != [] {
      LoopEventsShows(es[1..], cadence, false, signal, e);
      var rest := LoopEvents(es[1..], cadence, false, signal);
      assert LoopEvents(es, cadence, first, signal) == EpochEvents(es[0], cadence, first, signal) + rest;
      if Show(e) in rest {
        var k :| 0 <= k < |es[1..]| && es[1..][k] == e && ShownAt(e, cadence, false);
        assert es[k + 1] == e;
      }
      if exists k :: 0 <= k < |es| && es[k] == e && ShownAt(e, cadence, first && k == 0) {
        var k :| 0 <= k < |es| && es[k] == e && ShownAt(e, cadence, first && k == 0);
        if k > 0 {
          assert es[1..][k - 1] == e;
        }
      }
    }
  }

  /** The loop reports only `show_last` and `epoch_end_signal` calls. */
  predicate OnlyEpochReports(t: seq<Event>) {
    forall k :: 0 <= k < |t| ==> t[k].Show? || t[k].EpochEnd?
  }

  /** Per-epoch reports appended after per-epoch reports are per-epoch reports appended. */
  lemma ReportsAfter(a: seq<Event>, b: seq<Event>, c: seq<Event>)
    requires |a| <= |b| && b[..|a|] == a && OnlyEpochReports(b[|a|..])
    requires |b| <= |c| && c[..|b|] == b && OnlyEpochReports(c[|b|..])
    ensures |a| <= |c| && c[..|a|] == a && OnlyEpochReports(c[|a|..])
  {
    var x, y := b[|a|..], c[|b|..];
    assert b == a + x;
    assert c == b + y;
    assert c == a + (x + y);
    assert c[|a|..] == x + y;
    forall k | 0 <= k < |x + y| ensures (x + y)[k].Show? || (x + y)[k].EpochEnd? {
      if k >= |x| {
        assert (x + y)[k] == y[k - |x|];
      }
    }
  }

  lemma {:induction false} LoopEventsOnlyEpochReports(es: seq<int>, cadence: int, first: bool, signal: bool)
    requires cadence >= 1
    ensures OnlyEpochReports(LoopEvents(es, cadence, first, signal))
  {
    if es != [] {
      LoopEventsOnlyEpochReports(es[1..], cadence, false, signal);
    }
  }

  // ---------------------------------------------------------------------
  // One epoch
  // ---------------------------------------------------------------------

  /**
   * The start of an epoch: `last_epoch` is set and, when shuffling is on and
   * `shuffle` accepts the data, the `try` block runs on the shuffled data.
   */
  lemma EpochStart(p: Progress, e: int, st: Settings, o: Oracles) returns (d: Progress)
    requires st.cadence >= 1
    requires st.shuffleData ==> RowsAgree(p.input, p.target)
    ensures d == Started(p, e, st, o)
    ensures EpochStep(p, e, st, o) == EpochBody(d, e, st, o)
    ensures d == p.(lastEpoch := e, input := d.input, target := d.target)
    ensures st.shuffleData ==> RowsAgree(d.input, d.target)
    ensures !st.shuffleData ==> d.input == p.input && d.target == p.target
  {
    d := Started(p, e, st, o);
  }

  /** The `try` block of an epoch in which nothing raises. */
  lemma BodyThatProceeds(d: Progress, e: int, st: Settings, o: Oracles) returns (q: Progress)
    requires st.cadence >= 1 && BodyProceeds(d, e, st, o)
    ensures EpochBody(d, e, st, o) == (q, Next)
    ensures q == d.(errors := q.errors, validationErrors := q.validationErrors, trace := q.trace,
                    isFirst := false, lastShown := q.lastShown)
    ensures q.errors == d.errors + [ErrorOf(o.trainEpoch(e, d.input, d.target))]
    ensures q.validationErrors == d.validationErrors + [ValidationEntry(st, o, e)]
    ensures q.trace == d.trace + EpochEvents(e, st.cadence, d.isFirst, st.epochEndSignal.Some?)
    ensures q.lastShown == (if ShownAt(e, st.cadence, d.isFirst) then e else d.lastShown)
  {
    q := EpochBody(d, e, st, o).0;
  }

  /** The `try` block of an epoch in which StopNetworkTraining is the first exception raised. */
  lemma BodyThatStops(d: Progress, e: int, st: Settings, o: Oracles) returns (q: Progress)
    requires st.cadence >= 1 && BodyStops(d, e, st, o)
    ensures EpochBody(d, e, st, o) == (q, Break)
    ensures q.lastEpoch == d.lastEpoch && q.input == d.input && q.target == d.target
    ensures BodyRecords(d, e, st, o) ==>
              && q.errors == d.errors + [ErrorOf(o.trainEpoch(e, d.input, d.target))]
              && q.validationErrors == d.validationErrors + [ValidationEntry(st, o, e)]
              && q.trace == d.trace + EpochEvents(e, st.cadence, d.isFirst, true)
              && q.lastShown == (if ShownAt(e, st.cadence, d.isFirst) then e else d.lastShown)
    ensures !BodyRecords(d, e, st, o) ==> q == d
  {
    q := EpochBody(d, e, st, o).0;
  }

  /** An epoch in which nothing raises: both errors recorded, reports made, on to the next. */
  lemma EpochThatProceeds(p: Progress, e: int, st: Settings, o: Oracles) returns (q: Progress)
    requires st.cadence >= 1 && BodyProceeds(Started(p, e, st, o), e, st, o)
    requires st.shuffleData ==> RowsAgree(p.input, p.target)
    ensures EpochStep(p, e, st, o) == (q, Next)
    ensures q.lastEpoch == e
    ensures q.input == Started(p, e, st, o).input && q.target == Started(p, e, st, o).target
    ensures q.errors == p.errors + [ErrorOf(o.trainEpoch(e, q.input, q.target))]
    ensures q.validationErrors == p.validationErrors + [ValidationEntry(st, o, e)]
    ensures q.trace == p.trace + EpochEvents(e, st.cadence, p.isFirst, st.epochEndSignal.Some?)
    ensures !q.isFirst
    ensures q.lastShown == (if ShownAt(e, st.cadence, p.isFirst) then e else p.lastShown)
    ensures st.shuffleData ==> RowsAgree(q.input, q.target)
    ensures !st.shuffleData ==> q.input == p.input && q.target == p.target
  {
    var d := EpochStart(p, e, st, o);
    q := BodyThatProceeds(d, e, st, o);
  }

  /**
   * An epoch in which StopNetworkTraining is the first exception raised:
   * the loop breaks. The errors are recorded, and the epoch reported, only
   * when the raise came from `epoch_end_signal`.
   */
  lemma EpochThatStops(p: Progress, e: int, st: Settings, o: Oracles) returns (q: Progress)
    requires st.cadence >= 1 && BodyStops(Started(p, e, st, o), e, st, o)
    requires st.shuffleData ==> RowsAgree(p.input, p.target)
    ensures EpochStep(p, e, st, o) == (q, Break)
    ensures q.lastEpoch == e
    ensures q.input == Started(p, e, st, o).input && q.target == Started(p, e, st, o).target
    ensures BodyRecords(Started(p, e, st, o), e, st, o) ==>
              && q.errors == p.errors + [ErrorOf(o.trainEpoch(e, q.input, q.target))]
              && q.validationErrors == p.validationErrors + [ValidationEntry(st, o, e)]
              && q.trace == p.trace + EpochEvents(e, st.cadence, p.isFirst, true)
              && q.lastShown == (if ShownAt(e, st.cadence, p.isFirst) then e else p.lastShown)
    ensures !BodyRecords(Started(p, e, st, o), e, st, o) ==>
              && q.errors == p.errors
              && q.validationErrors == p.validationErrors
              && q.trace == p.trace
              && q.lastShown == p.lastShown
  {
    var d := EpochStart(p, e, st, o);
    q := BodyThatStops(d, e, st, o);
  }

  // ---------------------------------------------------------------------
  // Runs of epochs
  // ---------------------------------------------------------------------

  /** The loop state after the epochs at positions `i` up to `m`, each of them followed by the next. */
  ghost function Through(p: Progress, i: nat, m: nat, st: Settings, o: Oracles): Progress
    requires st.cadence >= 1 && i <= m <= |st.iterEpochs|
    decreases m - i
  {
    if i == m then p else Through(EpochStep(p, st.iterEpochs[i], st, o).0, i + 1, m, st, o)
  }

  /**
   * A fixed-length loop in which nothing raises during the epochs at
   * positions `i` up to `m` reaches position `m` in state `Through`.
   */
  lemma {:induction false} RunThrough(p: Progress, i: nat, m: nat, st: Settings, o: Oracles)
    requires st.cadence >= 1 && i <= m <= |st.iterEpochs| && !st.convergence
    requires ProceedsThrough(p, i, m, st, o)
    requires st.shuffleData ==> RowsAgree(p.input, p.target)
    ensures RunEpochs(p, i, st, o) == RunEpochs(Through(p, i, m, st, o), m, st, o)
    ensures st.shuffleData ==> RowsAgree(Through(p, i, m, st, o).input, Through(p, i, m, st, o).target)
    ensures Through(p, i, m, st, o).lastEpoch == if m == i then p.lastEpoch else st.iterEpochs[m - 1]
    decreases m - i
  {
    if i < m {
      var q := EpochThatProceeds(p, st.iterEpochs[i], st, o);
      RunEpochsNext(p, i, st, o, q);
      RunThrough(q, i + 1, m, st, o);
    }
  }

  /** Through those epochs both histories grow by one entry per epoch, in epoch order. */
  lemma {:induction false} RecordsThrough(p: Progress, i: nat, m: nat, st: Settings, o: Oracles)
    requires st.cadence >= 1 && i <= m <= |st.iterEpochs|
    requires ProceedsThrough(p, i, m, st, o)
    requires st.shuffleData ==> RowsAgree(p.input, p.target)
    ensures var r := Through(p, i, m, st, o);
            && |r.errors| == |p.errors| + (m - i) && r.errors[..|p.errors|] == p.errors
            && r.validationErrors == p.validationErrors + ValidationEntries(st, o, st.iterEpochs[i..m])
    decreases m - i
  {
    var es := st.iterEpochs;
    if i == m {
      assert es[i..m] == [];
    } else {
      var q := EpochThatProceeds(p, es[i], st, o);
      RecordsThrough(q, i + 1, m, st, o);
      var r := Through(q, i + 1, m, st, o);
      ValidationEntriesFrom(st, o, es, i, m);
      PrefixOfPrefix(p.errors, q.errors, r.errors);
      assert r.validationErrors == p.validationErrors + ([ValidationEntry(st, o, es[i])]
                                                        + ValidationEntries(st, o, es[i + 1..m]));
    }
  }

  lemma ValidationEntriesFrom(st: Settings, o: Oracles, es: seq<int>, i: nat, m: nat)
    requires i < m <= |es|
    ensures ValidationEntries(st, o, es[i..m])
            == [ValidationEntry(st, o, es[i])] + ValidationEntries(st, o, es[i + 1..m])
  {
    assert es[i..m][0] == es[i] && es[i..m][1..] == es[i + 1..m];
  }

  lemma PrefixOfPrefix<T>(a: seq<T>, b: seq<T>, c: seq<T>)
    requires |a| <= |b| <= |c| && b[..|a|] == a && c[..|b|] == b
    ensures c[..|a|] == a
  {
    assert c[..|a|] == c[..|b|][..|a|];
  }

  /** Without shuffling every epoch trains on the data `train` was given. */
  lemma {:induction false} TrainEntriesThrough(p: Progress, i: nat, m: nat, st: Settings, o: Oracles)
    requires st.cadence >= 1 && i <= m <= |st.iterEpochs| && !st.shuffleData
    requires ProceedsThrough(p, i, m, st, o)
    ensures var r := Through(p, i, m, st, o);
            && r.input == p.input && r.target == p.target
            && r.errors == p.errors + TrainEntries(o, st.iterEpochs[i..m], p.input, p.target)
    decreases m - i
  {
    var es := st.iterEpochs;
    if i < m {
      var q := EpochThatProceeds(p, es[i], st, o);
      TrainEntriesThrough(q, i + 1, m, st, o);
      assert es[i..m][0] == es[i] && es[i..m][1..] == es[i + 1..m];
    }
  }

  /**
   * The training errors of the epochs at positions `i` up to `m` of a loop
   * that is in state `p` at position `i`: each epoch's `train_epoch` error
   * on the data its `try` block started from, shuffled or not.
   */
  ghost function TrainEntriesFrom(p: Progress, i: nat, m: nat, st: Settings, o: Oracles): (r: seq<ErrorValue>)
    requires st.cadence >= 1 && i <= m <= |st.iterEpochs|
    ensures |r| == m - i
    decreases m - i
  {
    if i == m then []
    else
      var e := st.iterEpochs[i];
      var d := Started(p, e, st, o);
      [ErrorOf(o.trainEpoch(e, d.input, d.target))] + TrainEntriesFrom(EpochStep(p, e, st, o).0, i + 1, m, st, o)
  }

  /**
   * The entry of the epoch at position `j` is its `train_epoch` error on the
   * data it started from, in the state the epochs before it left.
   */
  lemma {:induction false} TrainEntriesFromAt(p: Progress, i: nat, m: nat, st: Settings, o: Oracles, j: nat)
    requires st.cadence >= 1 && i <= j < m <= |st.iterEpochs|
    ensures var e := st.iterEpochs[j];
            var d := Started(Through(p, i, j, st, o), e, st, o);
            TrainEntriesFrom(p, i, m, st, o)[j - i] == ErrorOf(o.trainEpoch(e, d.input, d.target))
    decreases j - i
  {
    if i < j {
      TrainEntriesFromAt(EpochStep(p, st.iterEpochs[i], st, o).0, i + 1, m, st, o, j);
    }
  }

  /** Through epochs in which nothing raises the training history gains exactly `TrainEntriesFrom`. */
  lemma {:induction false} TrainEntriesFromThrough(p: Progress, i: nat, m: nat, st: Settings, o: Oracles)
    requires st.cadence >= 1 && i <= m <= |st.iterEpochs|
    requires ProceedsThrough(p, i, m, st, o)
    requires st.shuffleData ==> RowsAgree(p.input, p.target)
    ensures Through(p, i, m, st, o).errors == p.errors + TrainEntriesFrom(p, i, m, st, o)
    decreases m - i
  {
    if i < m {
      var q := EpochThatProceeds(p, st.iterEpochs[i], st, o);
      TrainEntriesFromThrough(q, i + 1, m, st, o);
    }
  }

  /** Through those epochs the reports are the ones `LoopEvents` lists. */
  lemma {:induction false} TraceThrough(p: Progress, i: nat, m: nat, st: Settings, o: Oracles)
    requires st.cadence >= 1 && i <= m <= |st.iterEpochs|
    requires ProceedsThrough(p, i, m, st, o)
    requires st.shuffleData ==> RowsAgree(p.input, p.target)
    ensures Through(p, i, m, st, o).trace
            == p.trace + LoopEvents(st.iterEpochs[i..m], st.cadence, p.isFirst, st.epochEndSignal.Some?)
    decreases m - i
  {
    var es := st.iterEpochs;
    if i < m {
      var q := EpochThatProceeds(p, es[i], st, o);
      TraceThrough(q, i + 1, m, st, o);
      assert es[i..m][0] == es[i] && es[i..m][1..] == es[i + 1..m];
    }
  }

  /**
   * Through those epochs `is_first_iteration` turns false, and
   * `last_epoch_shown` is the last of those epochs exactly when it was shown.
   */
  lemma {:induction false} ShownThrough(p: Progress, i: nat, m: nat, st: Settings, o: Oracles)
    requires st.cadence >= 1 && i <= m <= |st.iterEpochs| && Increasing(st.iterEpochs)
    requires ProceedsThrough(p, i, m, st, o)
    requires st.shuffleData ==> RowsAgree(p.input, p.target)
    requires i < |st.iterEpochs| && !p.isFirst ==> p.lastShown < st.iterEpochs[i]
    ensures var r := Through(p, i, m, st, o);
            && r.isFirst == (p.isFirst && m == i)
            && (m > i ==>
                  (r.lastShown == st.iterEpochs[m - 1]
                   <==> ShownAt(st.iterEpochs[m - 1], st.cadence, p.isFirst && m - 1 == i)))
            && (m < |st.iterEpochs| && !r.isFirst ==> r.lastShown < st.iterEpochs[m])
    decreases m - i
  {
    var es := st.iterEpochs;
    if i < m {
      var q := EpochThatProceeds(p, es[i], st, o);
      if i + 1 < |es| {
        assert es[i] < es[i + 1];
      }
      ShownThrough(q, i + 1, m, st, o);
    }
  }

  /** A loop in which nothing raises runs out of epoch numbers, having gone through all of them. */
  lemma LoopRunsOut(p: Progress, st: Settings, o: Oracles) returns (r: Progress)
    requires st.cadence >= 1 && !st.convergence && Increasing(st.iterEpochs) && p.isFirst
    requires ProceedsThrough(p, 0, |st.iterEpochs|, st, o)
    requires st.shuffleData ==> RowsAgree(p.input, p.target)
    ensures RunEpochs(p, 0, st, o) == (r, Exhausted)
    ensures r.lastEpoch == if st.iterEpochs == [] then p.lastEpoch else st.iterEpochs[|st.iterEpochs| - 1]
    ensures |r.errors| == |p.errors| + |st.iterEpochs| && r.errors[..|p.errors|] == p.errors
    ensures r.errors == p.errors + TrainEntriesFrom(p, 0, |st.iterEpochs|, st, o)
    ensures r.validationErrors == p.validationErrors + ValidationEntries(st, o, st.iterEpochs)
    ensures !st.shuffleData ==> r.errors == p.errors + TrainEntries(o, st.iterEpochs, p.input, p.target)
    ensures r.trace == p.trace + LoopEvents(st.iterEpochs, st.cadence, true, st.epochEndSignal.Some?)
    ensures st.iterEpochs != [] ==>
              (r.lastShown == r.lastEpoch
               <==> ShownAt(r.lastEpoch, st.cadence, |st.iterEpochs| == 1))
  {
    var es := st.iterEpochs;
    var n := |es|;
    RunThrough(p, 0, n, st, o);
    RecordsThrough(p, 0, n, st, o);
    TraceThrough(p, 0, n, st, o);
    ShownThrough(p, 0, n, st, o);
    TrainEntriesFromThrough(p, 0, n, st, o);
    if !st.shuffleData {
      TrainEntriesThrough(p, 0, n, st, o);
    }
    r := Through(p, 0, n, st, o);
    RunEpochsExit(r, n, st, o);
    assert es[0..n] == es;
  }

  /** The state in which a loop in which nothing raised reaches position `m`. */
  lemma LoopBeforeStop(p: Progress, m: nat, st: Settings, o: Oracles) returns (r: Progress)
    requires st.cadence >= 1 && !st.convergence && Increasing(st.iterEpochs) && p.isFirst
    requires m < |st.iterEpochs| && p.lastShown < st.iterEpochs[0]
    requires ProceedsThrough(p, 0, m, st, o)
    requires st.shuffleData ==> RowsAgree(p.input, p.target)
    ensures r == Through(p, 0, m, st, o)
    ensures RunEpochs(p, 0, st, o) == RunEpochs(r, m, st, o)
    ensures st.shuffleData ==> RowsAgree(r.input, r.target)
    ensures |r.errors| == |p.errors| + m && r.errors[..|p.errors|] == p.errors
    ensures r.errors == p.errors + TrainEntriesFrom(p, 0, m, st, o)
    ensures r.validationErrors == p.validationErrors + ValidationEntries(st, o, st.iterEpochs[..m])
    ensures r.trace == p.trace + LoopEvents(st.iterEpochs[..m], st.cadence, true, st.epochEndSignal.Some?)
    ensures r.isFirst == (m == 0) && r.lastShown < st.iterEpochs[m]
  {
    RunThrough(p, 0, m, st, o);
    RecordsThrough(p, 0, m, st, o);
    TrainEntriesFromThrough(p, 0, m, st, o);
    TraceThrough(p, 0, m, st, o);
    ShownThrough(p, 0, m, st, o);
    r := Through(p, 0, m, st, o);
    assert st.iterEpochs[0..m] == st.iterEpochs[..m];
  }

  /** StopNetworkTraining is the first exception raised in the epoch at position `m` of a loop from `p`. */
  ghost predicate StopsAt(p: Progress, m: nat, st: Settings, o: Oracles)
    requires st.cadence >= 1 && m < |st.iterEpochs|
  {
    var e := st.iterEpochs[m];
    BodyStops(Started(Through(p, 0, m, st, o), e, st, o), e, st, o)
  }

  /** Both error computations return in the epoch at position `m` of a loop from `p`. */
  ghost predicate RecordsAt(p: Progress, m: nat, st: Settings, o: Oracles)
    requires st.cadence >= 1 && m < |st.iterEpochs|
  {
    var e := st.iterEpochs[m];
    BodyRecords(Started(Through(p, 0, m, st, o), e, st, o), e, st, o)
  }

  /**
   * A loop in which StopNetworkTraining is the first exception, raised at
   * position `m`, breaks there; the errors of that epoch are recorded, and
   * the epoch reported, only when `epoch_end_signal` raised it.
   */
  lemma LoopStopsAt(p: Progress, m: nat, st: Settings, o: Oracles) returns (q: Progress)
    requires st.cadence >= 1 && !st.convergence && Increasing(st.iterEpochs) && p.isFirst
    requires m < |st.iterEpochs| && p.lastShown < st.iterEpochs[0]
    requires ProceedsThrough(p, 0, m, st, o) && StopsAt(p, m, st, o)
    requires st.shuffleData ==> RowsAgree(p.input, p.target)
    ensures RunEpochs(p, 0, st, o) == (q, Stopped)
    ensures q.lastEpoch == st.iterEpochs[m]
    ensures var recorded := if RecordsAt(p, m, st, o) then 1 else 0;
            && |q.errors| == |p.errors| + m + recorded && q.errors[..|p.errors|] == p.errors
            && q.errors[..|p.errors| + m] == p.errors + TrainEntriesFrom(p, 0, m, st, o)
            && (RecordsAt(p, m, st, o) ==>
                  var e := st.iterEpochs[m];
                  var d := Started(Through(p, 0, m, st, o), e, st, o);
                  q.errors[|p.errors| + m] == ErrorOf(o.trainEpoch(e, d.input, d.target)))
            && |q.validationErrors| == |p.validationErrors| + m + recorded
            && q.validationErrors[..|p.validationErrors| + m]
               == p.validationErrors + ValidationEntries(st, o, st.iterEpochs[..m])
    ensures q.trace == p.trace + LoopEvents(st.iterEpochs[..m], st.cadence, true, st.epochEndSignal.Some?)
                       + (if RecordsAt(p, m, st, o)
                          then EpochEvents(st.iterEpochs[m], st.cadence, m == 0, true) else [])
    ensures q.lastShown == q.lastEpoch
            <==> RecordsAt(p, m, st, o) && ShownAt(st.iterEpochs[m], st.cadence, m == 0)
  {
    var r := LoopBeforeStop(p, m, st, o);
    q := EpochThatStops(r, st.iterEpochs[m], st, o);
    RunEpochsBreak(r, m, st, o, q);
    if RecordsAt(p, m, st, o) {
      assert q.errors[..|p.errors|] == q.errors[..|r.errors|][..|p.errors|];
      assert q.errors[..|p.errors| + m] == r.errors;
      assert q.validationErrors[..|p.validationErrors| + m] == q.validationErrors[..|r.validationErrors|];
    } else {
      assert q.validationErrors[..|p.validationErrors| + m] == r.validationErrors;
    }
  }

  /**
   * Any epoch sets `last_epoch`, records either nothing or one entry in each
   * history, and makes only per-epoch reports.
   */
  lemma EpochStepExtends(p: Progress, e: int, st: Settings, o: Oracles) returns (q: Progress, flow: Flow)
    requires st.cadence >= 1
    ensures EpochStep(p, e, st, o) == (q, flow)
    ensures q.lastEpoch == e
    ensures || (q.errors == p.errors && q.validationErrors == p.validationErrors)
            || (&& |q.errors| == |p.errors| + 1 && q.errors[..|p.errors|] == p.errors
                && |q.validationErrors| == |p.validationErrors| + 1
                && q.validationErrors[..|p.validationErrors|] == p.validationErrors)
    ensures |p.trace| <= |q.trace| && q.trace[..|p.trace|] == p.trace
    ensures OnlyEpochReports(q.trace[|p.trace|..])
  {
    var d := Started(p, e, st, o);
    if ShuffleRefused(p, e, st, o) {
      q, flow := d, Abort(ShuffleFailed);
    } else {
      q, flow := EpochBodyExtends(d, e, st, o);
    }
  }

  lemma EpochBodyExtends(p: Progress, e: int, st: Settings, o: Oracles) returns (q: Progress, flow: Flow)
    requires st.cadence >= 1
    ensures EpochBody(p, e, st, o) == (q, flow)
    ensures q.lastEpoch == p.lastEpoch
    ensures || (q.errors == p.errors && q.validationErrors == p.validationErrors)
            || (&& |q.errors| == |p.errors| + 1 && q.errors[..|p.errors|] == p.errors
                && |q.validationErrors| == |p.validationErrors| + 1
                && q.validationErrors[..|p.validationErrors|] == p.validationErrors)
    ensures |p.trace| <= |q.trace| && q.trace[..|p.trace|] == p.trace
    ensures OnlyEpochReports(q.trace[|p.trace|..])
  {
    q, flow := EpochBody(p, e, st, o).0, EpochBody(p, e, st, o).1;
    BodyReports(p, e, st, o);
  }

  /** The body of an epoch reports that epoch only, shown or signalled or both. */
  lemma BodyReports(p: Progress, e: int, st: Settings, o: Oracles)
    requires st.cadence >= 1
    ensures var t := EpochBody(p, e, st, o).0.trace;
            |p.trace| <= |t| && t[..|p.trace|] == p.trace && OnlyEpochReports(t[|p.trace|..])
  {
    var t := EpochBody(p, e, st, o).0.trace;
    assert t == p.trace || t == p.trace + [Show(e)] || t == p.trace + [EpochEnd(e)]
           || t == p.trace + [Show(e)] + [EpochEnd(e)];
    var added := t[|p.trace|..];
    assert added == [] || added == [Show(e)] || added == [EpochEnd(e)] || added == [Show(e), EpochEnd(e)];
  }

  /** No epoch runs when the iterator is done before position `i`. */
  predicate LoopDone(p: Progress, i: nat, st: Settings, o: Oracles) {
    i == |st.iterEpochs| || (st.convergence && i > 0 && o.converged(p.errors))
  }

  /**
   * Whatever the oracles do, in either mode, the loop only appends to the
   * histories, the same number of entries to each.
   */
  lemma {:induction false} RunEpochsGrows(p: Progress, i: nat, st: Settings, o: Oracles) returns (q: Progress, end: LoopEnd)
    requires st.cadence >= 1 && i <= |st.iterEpochs|
    ensures RunEpochs(p, i, st, o) == (q, end)
    ensures |p.errors| <= |q.errors| && q.errors[..|p.errors|] == p.errors
    ensures |q.validationErrors| - |p.validationErrors| == |q.errors| - |p.errors|
    ensures q.validationErrors[..|p.validationErrors|] == p.validationErrors
    decreases |st.iterEpochs| - i
  {
    if LoopDone(p, i, st, o) {
      RunEpochsExit(p, i, st, o);
      q, end := p, Exhausted;
    } else {
      var q1, flow := EpochStepExtends(p, st.iterEpochs[i], st, o);
      if flow == Next {
        RunEpochsNext(p, i, st, o, q1);
        q, end := RunEpochsGrows(q1, i + 1, st, o);
        assert q.errors[..|p.errors|] == q.errors[..|q1.errors|][..|p.errors|];
        assert q.validationErrors[..|p.validationErrors|]
               == q.validationErrors[..|q1.validationErrors|][..|p.validationErrors|];
      } else {
        end := RunEpochsEnds(p, i, st, o, q1, flow);
        q := q1;
      }
    }
  }

  /** Whatever the oracles do, the loop only appends to what was reported, and only per-epoch reports. */
  lemma {:induction false} RunEpochsReports(p: Progress, i: nat, st: Settings, o: Oracles) returns (q: Progress, end: LoopEnd)
    requires st.cadence >= 1 && i <= |st.iterEpochs|
    ensures RunEpochs(p, i, st, o) == (q, end)
    ensures |p.trace| <= |q.trace| && q.trace[..|p.trace|] == p.trace
    ensures OnlyEpochReports(q.trace[|p.trace|..])
    decreases |st.iterEpochs| - i
  {
    if LoopDone(p, i, st, o) {
      RunEpochsExit(p, i, st, o);
      q, end := p, Exhausted;
      assert q.trace[|p.trace|..] == [];
    } else {
      var q1, flow := EpochStepExtends(p, st.iterEpochs[i], st, o);
      if flow == Next {
        RunEpochsNext(p, i, st, o, q1);
        q, end := RunEpochsReports(q1, i + 1, st, o);
        ReportsAfter(p.trace, q1.trace, q.trace);
      } else {
        end := RunEpochsEnds(p, i, st, o, q1, flow);
        q := q1;
      }
    }
  }

  /**
   * A loop that runs at least one epoch ends with `last_epoch` at the `j`-th
   * epoch number, having recorded at most one entry per epoch it started.
   */
  lemma {:induction false} RunEpochsLastEpoch(p: Progress, i: nat, st: Settings, o: Oracles)
    returns (q: Progress, end: LoopEnd, j: nat)
    requires st.cadence >= 1 && i <= |st.iterEpochs| && !LoopDone(p, i, st, o)
    ensures RunEpochs(p, i, st, o) == (q, end)
    ensures i <= j < |st.iterEpochs| && q.lastEpoch == st.iterEpochs[j]
    ensures |q.errors| - |p.errors| <= j - i + 1
    decreases |st.iterEpochs| - i
  {
    var q1, flow := EpochStepExtends(p, st.iterEpochs[i], st, o);
    if flow == Next {
      RunEpochsNext(p, i, st, o, q1);
      if LoopDone(q1, i + 1, st, o) {
        RunEpochsExit(q1, i + 1, st, o);
        q, end, j := q1, Exhausted, i;
      } else {
        q, end, j := RunEpochsLastEpoch(q1, i + 1, st, o);
      }
    } else {
      end := RunEpochsEnds(p, i, st, o, q1, flow);
      q, j := q1, i;
    }
  }

  lemma NoFinalReportsInLoop(t: seq<Event>)
    requires OnlyEpochReports(t)
    ensures multiset(t)[Finish] == 0 && multiset(t)[TrainEnd] == 0
  {
    assert forall k :: 0 <= k < |t| ==> t[k] != Finish && t[k] != TrainEnd;
    assert Finish !in t && TrainEnd !in t;
  }

  // ---------------------------------------------------------------------
  // Whole calls of `train`
  // ---------------------------------------------------------------------

  /**
   * A fixed-length call (no `epsilon`) that passes the checks, with data
   * `shuffle` accepts, in which nothing raises in any epoch.
   */
  ghost predicate RunsEveryEpoch(net: NetState, cfg: NetConfig, a: TrainArgs, o: Oracles) {
    && Validate(cfg.showEpoch).Accepted?
    && CheckTrainArguments(a).None? && a.epsilon.None?
    && (cfg.shuffleData ==> RowsAgree(a.inputTrain, a.targetTrain))
    && ProceedsThrough(StartProgress(net, a), 0, |SettingsFor(net, cfg, a).iterEpochs|, SettingsFor(net, cfg, a), o)
  }

  /** The loop of a fixed-length call in which nothing raises. */
  lemma FixedLoopRunsOut(net: NetState, cfg: NetConfig, a: TrainArgs, o: Oracles) returns (r: Progress)
    requires RunsEveryEpoch(net, cfg, a, o)
    ensures Train(net, cfg, a, o)
            == Conclude(r, Exhausted, SettingsFor(net, cfg, a).cadence, cfg.trainEndSignal)
    ensures var st := SettingsFor(net, cfg, a);
            var es := FixedEpochs(net.lastEpoch, a.epochs);
            && r.lastEpoch == net.lastEpoch + a.epochs
            && |r.errors| == |net.errors| + a.epochs && r.errors[..|net.errors|] == net.errors
            && r.errors == net.errors + TrainEntriesFrom(StartProgress(net, a), 0, |es|, st, o)
            && r.validationErrors == net.validationErrors + ValidationEntries(st, o, es)
            && (!cfg.shuffleData ==> r.errors == net.errors + TrainEntries(o, es, a.inputTrain, a.targetTrain))
            && r.trace == net.trace + LoopEvents(es, st.cadence, true, cfg.epochEndSignal.Some?)
            && (r.lastShown == r.lastEpoch <==> ShownAt(r.lastEpoch, st.cadence, a.epochs == 1))
  {
    var st := SettingsFor(net, cfg, a);
    var es := st.iterEpochs;
    var n := |es|;
    FixedEpochsIncreasing(net.lastEpoch, a.epochs);
    r := LoopRunsOut(StartProgress(net, a), st, o);
    TrainConcludesLoop(net, cfg, a, o, r, Exhausted);
    assert r.lastEpoch == es[n - 1] == net.lastEpoch + a.epochs;
  }

  /** The epochs' reports in the loop of a fixed-length call in which nothing raises. */
  lemma FixedLoopReports(net: NetState, cfg: NetConfig, a: TrainArgs, o: Oracles) returns (r: Progress)
    requires RunsEveryEpoch(net, cfg, a, o)
    ensures Train(net, cfg, a, o)
            == Conclude(r, Exhausted, SettingsFor(net, cfg, a).cadence, cfg.trainEndSignal)
    ensures var st := SettingsFor(net, cfg, a);
            && r.lastEpoch == net.lastEpoch + a.epochs
            && r.trace == net.trace + LoopEvents(FixedEpochs(net.lastEpoch, a.epochs), st.cadence, true,
                                                 cfg.epochEndSignal.Some?)
            && (r.lastShown == r.lastEpoch <==> ShownAt(r.lastEpoch, st.cadence, a.epochs == 1))
  {
    r := FixedLoopRunsOut(net, cfg, a, o);
  }

  /** The trace of a call whose loop ran out: the loop's, then the final reports. */
  lemma CompletedTrace(r: Progress, cadence: int, trainEndSignal: Option<Callback>)
    ensures var after := Conclude(r, Exhausted, cadence, trainEndSignal).0;
            after.trace == r.trace + Closing(r.lastEpoch, r.lastShown == r.lastEpoch, trainEndSignal.Some?,
                                             TrainEndReturns(trainEndSignal, r.lastEpoch, after.errors, after.validationErrors))
  {
    assert FinalEvents(r, trainEndSignal)
           == Closing(r.lastEpoch, r.lastShown == r.lastEpoch, trainEndSignal.Some?,
                      TrainEndReturns(trainEndSignal, r.lastEpoch, r.errors, r.validationErrors));
  }

  /** A loop that ran out is finished off with the final reports. */
  lemma ConcludeCompleted(base: seq<Event>, r: Progress, loop: seq<Event>, last: int, shown: bool,
                          cadence: int, trainEndSignal: Option<Callback>)
    returns (after: NetState)
    requires r.trace == base + loop && r.lastEpoch == last && (r.lastShown == r.lastEpoch <==> shown)
    ensures var returned := TrainEndReturns(trainEndSignal, last, r.errors, r.validationErrors);
            Conclude(r, Exhausted, cadence, trainEndSignal)
            == (after, if returned then Completed else Failed(CallbackRaised))
    ensures && after.lastEpoch == last && after.errors == r.errors
            && after.validationErrors == r.validationErrors && after.trainingShowEpoch == Some(cadence)
            && after.trace == base + loop + Closing(last, shown, trainEndSignal.Some?,
                                                    TrainEndReturns(trainEndSignal, last, r.errors, r.validationErrors))
  {
    var closing := Closing(last, shown, trainEndSignal.Some?,
                           TrainEndReturns(trainEndSignal, last, r.errors, r.validationErrors));
    assert FinalEvents(r, trainEndSignal) == closing;
    after := Conclude(r, Exhausted, cadence, trainEndSignal).0;
  }

  /**
   * A fixed-length call in which nothing raises in any epoch: `last_epoch`
   * advances by `epochs` and each history gains one entry per epoch; the
   * call completes unless `train_end_signal` raises.
   */
  lemma FixedRunCompletes(net: NetState, cfg: NetConfig, a: TrainArgs, o: Oracles)
    requires RunsEveryEpoch(net, cfg, a, o)
    ensures var (after, outcome) := Train(net, cfg, a, o);
            var st := SettingsFor(net, cfg, a);
            var es := FixedEpochs(net.lastEpoch, a.epochs);
            && outcome == (if TrainEndReturns(cfg.trainEndSignal, after.lastEpoch, after.errors, after.validationErrors)
                           then Completed else Failed(CallbackRaised))
            && after.lastEpoch == net.lastEpoch + a.epochs
            && |after.errors| == |net.errors| + a.epochs
            && after.errors[..|net.errors|] == net.errors
            && after.errors == net.errors + TrainEntriesFrom(StartProgress(net, a), 0, |es|, st, o)
            && after.validationErrors == net.validationErrors + ValidationEntries(st, o, es)
            && (!cfg.shuffleData ==> after.errors == net.errors + TrainEntries(o, es, a.inputTrain, a.targetTrain))
            && after.trainingShowEpoch == Some(st.cadence)
  {
    var st := SettingsFor(net, cfg, a);
    var r := FixedLoopRunsOut(net, cfg, a, o);
    var last := net.lastEpoch + a.epochs;
    var after := ConcludeCompleted(net.trace, r, LoopEvents(FixedEpochs(net.lastEpoch, a.epochs), st.cadence, true,
                                                            cfg.epochEndSignal.Some?),
                                   last, ShownAt(last, st.cadence, a.epochs == 1), st.cadence, cfg.trainEndSignal);
  }

  /**
   * What a fixed-length call in which nothing raises in any epoch reports:
   * each epoch's reports, the last epoch once more unless it was shown, the
   * end signal, and `summary.finish()` unless the end signal raised.
   */
  lemma FixedRunReports(net: NetState, cfg: NetConfig, a: TrainArgs, o: Oracles)
    requires RunsEveryEpoch(net, cfg, a, o)
    ensures var after := Train(net, cfg, a, o).0;
            var st := SettingsFor(net, cfg, a);
            var last := net.lastEpoch + a.epochs;
            after.trace
            == net.trace + LoopEvents(FixedEpochs(net.lastEpoch, a.epochs), st.cadence, true, cfg.epochEndSignal.Some?)
               + Closing(last, ShownAt(last, st.cadence, a.epochs == 1), cfg.trainEndSignal.Some?,
                         TrainEndReturns(cfg.trainEndSignal, last, after.errors, after.validationErrors))
  {
    var st := SettingsFor(net, cfg, a);
    var r := FixedLoopReports(net, cfg, a, o);
    CompletedTrace(r, st.cadence, cfg.trainEndSignal);
    var after := Conclude(r, Exhausted, st.cadence, cfg.trainEndSignal).0;
    assert after.lastEpoch == r.lastEpoch && after.errors == r.errors && after.validationErrors == r.validationErrors;
  }

  /** Without test data a fixed-length call that runs every epoch records NaN as each validation error. */
  lemma FixedRunWithoutTestData(net: NetState, cfg: NetConfig, a: TrainArgs, o: Oracles)
    requires RunsEveryEpoch(net, cfg, a, o) && a.inputTest.None?
    ensures var after := Train(net, cfg, a, o).0;
            && |after.validationErrors| == |net.validationErrors| + a.epochs
            && forall k :: |net.validationErrors| <= k < |after.validationErrors| ==>
                             after.validationErrors[k] == Placeholder
  {
    FixedRunCompletes(net, cfg, a, o);
    var st := SettingsFor(net, cfg, a);
    ValidationEntriesWithoutTest(st, o, st.iterEpochs);
  }

  /**
   * A fixed-length call that passes the checks, with data `shuffle`
   * accepts, in which StopNetworkTraining is the first exception raised,
   * at epoch `k`. The network's epoch counter starts at 0 and never goes
   * down, so it is taken to be non-negative.
   */
  ghost predicate FirstStopAt(net: NetState, cfg: NetConfig, a: TrainArgs, o: Oracles, k: int) {
    && Validate(cfg.showEpoch).Accepted?
    && CheckTrainArguments(a).None? && a.epsilon.None? && net.lastEpoch >= 0
    && net.lastEpoch < k <= net.lastEpoch + a.epochs
    && (cfg.shuffleData ==> RowsAgree(a.inputTrain, a.targetTrain))
    && var st, m := SettingsFor(net, cfg, a), k - 1 - net.lastEpoch;
       && m < |st.iterEpochs|
       && ProceedsThrough(StartProgress(net, a), 0, m, st, o)
       && StopsAt(StartProgress(net, a), m, st, o)
  }

  /** The loop of a fixed-length call in which StopNetworkTraining is first raised at epoch `k`. */
  lemma FixedLoopStops(net: NetState, cfg: NetConfig, a: TrainArgs, o: Oracles, k: int) returns (q: Progress)
    requires FirstStopAt(net, cfg, a, o, k)
    ensures RunEpochs(StartProgress(net, a), 0, SettingsFor(net, cfg, a), o) == (q, Stopped)
    ensures var st := SettingsFor(net, cfg, a);
            var before := FixedEpochs(net.lastEpoch, k - 1 - net.lastEpoch);
            var recorded := RecordsAt(StartProgress(net, a), k - 1 - net.lastEpoch, st, o);
            var first := k == net.lastEpoch + 1;
            && q.lastEpoch == k
            && |q.errors| == |net.errors| + |before| + (if recorded then 1 else 0)
            && q.errors[..|net.errors|] == net.errors
            && q.errors[..|net.errors| + |before|] == net.errors + TrainEntriesFrom(StartProgress(net, a), 0, |before|, st, o)
            && |q.validationErrors| == |q.errors| - |net.errors| + |net.validationErrors|
            && q.validationErrors[..|net.validationErrors| + |before|]
               == net.validationErrors + ValidationEntries(st, o, before)
            && q.trace == net.trace + LoopEvents(before, st.cadence, true, cfg.epochEndSignal.Some?)
                          + (if recorded then EpochEvents(k, st.cadence, first, true) else [])
            && (q.lastShown == q.lastEpoch <==> recorded && ShownAt(k, st.cadence, first))
  {
    var st := SettingsFor(net, cfg, a);
    var es := st.iterEpochs;
    var m := k - 1 - net.lastEpoch;
    FixedEpochsIncreasing(net.lastEpoch, a.epochs);
    FixedEpochsPrefix(net.lastEpoch, a.epochs, m);
    assert es[m] == k && FixedEpochs(net.lastEpoch, m) == es[..m];
    q := LoopStopsAt(StartProgress(net, a), m, st, o);
  }

  /**
   * A fixed-length call in which StopNetworkTraining is first raised at
   * epoch `k` ends there: `last_epoch` is `k`, no later epoch runs, the
   * errors of epoch `k` are recorded only when `epoch_end_signal` raised it,
   * and the call is finished off as a completed one is.
   */
  lemma StopEndsRun(net: NetState, cfg: NetConfig, a: TrainArgs, o: Oracles, k: int)
    requires FirstStopAt(net, cfg, a, o, k)
    ensures var (after, outcome) := Train(net, cfg, a, o);
            var st := SettingsFor(net, cfg, a);
            var before := FixedEpochs(net.lastEpoch, k - 1 - net.lastEpoch);
            var recorded := RecordsAt(StartProgress(net, a), k - 1 - net.lastEpoch, st, o);
            var first := k == net.lastEpoch + 1;
            var returned := TrainEndReturns(cfg.trainEndSignal, k, after.errors, after.validationErrors);
            && outcome == (if returned then StoppedAt(k) else Failed(CallbackRaised))
            && after.lastEpoch == k
            && |after.errors| == |net.errors| + |before| + (if recorded then 1 else 0)
            && after.errors[..|net.errors|] == net.errors
            && after.errors[..|net.errors| + |before|]
               == net.errors + TrainEntriesFrom(StartProgress(net, a), 0, |before|, st, o)
            && |after.validationErrors| == |after.errors| - |net.errors| + |net.validationErrors|
            && after.validationErrors[..|net.validationErrors| + |before|]
               == net.validationErrors + ValidationEntries(st, o, before)
            && after.trace == net.trace + LoopEvents(before, st.cadence, true, cfg.epochEndSignal.Some?)
                              + (if recorded then EpochEvents(k, st.cadence, first, true) else [])
                              + Closing(k, recorded && ShownAt(k, st.cadence, first),
                                        cfg.trainEndSignal.Some?, returned)
  {
    var st := SettingsFor(net, cfg, a);
    var q := FixedLoopStops(net, cfg, a, o, k);
    TrainConcludesLoop(net, cfg, a, o, q, Stopped);
    var recorded := RecordsAt(StartProgress(net, a), k - 1 - net.lastEpoch, st, o);
    assert FinalEvents(q, cfg.trainEndSignal)
           == Closing(k, recorded && ShownAt(k, st.cadence, k == net.lastEpoch + 1), cfg.trainEndSignal.Some?,
                      TrainEndReturns(cfg.trainEndSignal, k, q.errors, q.validationErrors));
  }

  /**
   * A call whose arguments fail a check raises before any epoch: the
   * network keeps its epoch counter, histories and reports, and only the
   * `training` dictionary has been emptied. The checks come in the order
   * the source makes them.
   */
  lemma RejectedBeforeAnyEpoch(net: NetState, cfg: NetConfig, a: TrainArgs, o: Oracles)
    requires Validate(cfg.showEpoch).Accepted?
    requires a.epochs <= 0 || (a.epsilon.Some? && a.epochs <= 2)
             || (a.summaryType != "table" && a.summaryType != "inline")
             || (a.summaryType == "table" && !ShapesMatch(a))
    ensures var (after, outcome) := Train(net, cfg, a, o);
            && after == net.(trainingShowEpoch := None)
            && outcome.Failed? && IsArgumentError(outcome.error)
            && (a.epochs <= 0 ==> outcome.error == EpochsNotPositive)
            && (a.epochs > 0 && a.epsilon.Some? && a.epochs <= 2 ==> outcome.error == TooFewEpochsForEpsilon)
            && (a.epochs > 0 && (a.epsilon.Some? ==> a.epochs > 2) ==>
                  outcome.error == if a.summaryType == "table" then FeatureShapeMismatch else UnknownSummaryType)
  {
  }

  /** `train` raises one of its own ValueErrors exactly when the arguments fail a check. */
  lemma ArgumentErrorsOnlyFromChecks(net: NetState, cfg: NetConfig, a: TrainArgs, o: Oracles)
    requires Validate(cfg.showEpoch).Accepted?
    ensures var outcome := Train(net, cfg, a, o).1;
            (outcome.Failed? && IsArgumentError(outcome.error))
            <==> !(a.epochs > 0 && (a.epsilon.Some? ==> a.epochs > 2)
                   && (a.summaryType == "table" || a.summaryType == "inline")
                   && (a.summaryType == "table" ==> ShapesMatch(a)))
  {
    if CheckTrainArguments(a).None? {
      var st := SettingsFor(net, cfg, a);
      var (q, end) := RunEpochs(StartProgress(net, a), 0, st, o);
      TrainConcludesLoop(net, cfg, a, o, q, end);
      LoopErrorsNotArguments(StartProgress(net, a), 0, st, o);
    }
  }

  /** Whatever escapes the loop is a shuffle error or a collaborator's exception. */
  lemma {:induction false} LoopErrorsNotArguments(p: Progress, i: nat, st: Settings, o: Oracles)
    requires st.cadence >= 1 && i <= |st.iterEpochs|
    ensures var end := RunEpochs(p, i, st, o).1;
            end.Aborted? ==> !IsArgumentError(end.error)
    decreases |st.iterEpochs| - i
  {
    if LoopDone(p, i, st, o) {
      RunEpochsExit(p, i, st, o);
    } else {
      var q, flow := StepErrorsNotArguments(p, st.iterEpochs[i], st, o);
      if flow == Next {
        RunEpochsNext(p, i, st, o, q);
        LoopErrorsNotArguments(q, i + 1, st, o);
      } else {
        var end := RunEpochsEnds(p, i, st, o, q, flow);
      }
    }
  }

  /** Whatever escapes an epoch is a shuffle error or a collaborator's exception. */
  lemma StepErrorsNotArguments(p: Progress, e: int, st: Settings, o: Oracles) returns (q: Progress, flow: Flow)
    requires st.cadence >= 1
    ensures EpochStep(p, e, st, o) == (q, flow)
    ensures flow.Abort? ==> !IsArgumentError(flow.error)
  {
    q, flow := EpochStep(p, e, st, o).0, EpochStep(p, e, st, o).1;
  }

  /**
   * With shuffling on and targets whose row count differs from the inputs',
   * `shuffle` raises during the first epoch and the error escapes `train`:
   * `last_epoch` has already moved on by one, nothing was recorded and
   * nothing reported, not even `summary.finish()`.
   */
  lemma ShuffleFailureEscapes(net: NetState, cfg: NetConfig, a: TrainArgs, o: Oracles)
    requires Validate(cfg.showEpoch).Accepted? && CheckTrainArguments(a).None?
    requires cfg.shuffleData && !RowsAgree(a.inputTrain, a.targetTrain)
    ensures var (after, outcome) := Train(net, cfg, a, o);
            && outcome == Failed(ShuffleFailed)
            && after == net.(lastEpoch := net.lastEpoch + 1,
                             trainingShowEpoch := Some(SettingsFor(net, cfg, a).cadence))
  {
    var st := SettingsFor(net, cfg, a);
    var p := StartProgress(net, a);
    assert st.iterEpochs[0] == net.lastEpoch + 1;
    var q := EpochStep(p, st.iterEpochs[0], st, o).0;
    assert EpochStep(p, st.iterEpochs[0], st, o) == (q, Abort(ShuffleFailed));
    assert RunEpochs(p, 0, st, o) == (q, Aborted(ShuffleFailed));
    TrainConcludesLoop(net, cfg, a, o, q, Aborted(ShuffleFailed));
  }

  /**
   * When `train_epoch` raises anything but StopNetworkTraining in the first
   * epoch, the exception escapes `train`: `last_epoch` has moved on by one,
   * nothing was recorded and nothing reported, not even `summary.finish()`.
   */
  lemma TrainEpochRaiseEscapes(net: NetState, cfg: NetConfig, a: TrainArgs, o: Oracles)
    requires Validate(cfg.showEpoch).Accepted? && CheckTrainArguments(a).None?
    requires cfg.shuffleData ==> RowsAgree(a.inputTrain, a.targetTrain)
    requires var d := Started(StartProgress(net, a), net.lastEpoch + 1, SettingsFor(net, cfg, a), o);
             o.trainEpoch(net.lastEpoch + 1, d.input, d.target).Raise?
    ensures var (after, outcome) := Train(net, cfg, a, o);
            && outcome == Failed(CallbackRaised)
            && after == net.(lastEpoch := net.lastEpoch + 1,
                             trainingShowEpoch := Some(SettingsFor(net, cfg, a).cadence))
  {
    var st := SettingsFor(net, cfg, a);
    var p := StartProgress(net, a);
    assert st.iterEpochs[0] == net.lastEpoch + 1;
    var d := EpochStart(p, st.iterEpochs[0], st, o);
    assert EpochStep(p, st.iterEpochs[0], st, o) == (d, Abort(CallbackRaised));
    assert RunEpochs(p, 0, st, o) == (d, Aborted(CallbackRaised));
    TrainConcludesLoop(net, cfg, a, o, d, Aborted(CallbackRaised));
  }

  /**
   * What a call reported in `added`: `summary.finish()` once and last when
   * it did not raise, never when it did; `train_end_signal` at most once if
   * there is one, never if not, and once whenever the call finished.
   */
  ghost predicate FinishedOnce(added: seq<Event>, finished: bool, trainEndSignal: bool) {
    && multiset(added)[Finish] == (if finished then 1 else 0)
    && multiset(added)[TrainEnd] <= (if trainEndSignal then 1 else 0)
    && (finished ==>
          && |added| > 0 && added[|added| - 1] == Finish
          && multiset(added)[TrainEnd] == (if trainEndSignal then 1 else 0))
  }

  /** Appending to a trace that starts with `base` keeps `base` in front of all it added. */
  lemma ExtendAfterBase(base: seq<Event>, t: seq<Event>, more: seq<Event>)
    requires |base| <= |t| && t[..|base|] == base
    ensures (t + more)[..|base|] == base && (t + more)[|base|..] == t[|base|..] + more
  {
  }

  /** Per-epoch reports followed by the final events contain one `summary.finish()`, last, unless the end signal raised. */
  lemma ReportsThenFinal(loop: seq<Event>, q: Progress, trainEndSignal: Option<Callback>)
    requires OnlyEpochReports(loop)
    ensures FinishedOnce(loop + FinalEvents(q, trainEndSignal),
                         TrainEndReturns(trainEndSignal, q.lastEpoch, q.errors, q.validationErrors),
                         trainEndSignal.Some?)
  {
    NoFinalReportsInLoop(loop);
    var final := FinalEvents(q, trainEndSignal);
    assert multiset(loop + final) == multiset(loop) + multiset(final);
  }

  /** A loop that reported epochs only is finished off with one `summary.finish()`, unless something raised. */
  lemma ConcludeFinishesOnce(base: seq<Event>, q: Progress, end: LoopEnd, cadence: int,
                             trainEndSignal: Option<Callback>)
    requires |base| <= |q.trace| && q.trace[..|base|] == base && OnlyEpochReports(q.trace[|base|..])
    ensures var (after, outcome) := Conclude(q, end, cadence, trainEndSignal);
            && |base| <= |after.trace| && after.trace[..|base|] == base
            && FinishedOnce(after.trace[|base|..], !outcome.Failed?, trainEndSignal.Some?)
  {
    var loop := q.trace[|base|..];
    var after := Conclude(q, end, cadence, trainEndSignal).0;
    if !end.Aborted? {
      var final := FinalEvents(q, trainEndSignal);
      assert after.trace == q.trace + final;
      ExtendAfterBase(base, q.trace, final);
      ReportsThenFinal(loop, q, trainEndSignal);
    } else {
      NoFinalReportsInLoop(loop);
    }
  }

  /**
   * Every call that does not raise calls `train_end_signal` (when there is
   * one) and `summary.finish()` exactly once, the latter last; a call that
   * raises never calls `summary.finish()`. A call only ever adds to what
   * was reported.
   */
  lemma FinishesOnce(net: NetState, cfg: NetConfig, a: TrainArgs, o: Oracles)
    requires Validate(cfg.showEpoch).Accepted?
    ensures var (after, outcome) := Train(net, cfg, a, o);
            && |net.trace| <= |after.trace| && after.trace[..|net.trace|] == net.trace
            && FinishedOnce(after.trace[|net.trace|..], !outcome.Failed?, cfg.trainEndSignal.Some?)
  {
    if CheckTrainArguments(a).None? {
      var st := SettingsFor(net, cfg, a);
      var p := StartProgress(net, a);
      var q, end := RunEpochsReports(p, 0, st, o);
      TrainConcludesLoop(net, cfg, a, o, q, end);
      ConcludeFinishesOnce(net.trace, q, end, st.cadence, cfg.trainEndSignal);
    } else {
      assert Train(net, cfg, a, o).0.trace[|net.trace|..] == [];
    }
  }

  /**
   * In either mode a call that passes the checks runs at least one epoch
   * and at most `epochs`, and records at most one entry per epoch run, in
   * both histories alike, after the entries that were there.
   */
  lemma EpochCounterRange(net: NetState, cfg: NetConfig, a: TrainArgs, o: Oracles)
    requires Validate(cfg.showEpoch).Accepted? && CheckTrainArguments(a).None?
    ensures var after := Train(net, cfg, a, o).0;
            && net.lastEpoch < after.lastEpoch <= net.lastEpoch + a.epochs
            && |net.errors| <= |after.errors| <= |net.errors| + (after.lastEpoch - net.lastEpoch)
            && after.errors[..|net.errors|] == net.errors
            && |after.validationErrors| - |net.validationErrors| == |after.errors| - |net.errors|
            && after.validationErrors[..|net.validationErrors|] == net.validationErrors
  {
    var st := SettingsFor(net, cfg, a);
    var p := StartProgress(net, a);
    var q, end := RunEpochsGrows(p, 0, st, o);
    var q2, end2, j := RunEpochsLastEpoch(p, 0, st, o);
    TrainConcludesLoop(net, cfg, a, o, q, end);
    assert q.lastEpoch == net.lastEpoch + 1 + j;
  }

  // ---------------------------------------------------------------------
  // Early stopping on what was recorded
  // ---------------------------------------------------------------------

  /** An `epoch_end_signal` that raises StopNetworkTraining once `n` training errors are recorded. */
  function StopAfter(n: nat): Callback {
    (e: int, h: seq<ErrorValue>, v: seq<ErrorValue>) => if |h| >= n then StopTraining else Continue
  }

  /** Collaborators whose every error computation returns `x`. */
  function Steady(x: ErrorValue): Oracles {
    Oracles((e: int, d: Dataset, t: Option<Dataset>) => Ok(x),
            (e: int, d: Dataset, t: Option<Dataset>) => Ok(x),
            (e: int) => [], (h: seq<ErrorValue>) => false)
  }

  /**
   * A five-epoch call on a fresh network whose `epoch_end_signal` stops
   * once two errors are recorded meets the hypothesis of `StopEndsRun` for
   * epoch 2: epoch 1 proceeds, and the signal raises after epoch 2.
   */
  lemma EarlyStoppingFirstStop(input: Dataset, x: ErrorValue)
    ensures var cfg := NetConfig(Period(1), false, Some(StopAfter(2)), None);
            var a := TrainArgs(input, None, None, None, 5, None, "inline");
            FirstStopAt(NetState(0, [], [], None, []), cfg, a, Steady(x), 2)
  {
    var net := NetState(0, [], [], None, []);
    var cfg := NetConfig(Period(1), false, Some(StopAfter(2)), None);
    var a := TrainArgs(input, None, None, None, 5, None, "inline");
    var o := Steady(x);
    var st := SettingsFor(net, cfg, a);
    var p := StartProgress(net, a);
    assert st.cadence == 1 && st.iterEpochs == [1, 2, 3, 4, 5];
    var q := EpochThatProceeds(p, 1, st, o);
    assert ProceedsThrough(q, 1, 1, st, o);
    assert Through(p, 0, 1, st, o) == q;
  }

  /** The loop of that call breaks at epoch 2, with both epochs recorded and reported. */
  lemma EarlyStoppingLoop(input: Dataset, x: ErrorValue) returns (r: Progress)
    ensures var net := NetState(0, [], [], None, []);
            var cfg := NetConfig(Period(1), false, Some(StopAfter(2)), None);
            var a := TrainArgs(input, None, None, None, 5, None, "inline");
            RunEpochs(StartProgress(net, a), 0, SettingsFor(net, cfg, a), Steady(x)) == (r, Stopped)
    ensures && r.lastEpoch == 2 && r.lastShown == 2
            && r.errors == [x, x] && r.validationErrors == [Placeholder, Placeholder]
            && r.trace == [Show(1), EpochEnd(1), Show(2), EpochEnd(2)]
  {
    var net := NetState(0, [], [], None, []);
    var cfg := NetConfig(Period(1), false, Some(StopAfter(2)), None);
    var a := TrainArgs(input, None, None, None, 5, None, "inline");
    var o := Steady(x);
    var st := SettingsFor(net, cfg, a);
    var p := StartProgress(net, a);
    assert st.cadence == 1 && st.iterEpochs == [1, 2, 3, 4, 5];
    var q := EpochThatProceeds(p, 1, st, o);
    r := EpochThatStops(q, 2, st, o);
    RunEpochsNext(p, 0, st, o, q);
    RunEpochsBreak(q, 1, st, o, r);
  }

  /**
   * That call ends at epoch 2, having recorded the errors of epochs 1 and 2
   * and reported both, then `summary.finish()`.
   */
  lemma EarlyStoppingExample(input: Dataset, x: ErrorValue)
    ensures var cfg := NetConfig(Period(1), false, Some(StopAfter(2)), None);
            var a := TrainArgs(input, None, None, None, 5, None, "inline");
            var (after, outcome) := Train(NetState(0, [], [], None, []), cfg, a, Steady(x));
            && outcome == StoppedAt(2)
            && after.lastEpoch == 2
            && after.errors == [x, x]
            && after.validationErrors == [Placeholder, Placeholder]
            && after.trace == [Show(1), EpochEnd(1), Show(2), EpochEnd(2), Finish]
  {
    var net := NetState(0, [], [], None, []);
    var cfg := NetConfig(Period(1), false, Some(StopAfter(2)), None);
    var a := TrainArgs(input, None, None, None, 5, None, "inline");
    var r := EarlyStoppingLoop(input, x);
    TrainConcludesLoop(net, cfg, a, Steady(x), r, Stopped);
  }
}
