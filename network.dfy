/** `BaseNetwork`: the object whose fields `train` updates in place. */
module Network {
  import opened Wrappers
  import opened ErrorHistory
  import opened ShowEpoch
  import opened Shuffling
  import opened Epochs
  import opened TrainingLoop

  class BaseNetwork {
    var showEpoch: ShowEpochValue
    var shuffleData: bool
    var epochEndSignal: Option<Callback>
    var trainEndSignal: Option<Callback>
    /** Also reachable as `train_errors`: one list under two names. */
    var errors: seq<ErrorValue>
    var validationErrors: seq<ErrorValue>
    var lastEpoch: int
    /** The `show_epoch` entry of the `training` dictionary, absent while it is empty. */
    var trainingShowEpoch: Option<int>
    /** Everything the network has reported, in order. */
    ghost var trace: seq<Event>

    /** The `show_epoch` option only ever holds values its validation accepted. */
    ghost predicate Valid()
      reads this
    {
      Validate(showEpoch).Accepted?
    }

    ghost function State(): NetState
      reads this
    {
      NetState(lastEpoch, errors, validationErrors, trainingShowEpoch, trace)
    }

    ghost function Config(): NetConfig
      reads this
    {
      NetConfig(showEpoch, shuffleData, epochEndSignal, trainEndSignal)
    }

    /** A network with the options' defaults and empty histories. */
    constructor ()
      ensures Valid()
      ensures Config() == NetConfig(Period(1), false, None, None)
      ensures State() == NetState(0, [], [], None, [])
    {
      showEpoch := Period(1);
      shuffleData := false;
      epochEndSignal := None;
      trainEndSignal := None;
      errors := [];
      validationErrors := [];
      lastEpoch := 0;
      trainingShowEpoch := None;
      trace := [];
    }

    /** Assigning `show_epoch`: the value is validated and kept only if accepted. */
    method SetShowEpoch(v: ShowEpochValue) returns (check: Check)
      modifies this`showEpoch
      ensures check == Validate(v)
      ensures showEpoch == if check.Accepted? then v else old(showEpoch)
      ensures old(Valid()) ==> Valid()
    {
      check := Validate(v);
      if check.Accepted? {
        showEpoch := v;
      }
    }

    /** `on_epoch_start_update`: the epoch being processed becomes `last_epoch`. */
    method OnEpochStartUpdate(epoch: int)
      modifies this`lastEpoch
      ensures lastEpoch == epoch
    {
      lastEpoch := epoch;
    }

    /** The loop state of `Train`, for its specification. */
    ghost function ProgressWith(input: Dataset, target: Option<Dataset>, isFirst: bool, lastShown: int): Progress
      reads this
    {
      Progress(lastEpoch, errors, validationErrors, trace, input, target, isFirst, lastShown)
    }

    /** The `try` block of one epoch: train, validate, record, report, signal. */
    method TryEpoch(epoch: int, input: Dataset, target: Option<Dataset>, isFirst: bool, lastShown: int,
                    st: Settings, o: Oracles)
      returns (isFirst': bool, lastShown': int, flow: Flow)
      requires st.cadence >= 1 && st.epochEndSignal == epochEndSignal
      modifies this`errors, this`validationErrors, this`trace
      ensures (ProgressWith(input, target, isFirst', lastShown'), flow)
              == EpochBody(old(ProgressWith(input, target, isFirst, lastShown)), epoch, st, o)
    {
      isFirst', lastShown' := isFirst, lastShown;
      var validationError := Placeholder;
      var trainStep := o.trainEpoch(epoch, input, target);
      if trainStep.Stop? {
        return isFirst', lastShown', Break;
      } else if trainStep.Raise? {
        return isFirst', lastShown', Abort(CallbackRaised);
      }
      if st.inputTest.Some? {
        var validationStep := o.predictionError(epoch, st.inputTest.value, st.targetTest);
        if validationStep.Stop? {
          return isFirst', lastShown', Break;
        } else if validationStep.Raise? {
          return isFirst', lastShown', Abort(CallbackRaised);
        }
        validationError := validationStep.error;
      }
      errors := errors + [trainStep.error];
      validationErrors := validationErrors + [validationError];
      if epoch % st.cadence == 0 || isFirst {
        trace := trace + [Show(epoch)];
        lastShown' := epoch;
      }
      if epochEndSignal.Some? {
        trace := trace + [EpochEnd(epoch)];
        var signal := epochEndSignal.value(epoch, errors, validationErrors);
        if signal == StopTraining {
          return isFirst', lastShown', Break;
        } else if signal == RaiseOther {
          return isFirst', lastShown', Abort(CallbackRaised);
        }
      }
      isFirst' := false;
      flow := Next;
    }

    /** One pass of the `for` loop: `on_epoch_start_update`, the optional shuffle, the `try` block. */
    method RunEpoch(epoch: int, input: Dataset, target: Option<Dataset>, isFirst: bool, lastShown: int,
                    st: Settings, o: Oracles)
      returns (input': Dataset, target': Option<Dataset>, isFirst': bool, lastShown': int, flow: Flow)
      requires st.cadence >= 1 && st.epochEndSignal == epochEndSignal && st.shuffleData == shuffleData
      modifies this`lastEpoch, this`errors, this`validationErrors, this`trace
      ensures lastEpoch == epoch
      ensures (ProgressWith(input', target', isFirst', lastShown'), flow)
              == EpochStep(old(ProgressWith(input, target, isFirst, lastShown)), epoch, st, o)
    {
      input', target', isFirst', lastShown' := input, target, isFirst, lastShown;
      OnEpochStartUpdate(epoch);
      if shuffleData {
        var shuffled := Shuffle(input, target, o.shuffleDraws(epoch));
        if shuffled.Failure? {
          return input', target', isFirst', lastShown', Abort(ShuffleFailed);
        }
        input', target' := shuffled.value.0, shuffled.value.1;
      }
      isFirst', lastShown', flow := TryEpoch(epoch, input', target', isFirst, lastShown, st, o);
    }

    /** The `for epoch in iterepochs` loop. */
    method RunEpochs(inputTrain: Dataset, targetTrain: Option<Dataset>, st: Settings, o: Oracles)
      returns (input: Dataset, target: Option<Dataset>, isFirst: bool, lastShown: int, epoch: int, end: LoopEnd)
      requires st.cadence >= 1 && st.epochEndSignal == epochEndSignal && st.shuffleData == shuffleData
      modifies this`lastEpoch, this`errors, this`validationErrors, this`trace
      ensures epoch == lastEpoch
      ensures (ProgressWith(input, target, isFirst, lastShown), end)
              == TrainingLoop.RunEpochs(
                   old(ProgressWith(inputTrain, targetTrain, true, 0)), 0, st, o)
    {
      ghost var total := TrainingLoop.RunEpochs(ProgressWith(inputTrain, targetTrain, true, 0), 0, st, o);
      isFirst, lastShown := true, 0;
      input, target := inputTrain, targetTrain;
      epoch := lastEpoch;
      var flow := Next;
      var i := 0;
      while i < |st.iterEpochs| && !(st.convergence && i > 0 && o.converged(errors))
        invariant 0 <= i <= |st.iterEpochs|
        invariant epoch == lastEpoch
        invariant TrainingLoop.RunEpochs(ProgressWith(input, target, isFirst, lastShown), i, st, o) == total
        decreases |st.iterEpochs| - i
      {
        RunEpochsStep(ProgressWith(input, target, isFirst, lastShown), i, st, o);
        epoch := st.iterEpochs[i];
        input, target, isFirst, lastShown, flow := RunEpoch(epoch, input, target, isFirst, lastShown, st, o);
        if flow.Abort? {
          assert total == (ProgressWith(input, target, isFirst, lastShown), Aborted(flow.error));
          return input, target, isFirst, lastShown, epoch, Aborted(flow.error);
        } else if flow == Break {
          assert total == (ProgressWith(input, target, isFirst, lastShown), Stopped);
          return input, target, isFirst, lastShown, epoch, Stopped;
        }
        i := i + 1;
      }
      RunEpochsExit(ProgressWith(input, target, isFirst, lastShown), i, st, o);
      end := Exhausted;
    }

    /**
     * After the loop: the last `show_last` if the last epoch was not shown,
     * `train_end_signal`, and `summary.finish()` unless `train_end_signal` raised.
     */
    method Finalize(epoch: int, lastShown: int) returns (returned: bool)
      modifies this`trace
      ensures returned == TrainEndReturns(trainEndSignal, epoch, errors, validationErrors)
      ensures trace == old(trace) + (if epoch != lastShown then [Show(epoch)] else [])
                      + (if trainEndSignal.Some? then [TrainEnd] else [])
                      + (if returned then [Finish] else [])
    {
      if epoch != lastShown {
        trace := trace + [Show(epoch)];
      }
      if trainEndSignal.Some? {
        trace := trace + [TrainEnd];
        if trainEndSignal.value(epoch, errors, validationErrors) != Continue {
          return false;
        }
      }
      trace := trace + [Finish];
      returned := true;
    }

    /** The loop of `train` and, unless an error escaped the loop, its finalization. */
    method RunAndFinish(inputTrain: Dataset, targetTrain: Option<Dataset>, st: Settings, o: Oracles)
      returns (outcome: TrainOutcome)
      requires st.cadence >= 1 && st.epochEndSignal == epochEndSignal && st.shuffleData == shuffleData
      requires trainingShowEpoch == Some(st.cadence)
      modifies this`lastEpoch, this`errors, this`validationErrors, this`trace
      ensures var (p, end) := TrainingLoop.RunEpochs(old(ProgressWith(inputTrain, targetTrain, true, 0)), 0, st, o);
              (State(), outcome) == Conclude(p, end, st.cadence, trainEndSignal)
    {
      ghost var total := TrainingLoop.RunEpochs(ProgressWith(inputTrain, targetTrain, true, 0), 0, st, o);
      var input, target, isFirst, lastShown, epoch, end :=
        RunEpochs(inputTrain, targetTrain, st, o);
      ghost var final := ProgressWith(input, target, isFirst, lastShown);
      assert total == (final, end);
      assert final.lastEpoch == epoch && final.lastShown == lastShown;
      assert trainingShowEpoch == Some(st.cadence);
      if end.Aborted? {
        return Failed(end.error);
      }
      var returned := Finalize(epoch, lastShown);
      assert returned == TrainEndReturns(trainEndSignal, final.lastEpoch, final.errors, final.validationErrors);
      assert trace == final.trace + FinalEvents(final, trainEndSignal);
      outcome := if !returned then Failed(CallbackRaised) else if end == Stopped then StoppedAt(epoch) else Completed;
      assert (State(), outcome) == Conclude(final, end, st.cadence, trainEndSignal);
    }

    /** `BaseNetwork.train`. */
    method Train(inputTrain: Dataset, targetTrain: Option<Dataset>,
                 inputTest: Option<Dataset>, targetTest: Option<Dataset>,
                 epochs: int, epsilon: Option<real>, summaryType: string, o: Oracles)
      returns (outcome: TrainOutcome)
      requires Valid()
      modifies this
      ensures Valid() && Config() == old(Config())
      ensures (State(), outcome)
              == TrainingLoop.Train(old(State()), old(Config()),
                                    TrainArgs(inputTrain, targetTrain, inputTest, targetTest,
                                              epochs, epsilon, summaryType), o)
    {
      ghost var net0, args := State(), TrainArgs(inputTrain, targetTrain, inputTest, targetTest,
                                                 epochs, epsilon, summaryType);
      trainingShowEpoch := None;
      assert State() == net0.(trainingShowEpoch := None);
      if epochs <= 0 {
        TrainRejects(net0, Config(), args, o, EpochsNotPositive);
        return Failed(EpochsNotPositive);
      }
      if epsilon.Some? && epochs <= 2 {
        TrainRejects(net0, Config(), args, o, TooFewEpochsForEpsilon);
        return Failed(TooFewEpochsForEpsilon);
      }
      if summaryType == "table" {
        if inputTest.Some? && inputTrain.featureShape != inputTest.value.featureShape {
          TrainRejects(net0, Config(), args, o, FeatureShapeMismatch);
          return Failed(FeatureShapeMismatch);
        }
      } else if summaryType != "inline" {
        TrainRejects(net0, Config(), args, o, UnknownSummaryType);
        return Failed(UnknownSummaryType);
      }
      assert CheckTrainArguments(args).None?;
      TrainIgnoresShowEpochEntry(net0, Config(), args, o);
      outcome := TrainChecked(inputTrain, targetTrain, inputTest, targetTest, epochs, epsilon, summaryType, o);
    }

    /** What `train` does once its arguments have passed the checks: configure, loop, finalize. */
    method TrainChecked(inputTrain: Dataset, targetTrain: Option<Dataset>,
                        inputTest: Option<Dataset>, targetTest: Option<Dataset>,
                        epochs: int, epsilon: Option<real>, summaryType: string, o: Oracles)
      returns (outcome: TrainOutcome)
      requires Valid()
      requires CheckTrainArguments(TrainArgs(inputTrain, targetTrain, inputTest, targetTest,
                                             epochs, epsilon, summaryType)).None?
      modifies this`trainingShowEpoch, this`lastEpoch, this`errors, this`validationErrors, this`trace
      ensures (State(), outcome)
              == TrainingLoop.Train(old(State()), Config(),
                                    TrainArgs(inputTrain, targetTrain, inputTest, targetTest,
                                              epochs, epsilon, summaryType), o)
    {
      ghost var net0, args := State(), TrainArgs(inputTrain, targetTrain, inputTest, targetTest,
                                                 epochs, epsilon, summaryType);
      var iterEpochs := FixedEpochs(lastEpoch, epochs);
      var cadence := ParseShowEpoch(showEpoch, epochs, epsilon.Some?);
      trainingShowEpoch := Some(cadence);
      var st := Settings(cadence, iterEpochs, epsilon.Some?, inputTest, targetTest,
                         shuffleData, epochEndSignal);
      assert st == SettingsFor(net0, Config(), args);
      assert ProgressWith(inputTrain, targetTrain, true, 0) == StartProgress(net0, args);
      ghost var loop := TrainingLoop.RunEpochs(StartProgress(net0, args), 0, st, o);
      TrainConcludesLoop(net0, Config(), args, o, loop.0, loop.1);
      outcome := RunAndFinish(inputTrain, targetTrain, st, o);
    }
  }
}
