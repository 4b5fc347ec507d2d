/**
 * `BaseNetwork.train` as a function of the network's state: argument checks,
 * configuration, the epoch loop and finalisation. The class in module
 * Network runs the same steps imperatively and is proved equal to `Train`.
 */
module TrainingLoop {
  import opened Wrappers
  import opened ErrorHistory
  import opened ShowEpoch
  import opened Shuffling
  import opened Epochs

  /**
   * One call of `train_epoch` or `prediction_error`: an error value,
   * StopNetworkTraining raised, or any other exception raised.
   */
  datatype Step = Ok(error: ErrorValue) | Stop | Raise

  /** One call of a signal callback: it returns, raises StopNetworkTraining, or raises anything else. */
  datatype Signal = Continue | StopTraining | RaiseOther

  /**
   * `epoch_end_signal` or `train_end_signal`: called with the network, of
   * which it sees `last_epoch` and both error histories.
   */
  type Callback = (int, seq<ErrorValue>, seq<ErrorValue>) -> Signal

  /**
   * The collaborators whose code is not part of this model: the network's
   * own `train_epoch` and `prediction_error` (given the epoch, standing for
   * the trainable's internal state), the random numbers `shuffle` draws at
   * each epoch, and the convergence test of the epsilon-mode iterator.
   */
  datatype Oracles = Oracles(
    trainEpoch: (int, Dataset, Option<Dataset>) -> Step,
    predictionError: (int, Dataset, Option<Dataset>) -> Step,
    shuffleDraws: int -> seq<nat>,
    converged: seq<ErrorValue> -> bool)

  /**
   * What a run reports: a `summary.show_last()` for an epoch, an
   * `epoch_end_signal` call, the `train_end_signal` call, `summary.finish()`.
   */
  datatype Event = Show(epoch: int) | EpochEnd(epoch: int) | TrainEnd | Finish

  /**
   * What escapes `train`: its own ValueErrors, in the order it checks for
   * them, the ValueError of `shuffle`, and any exception from a collaborator
   * that is not a StopNetworkTraining caught by the loop.
   */
  datatype TrainError =
    | EpochsNotPositive
    | TooFewEpochsForEpsilon
    | FeatureShapeMismatch
    | UnknownSummaryType
    | ShuffleFailed
    | CallbackRaised

  /** The errors `train` raises itself, before any epoch runs. */
  predicate IsArgumentError(err: TrainError) {
    err != ShuffleFailed && err != CallbackRaised
  }

  datatype TrainOutcome = Completed | StoppedAt(epoch: int) | Failed(error: TrainError)

  /** The network options `train` reads. */
  datatype NetConfig = NetConfig(
    showEpoch: ShowEpochValue,
    shuffleData: bool,
    epochEndSignal: Option<Callback>,
    trainEndSignal: Option<Callback>)

  /** The part of a network that `train` changes, and what it has reported. */
  datatype NetState = NetState(
    lastEpoch: int,
    errors: seq<ErrorValue>,
    validationErrors: seq<ErrorValue>,
    trainingShowEpoch: Option<int>,   // `self.training.show_epoch`
    trace: seq<Event>)

  /** The arguments of one `train` call. */
  datatype TrainArgs = TrainArgs(
    inputTrain: Dataset,
    targetTrain: Option<Dataset>,
    inputTest: Option<Dataset>,
    targetTest: Option<Dataset>,
    epochs: int,
    epsilon: Option<real>,
    summaryType: string)

  predicate ShapesMatch(a: TrainArgs) {
    a.inputTest.Some? ==> a.inputTrain.featureShape == a.inputTest.value.featureShape
  }

  /**
   * The checks made before any epoch runs, in the source's order; the
   * feature-shape check belongs to the table summary's start-up logging.
   */
  function CheckTrainArguments(a: TrainArgs): (r: Option<TrainError>)
    ensures r.None? <==>
              a.epochs > 0 && (a.epsilon.Some? ==> a.epochs > 2)
              && (a.summaryType == "table" || a.summaryType == "inline")
              && (a.summaryType == "table" ==> ShapesMatch(a))
    ensures a.epochs <= 0 ==> r == Some(EpochsNotPositive)
    ensures r == Some(FeatureShapeMismatch) ==> a.summaryType == "table" && a.epochs > 0
    ensures r == Some(UnknownSummaryType) ==> a.summaryType != "table" && a.summaryType != "inline"
  {
    if a.epochs <= 0 then Some(EpochsNotPositive)
    else if a.epsilon.Some? && a.epochs <= 2 then Some(TooFewEpochsForEpsilon)
    else if a.summaryType == "table" then
      if ShapesMatch(a) then None else Some(FeatureShapeMismatch)
    else if a.summaryType == "inline" then None
    else Some(UnknownSummaryType)
  }

  /** What stays fixed while the epochs run. */
  datatype Settings = Settings(
    cadence: int,               // `training.show_epoch`
    iterEpochs: seq<int>,       // the epoch numbers the iterator may yield
    convergence: bool,          // epsilon mode
    inputTest: Option<Dataset>,
    targetTest: Option<Dataset>,
    shuffleData: bool,
    epochEndSignal: Option<Callback>)

  /** The state the loop carries from one epoch to the next. */
  datatype Progress = Progress(
    lastEpoch: int,
    errors: seq<ErrorValue>,
    validationErrors: seq<ErrorValue>,
    trace: seq<Event>,
    input: Dataset,             // `input_train`, reassigned by shuffling
    target: Option<Dataset>,    // `target_train`, reassigned by shuffling
    isFirst: bool,              // `is_first_iteration`
    lastShown: int)             // `last_epoch_shown`

  /** How one epoch ends: on to the next, a caught stop signal, or an escaping error. */
  datatype Flow = Next | Break | Abort(error: TrainError)

  /** The validation step of epoch `e`: `prediction_error` on the test data, or NaN without test data. */
  function Validation(st: Settings, o: Oracles, e: int): Step {
    if st.inputTest.Some? then o.predictionError(e, st.inputTest.value, st.targetTest) else Ok(Placeholder)
  }

  /** The body of the `try` block for epoch `e`. */
  function EpochBody(p: Progress, e: int, st: Settings, o: Oracles): (Progress, Flow)
    requires st.cadence >= 1
  {
    match o.trainEpoch(e, p.input, p.target)
    case Stop => (p, Break)
    case Raise => (p, Abort(CallbackRaised))
    case Ok(trainError) =>
      match Validation(st, o, e)
      case Stop => (p, Break)
      case Raise => (p, Abort(CallbackRaised))
      case Ok(validationError) =>
        var recorded := p.(errors := p.errors + [trainError],
                           validationErrors := p.validationErrors + [validationError]);
        var shown :=
          if e % st.cadence == 0 || p.isFirst
          then recorded.(trace := recorded.trace + [Show(e)], lastShown := e)
          else recorded;
        match st.epochEndSignal
        case None => (shown.(isFirst := false), Next)
        case Some(signal) =>
          var signalled := shown.(trace := shown.trace + [EpochEnd(e)]);
          match signal(e, signalled.errors, signalled.validationErrors)
          case StopTraining => (signalled, Break)
          case RaiseOther => (signalled, Abort(CallbackRaised))
          case Continue => (signalled.(isFirst := false), Next)
  }

  /**
   * The state after `on_epoch_start_update` and, with shuffling on, the
   * shuffle of epoch `e`: the one the `try` block starts from. When
   * `shuffle` refuses the data only `last_epoch` has changed.
   */
  function Started(p: Progress, e: int, st: Settings, o: Oracles): Progress {
    var started := p.(lastEpoch := e);
    if !st.shuffleData then started
    else
      match Shuffle(p.input, p.target, o.shuffleDraws(e))
      case Failure(_) => started
      case Success(data) => started.(input := data.0, target := data.1)
  }

  /** Shuffling is on and `shuffle` raises on the data of epoch `e`, outside the `try` block. */
  predicate ShuffleRefused(p: Progress, e: int, st: Settings, o: Oracles) {
    st.shuffleData && Shuffle(p.input, p.target, o.shuffleDraws(e)).Failure?
  }

  /** One pass of the `for` loop: `on_epoch_start_update`, the optional shuffle, the `try` block. */
  function EpochStep(p: Progress, e: int, st: Settings, o: Oracles): (Progress, Flow)
    requires st.cadence >= 1
  {
    var d := Started(p, e, st, o);
    if ShuffleRefused(p, e, st, o) then (d, Abort(ShuffleFailed)) else EpochBody(d, e, st, o)
  }

  datatype LoopEnd = Exhausted | Stopped | Aborted(error: TrainError)

  /**
   * The loop from the `i`-th epoch number on. In epsilon mode the iterator
   * consults the convergence test before every epoch but the first.
   */
  function RunEpochs(p: Progress, i: nat, st: Settings, o: Oracles): (Progress, LoopEnd)
    requires st.cadence >= 1 && i <= |st.iterEpochs|
    decreases |st.iterEpochs| - i
  {
    if i == |st.iterEpochs| || (st.convergence && i > 0 && o.converged(p.errors)) then (p, Exhausted)
    else
      var (q, flow) := EpochStep(p, st.iterEpochs[i], st, o);
      match flow
      case Next => RunEpochs(q, i + 1, st, o)
      case Break => (q, Stopped)
      case Abort(err) => (q, Aborted(err))
  }

  /** `train_end_signal`, if there is one, returns when called on a network in this state. */
  predicate TrainEndReturns(trainEndSignal: Option<Callback>, lastEpoch: int,
                            errors: seq<ErrorValue>, validationErrors: seq<ErrorValue>) {
    trainEndSignal.None? || trainEndSignal.value(lastEpoch, errors, validationErrors) == Continue
  }

  /**
   * After the loop: one more `show_last` unless the last epoch was shown,
   * `train_end_signal` if there is one, and `summary.finish()` unless that
   * raised. The loop variable `epoch` equals `last_epoch` here, since every
   * pass starts by setting it.
   */
  function FinalEvents(p: Progress, trainEndSignal: Option<Callback>): (r: seq<Event>)
    ensures Show(p.lastEpoch) in r <==> p.lastEpoch != p.lastShown
    ensures TrainEnd in r <==> trainEndSignal.Some?
    ensures Finish in r <==> TrainEndReturns(trainEndSignal, p.lastEpoch, p.errors, p.validationErrors)
  {
    Closing(p.lastEpoch, p.lastEpoch == p.lastShown, trainEndSignal.Some?,
            TrainEndReturns(trainEndSignal, p.lastEpoch, p.errors, p.validationErrors))
  }

  /** The closing reports after epoch `last`, given whether it was shown, whether there is an end signal and whether it returned. */
  function Closing(last: int, shown: bool, trainEndSignal: bool, returned: bool): seq<Event> {
    (if shown then [] else [Show(last)]) + (if trainEndSignal then [TrainEnd] else [])
    + (if returned then [Finish] else [])
  }

  function SettingsFor(net: NetState, cfg: NetConfig, a: TrainArgs): (st: Settings)
    requires Validate(cfg.showEpoch).Accepted?
    ensures st.cadence >= 1
  {
    Settings(ParseShowEpoch(cfg.showEpoch, a.epochs, a.epsilon.Some?),
             FixedEpochs(net.lastEpoch, a.epochs), a.epsilon.Some?,
             a.inputTest, a.targetTest, cfg.shuffleData, cfg.epochEndSignal)
  }

  function StartProgress(net: NetState, a: TrainArgs): Progress {
    Progress(net.lastEpoch, net.errors, net.validationErrors, net.trace,
             a.inputTrain, a.targetTrain, true, 0)
  }

  /** The network after the loop ended with `p`, and how the call ended. */
  function Conclude(p: Progress, end: LoopEnd, cadence: int, trainEndSignal: Option<Callback>)
    : (r: (NetState, TrainOutcome))
    ensures && r.0.lastEpoch == p.lastEpoch && r.0.errors == p.errors
            && r.0.validationErrors == p.validationErrors && r.0.trainingShowEpoch == Some(cadence)
    ensures r.1.Failed? <==>
              end.Aborted? || !TrainEndReturns(trainEndSignal, p.lastEpoch, p.errors, p.validationErrors)
    ensures r.1.StoppedAt? <==> !r.1.Failed? && end == Stopped
    ensures r.1.StoppedAt? ==> r.1.epoch == p.lastEpoch
  {
    var after := NetState(p.lastEpoch, p.errors, p.validationErrors, Some(cadence), p.trace);
    if end.Aborted? then (after, Failed(end.error))
    else
      var finished := after.(trace := p.trace + FinalEvents(p, trainEndSignal));
      if !TrainEndReturns(trainEndSignal, p.lastEpoch, p.errors, p.validationErrors) then (finished, Failed(CallbackRaised))
      else if end == Stopped then (finished, StoppedAt(p.lastEpoch))
      else (finished, Completed)
  }

  /** `BaseNetwork.train`: the new state of the network and how the call ended. */
  function Train(net: NetState, cfg: NetConfig, a: TrainArgs, o: Oracles): (NetState, TrainOutcome)
    requires Validate(cfg.showEpoch).Accepted?
  {
    match CheckTrainArguments(a)
    case Some(err) => (net.(trainingShowEpoch := None), Failed(err))
    case None =>
      var st := SettingsFor(net, cfg, a);
      var (p, end) := RunEpochs(StartProgress(net, a), 0, st, o);
      Conclude(p, end, st.cadence, cfg.trainEndSignal)
  }

  /** The loop stops before epoch `i` when the iterator is done. */
  lemma RunEpochsExit(p: Progress, i: nat, st: Settings, o: Oracles)
    requires st.cadence >= 1 && i <= |st.iterEpochs|
    requires i == |st.iterEpochs| || (st.convergence && i > 0 && o.converged(p.errors))
    ensures RunEpochs(p, i, st, o) == (p, Exhausted)
  {
  }

  /** Epoch `i` runs when the iterator yields it, and the loop goes on or ends as it says. */
  lemma RunEpochsStep(p: Progress, i: nat, st: Settings, o: Oracles)
    requires st.cadence >= 1 && i < |st.iterEpochs|
    requires !(st.convergence && i > 0 && o.converged(p.errors))
    ensures var (q, flow) := EpochStep(p, st.iterEpochs[i], st, o);
            RunEpochs(p, i, st, o)
            == match flow
               case Next => RunEpochs(q, i + 1, st, o)
               case Break => (q, Stopped)
               case Abort(err) => (q, Aborted(err))
  {
  }

  /** An epoch after which the loop goes on leaves the rest of the loop to run from the next position. */
  lemma RunEpochsNext(p: Progress, i: nat, st: Settings, o: Oracles, q: Progress)
    requires st.cadence >= 1 && i < |st.iterEpochs|
    requires !(st.convergence && i > 0 && o.converged(p.errors))
    requires EpochStep(p, st.iterEpochs[i], st, o) == (q, Next)
    ensures RunEpochs(p, i, st, o) == RunEpochs(q, i + 1, st, o)
  {
  }

  /** An epoch that ends in a caught stop signal ends the loop there. */
  lemma RunEpochsBreak(p: Progress, i: nat, st: Settings, o: Oracles, q: Progress)
    requires st.cadence >= 1 && i < |st.iterEpochs|
    requires !(st.convergence && i > 0 && o.converged(p.errors))
    requires EpochStep(p, st.iterEpochs[i], st, o) == (q, Break)
    ensures RunEpochs(p, i, st, o) == (q, Stopped)
  {
  }

  /** An epoch that ends in anything but going on ends the loop there. */
  lemma RunEpochsEnds(p: Progress, i: nat, st: Settings, o: Oracles, q: Progress, flow: Flow) returns (end: LoopEnd)
    requires st.cadence >= 1 && i < |st.iterEpochs|
    requires !(st.convergence && i > 0 && o.converged(p.errors))
    requires EpochStep(p, st.iterEpochs[i], st, o) == (q, flow) && flow != Next
    ensures RunEpochs(p, i, st, o) == (q, end)
    ensures end == if flow == Break then Stopped else Aborted(flow.error)
  {
    end := if flow == Break then Stopped else Aborted(flow.error);
  }

  /** A call whose arguments fail a check only empties the `training` dictionary. */
  lemma TrainRejects(net: NetState, cfg: NetConfig, a: TrainArgs, o: Oracles, err: TrainError)
    requires Validate(cfg.showEpoch).Accepted? && CheckTrainArguments(a) == Some(err)
    ensures Train(net, cfg, a, o) == (net.(trainingShowEpoch := None), Failed(err))
  {
  }

  /** A call that passes the checks does not depend on what the `training` dictionary held before. */
  lemma TrainIgnoresShowEpochEntry(net: NetState, cfg: NetConfig, a: TrainArgs, o: Oracles)
    requires Validate(cfg.showEpoch).Accepted? && CheckTrainArguments(a).None?
    ensures Train(net.(trainingShowEpoch := None), cfg, a, o) == Train(net, cfg, a, o)
  {
    var cleared := net.(trainingShowEpoch := None);
    assert SettingsFor(cleared, cfg, a) == SettingsFor(net, cfg, a);
    assert StartProgress(cleared, a) == StartProgress(net, a);
  }

  /** A call whose arguments pass the checks ends as its loop does. */
  lemma TrainConcludesLoop(net: NetState, cfg: NetConfig, a: TrainArgs, o: Oracles, q: Progress, end: LoopEnd)
    requires Validate(cfg.showEpoch).Accepted? && CheckTrainArguments(a).None?
    requires RunEpochs(StartProgress(net, a), 0, SettingsFor(net, cfg, a), o) == (q, end)
    ensures Train(net, cfg, a, o) == Conclude(q, end, SettingsFor(net, cfg, a).cadence, cfg.trainEndSignal)
  {
  }
}
