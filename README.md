# neupy `BaseNetwork.train`, modelled in Dafny

This project models the training loop of neupy's `BaseNetwork`
(`neupy/network/base.py`) and the small helpers that loop relies on:

- the `show_epoch` option. This covers its validation when it is assigned
  (`ShowEpochProperty.validate`) and its conversion into a reporting cadence
  (`parse_show_epoch_property`). The module is `ShowEpoch`. The Python
  string operations it uses are in `Strings`: `in`, `index`, `endswith`,
  `strip`, `isdigit` and `int`;
- the fixed-length epoch iterator (`create_training_epochs_iterator`), in
  module `Epochs`;
- error values and the error history list (`is_valid_error_value`,
  `ErrorHistoryList.last`, `previous` and `normalized`), in
  `ErrorHistory`;
- `shuffle` of the network utilities, specified abstractly. It applies one
  permutation to the inputs and the targets alike, and refuses arrays with
  differing row counts. The module is `Shuffling`;
- `BaseNetwork.train` itself, twice:
  - `TrainingLoop.Train` is a functional reference model. It covers the
    argument checks, the configuration, the epoch loop and the finalisation;
  - `Network.BaseNetwork` is a class whose fields `train` updates in place:
    `last_epoch`, the two histories, the `training` dictionary's
    `show_epoch`, and a ghost trace of reports. Its method `Train` runs the
    same steps with a `while` loop and is proved equal to the functional
    model.

`TrainingProperties` proves what a call does in terms of the functional
model:

- when a call refuses to start;
- what a fixed-length run records and reports;
- where a stop signal ends a run;
- what a failed shuffle, or any other exception a collaborator raises,
  leaves behind;
- that every call that does not raise calls `summary.finish()` once,
  and last.

Its hypotheses about the collaborators are stated on the values a run
actually passes them: the data each epoch trains on, and the histories the
signal sees after that epoch was recorded (`ProceedsThrough`, `StopsAt`).

Some collaborators' code lies outside `base.py`. They are parameters
(`TrainingLoop.Oracles`):

- the network's `train_epoch` and `prediction_error`. Each returns an
  error value, raises `StopNetworkTraining`, or raises any other exception;
- the random numbers `shuffle` draws;
- the convergence test of the epsilon-mode iterator.

The `epoch_end_signal` and `train_end_signal` callbacks are options of the
network (`TrainingLoop.NetConfig`). Each may return, raise
`StopNetworkTraining`, or raise anything else. Only the loop catches
`StopNetworkTraining`. Any other exception, and a `StopNetworkTraining`
from `train_end_signal`, escapes `train` (`CallbackRaised`).

The summary object's `show_last` and `finish`, and the `epoch_end_signal`
and `train_end_signal` calls, are events in traces.

Python 3 semantics are modelled:

- `round` rounds half to even;
- `str.strip` removes the characters that Python 3's `str.isspace` accepts;
- `/` is true division (the module imports `division`).

Where the documentation and the code disagree, the model follows the code:

- The docstring of `BaseNetwork` gives `True` as the default of
  `shuffle_data`. The code's default is `False` (`neupy/network/base.py:276`),
  and so is the model's constructor.
- The docstring of `previous` says it returns the last element. The code
  returns the second-to-last one, and the model does the same.
- The `show_epoch` string check is case-sensitive. `"3 Times"` is refused
  because it does not contain `time` (`ShowEpoch.TimeWordIsCaseSensitive`).

## Model

| member | source | states |
|---|---|---|
| ShowEpoch.Validate | neupy/network/base.py:149-177 | An integer is accepted iff it is at least 1. An accepted string contains "time" and ends in "time" or "times". A string without "time" is refused with the missing-word error. |
| ShowEpoch.WellFormedIsAccepted | neupy/network/base.py:158-177 | A string that reads whitespace, digits of non-zero value, whitespace, then "time", and ends in "time"/"times", is accepted. Its count is the value of those digits. |
| ShowEpoch.AcceptedIsWellFormed | neupy/network/base.py:158-177 | Conversely, every accepted string has that shape (the digits split at the first "time"). Its count is the value of the digit span. |
| ShowEpoch.FormatTimesRoundTrip | neupy/network/base.py:158-177 | For every n ≥ 1, `str(n) + " times"` and `str(n) + " time"` are accepted, and their count is n. |
| ShowEpoch.ZeroCountRejected | neupy/network/base.py:174-177 | A well-ended digit string is refused for its value exactly when all its digits are zeros. |
| ShowEpoch.TimeWordIsCaseSensitive | neupy/network/base.py:158-160 | `"3 Times"` is refused with the missing-word error. |
| ShowEpoch.ShowTimes | neupy/network/base.py:174-177 | The count N of an accepted string is at least 1. |
| ShowEpoch.RoundHalfEven | neupy/network/base.py:125 | The result is the integer nearest to a / b. On a tie it is the even one. |
| ShowEpoch.RoundedQuotientUnique | neupy/network/base.py:125 | The nearest-integer, ties-to-even property determines the rounded quotient uniquely. |
| ShowEpoch.ParseShowEpoch | neupy/network/base.py:106-125 | The cadence is always at least 1. An integer option is returned unchanged. A string option gives 1 in epsilon mode. Otherwise a string gives 1 when the epoch count is at most N, and else the rounded quotient of epochs by N. |
| ShowEpoch.ThreeTimesCadence | neupy/network/base.py:117-125 | "3 times" gives cadence 10 over 30 epochs, 1 over 2 epochs, and 1 in epsilon mode. |
| ShowEpoch.TieRoundsDownToEven | neupy/network/base.py:125 | "4 times" over 10 epochs gives 2, not 3. |
| ShowEpoch.TieRoundsUpToEven | neupy/network/base.py:125 | "2 times" over 7 epochs gives 4. |
| ShowEpoch.PeriodCadence | neupy/network/base.py:109-110 | The integer 5 is the cadence whatever the epoch count, in fixed-length and in epsilon mode. |
| ShowEpoch.NumberPart | neupy/network/base.py:163-164 | The text before "time" exists iff the string contains "time". |
| Strings.IndexOf | neupy/network/base.py:163 | `s.index(pat)` fails iff `pat` does not occur in `s`. Otherwise it is the first position where `pat` occurs. |
| Strings.Strip | neupy/network/base.py:164 | Stripping an all-whitespace string gives the empty string. A non-empty result starts and ends with non-whitespace. |
| Strings.StripSpan | neupy/network/base.py:164 | Stripping a string removes exactly the whitespace around a span that starts and ends with non-whitespace. |
| Strings.StripShape | neupy/network/base.py:164 | What stripping leaves is a span with only whitespace before and after it. |
| Strings.DigitsRoundTrip | neupy/network/base.py:120 | `int(str(n)) == n` for every natural number n. |
| Strings.DigitsValuePositive | neupy/network/base.py:174 | A digit string's value is at least 1 iff one of its digits is not zero. |
| Epochs.FixedEpochs | neupy/network/base.py:128-133 | A fixed-length run goes through exactly `epochs` numbers (none when `epochs` ≤ 0). The k-th number is `last_epoch + 1 + k`. |
| Epochs.FixedEpochsIncreasing | neupy/network/base.py:132-133 | The epoch numbers are strictly increasing. |
| Epochs.FixedEpochsResume | neupy/network/base.py:132-133 | A run that starts where a previous run ended continues the numbering. Together the two runs go through the numbers of one longer run. |
| Epochs.FixedEpochsPrefix | neupy/network/base.py:132-133 | The first m numbers of a run are the numbers of an m-epoch run. |
| Epochs.FixedEpochsExample | neupy/network/base.py:132-133 | After epoch 5, a 3-epoch run goes through 6, 7 and 8. |
| ErrorHistory.ValidIsNotAllNaN | neupy/network/base.py:180-191 | `IsValidErrorValue` holds iff the value is not `None` and not every cell is NaN. So an empty array is invalid, as `np.all` of an empty array is true. |
| ErrorHistory.Last | neupy/network/base.py:198-203 | `last` returns a value iff the list is non-empty and its final entry is valid. That value is the normalised final entry. |
| ErrorHistory.Previous | neupy/network/base.py:205-210 | `previous` returns a value iff the list has at least two entries and the second-to-last is valid. That value is the normalised second-to-last entry. |
| ErrorHistory.Normalized | neupy/network/base.py:212-225 | The list is kept as it is when it is empty or starts with a float. Otherwise every entry is normalised. The length never changes. |
| ErrorHistory.LastAfterAppend | neupy/network/base.py:198-203 | After an append, `last` depends only on the appended value. |
| ErrorHistory.PreviousAfterAppend | neupy/network/base.py:198-210 | After an append, `previous` is what `last` was before it. |
| ErrorHistory.PreviousDoesNotSearchBack | neupy/network/base.py:205-210 | An invalid second-to-last entry makes `previous` return nothing, even when earlier entries are valid. |
| ErrorHistory.PlaceholderIsNoValue | neupy/network/base.py:191 | The NaN placeholder is never valid, so `last` does not report it. |
| ErrorHistory.NormalizedIdempotent | neupy/network/base.py:212-225 | Normalising twice equals normalising once, when the normaliser produces floats. |
| Shuffling.PermuteTogether | neupy/network/base.py:408-410 | Both sequences are permuted, and their pairs stay together: the pairs after are a permutation of the pairs before. |
| Shuffling.Shuffle | tests/core/test_utils.py:45-53 | `shuffle` fails iff there are targets with a different row count from the inputs. Otherwise it keeps feature shapes and row counts, permutes rows, and keeps input/target rows paired. A missing target stays missing. |
| Shuffling.ShuffleSameArrays | tests/core/test_utils.py:46-48 | Shuffling an array together with itself gives two equal arrays. |
| Shuffling.PermuteSelf | tests/core/test_utils.py:46-48 | Permuting a sequence together with itself gives two equal sequences. |
| TrainingLoop.CheckTrainArguments | neupy/network/base.py:349-379 | The checks pass iff all of these hold: epochs > 0; epochs > 2 when epsilon is given; the summary type is "table" or "inline"; in table mode the train and test feature shapes match. The checks run in the source's order: non-positive epochs is reported first, and the shape error only in table mode. |
| TrainingLoop.EpochBody | neupy/network/base.py:411-438 | Reference definition of the `try` block, with no contract of its own. `EpochBodyExtends`, `BodyThatProceeds` and `BodyThatStops` state what it does. |
| TrainingLoop.EpochStep | neupy/network/base.py:403-438 | Reference definition of one pass of the `for` loop, with no contract of its own. It starts from `Started` (`last_epoch` set, then the shuffle), which the hypotheses of `TrainingProperties` also use. `EpochStepExtends`, `EpochThatProceeds`, `EpochThatStops` and `ShuffleFailureEscapes` state what it does. |
| TrainingProperties.EpochStepExtends | neupy/network/base.py:403-438 | Any pass, whatever the collaborators do, sets `last_epoch` to the epoch. It records nothing, or one entry in each history after the old ones. It only appends per-epoch reports. |
| TrainingLoop.RunEpochs | neupy/network/base.py:403-438 | Reference definition of the `for` loop, with no contract of its own. `RunEpochsGrows`, `RunEpochsReports`, `RunEpochsLastEpoch`, `LoopRunsOut` and `LoopStopsAt` state what it does. |
| TrainingLoop.FinalEvents | neupy/network/base.py:440-446 | After the loop: a `show_last` iff the last epoch was not shown, `train_end_signal` iff it is set, and `summary.finish()` iff `train_end_signal` returned. |
| TrainingLoop.Conclude | neupy/network/base.py:403-446 | Finishing a call keeps the loop's `last_epoch` and histories, and sets `training.show_epoch` to the cadence. The call fails iff the loop aborted or `train_end_signal` raised. Otherwise it is stopped iff the loop broke on a stop, at `last_epoch`. |
| TrainingLoop.Train | neupy/network/base.py:328-449 | Reference definition of `BaseNetwork.train`, with no contract of its own. `Network.BaseNetwork.Train` is proved equal to it, and `TrainingProperties` states what it does. |
| TrainingLoop.TrainIgnoresShowEpochEntry | neupy/network/base.py:347-383 | The `training` dictionary is rebuilt by every call, so what it held before does not affect a call that passes the checks. |
| Network.BaseNetwork.constructor | neupy/network/base.py:281-285 | A new network has `last_epoch` 0, empty histories, an empty `training` dictionary, and the option defaults: `show_epoch` 1 and `shuffle_data` False. Its `show_epoch` is valid. |
| Network.BaseNetwork.SetShowEpoch | neupy/network/base.py:149-177 | Assigning `show_epoch` validates the value. The field changes only when the value is accepted, so the option stays valid. |
| Network.BaseNetwork.OnEpochStartUpdate | neupy/network/base.py:311-320 | `last_epoch` becomes the epoch being processed. |
| Network.BaseNetwork.TryEpoch | neupy/network/base.py:411-438 | The `try` block changes the histories, the trace and the loop locals exactly as the reference `EpochBody` says. |
| Network.BaseNetwork.RunEpoch | neupy/network/base.py:403-438 | One pass sets `last_epoch` to the epoch, and changes the data and the state exactly as the reference `EpochStep` says. |
| Network.BaseNetwork.RunEpochs | neupy/network/base.py:398-438 | The `for` loop ends in the state, and the way, given by the reference `RunEpochs` from the network's state before it. The final loop variable equals `last_epoch`. |
| Network.BaseNetwork.Finalize | neupy/network/base.py:440-446 | After the loop the trace gains, in order: a `show_last` if the last epoch was not shown, `train_end_signal` if set, and `summary.finish()` unless `train_end_signal` raised. It tells whether the signal returned. |
| Network.BaseNetwork.RunAndFinish | neupy/network/base.py:398-446 | The loop plus finalisation leave the network exactly as the reference `Conclude` of the reference loop says. |
| Network.BaseNetwork.Train | neupy/network/base.py:328-449 | The new state of the network and the call's outcome equal those of the functional model `TrainingLoop.Train` applied to the old state. The options are unchanged and stay valid. |
| Network.BaseNetwork.TrainChecked | neupy/network/base.py:381-449 | For arguments that pass the checks, sets up the epochs and cadence, runs the loop and finishes; the new state and outcome are those of `TrainingLoop.Train`. |
| TrainingProperties.ValidationEntriesWithoutTest | neupy/network/base.py:404 | Without test data every validation entry is NaN. |
| TrainingProperties.LoopEventsShows | neupy/network/base.py:424-426 | During the loop, `show_last` reports epoch e iff e is processed and is the first processed epoch or a multiple of the cadence. |
| TrainingProperties.LoopEventsOnlyEpochReports | neupy/network/base.py:424-429 | The loop's reports are only `show_last` and `epoch_end_signal` calls. |
| TrainingProperties.EpochThatProceeds | neupy/network/base.py:403-431 | An epoch in which nothing raises, on the data it actually trains on, sets `last_epoch` and appends one entry to each history. The training entry is `train_epoch`'s error on the (shuffled) data the epoch started from, and that data is carried on. It reports as the cadence says, then signals. It clears `is_first_iteration`, and moves `last_epoch_shown` iff the epoch was shown. |
| TrainingProperties.EpochThatStops | neupy/network/base.py:411-438 | An epoch whose first exception is StopNetworkTraining breaks the loop after setting `last_epoch`. Its entries and reports appear iff both errors were computed, that is iff the raise came from `epoch_end_signal`. A raise from `train_epoch` or `prediction_error` leaves the histories and trace untouched. |
| TrainingProperties.LoopRunsOut | neupy/network/base.py:398-438 | A loop in which nothing raises, each epoch judged in the state the earlier ones left, goes through every epoch number and ends at the last. Each history gains one entry per epoch, in epoch order. The training entries are exactly `TrainEntriesFrom`, each epoch's error on the data it trained on, shuffled or not. The validation entries are exactly `ValidationEntries`. The trace gains each epoch's reports. |
| TrainingProperties.LoopBeforeStop | neupy/network/base.py:403-431 | Up to the first epoch in which something raises, all earlier epochs are recorded and reported in order. Their training entries are exactly `TrainEntriesFrom` and their validation entries exactly `ValidationEntries`. `last_epoch_shown` stays below that epoch. |
| TrainingProperties.TrainEntriesFromAt | neupy/network/base.py:403-418 | The training entry of the epoch at position j is `train_epoch`'s error for that epoch, on the data its `try` block started from (shuffled when shuffling is on), in the state the epochs before it left. |
| TrainingProperties.TrainEntriesFromThrough | neupy/network/base.py:403-431 | Through epochs in which nothing raises, the training history gains exactly `TrainEntriesFrom`, after the entries it had. |
| TrainingProperties.LoopStopsAt | neupy/network/base.py:403-438 | A loop whose first exception is StopNetworkTraining, at position m, breaks there with `last_epoch` at that epoch. The entries and reports of the earlier epochs are all kept, the training entries as `TrainEntriesFrom` gives them. Those of epoch m are kept iff both its errors were computed; its training entry is then `train_epoch`'s error on the data that epoch started from. |
| TrainingProperties.RunEpochsGrows | neupy/network/base.py:418-419 | Whatever the collaborators do, the loop only appends to the histories, the same number of entries to each. |
| TrainingProperties.RunEpochsReports | neupy/network/base.py:424-429 | Whatever the collaborators do, the loop only appends to the reports, and only per-epoch reports. |
| TrainingProperties.RunEpochsLastEpoch | neupy/network/base.py:403-406 | A loop that starts an epoch ends with `last_epoch` at the last epoch started. It has recorded at most one entry per epoch started. |
| TrainingProperties.FixedRunCompletes | neupy/network/base.py:381-446 | A fixed-length call in which nothing raises in any epoch (with data that `shuffle` accepts) completes, unless `train_end_signal` raises, and then fails. `last_epoch` advances by `epochs`. Each history gains exactly `epochs` entries in epoch order. The training entries are `TrainEntriesFrom`, each epoch's error on the data it trained on; without shuffling, that is the given data. `training.show_epoch` is the cadence. |
| TrainingProperties.FixedRunReports | neupy/network/base.py:403-446 | The reports of such a call: each epoch's reports, then one more `show_last` unless the last epoch was shown, then `train_end_signal` if set, then `summary.finish()` unless `train_end_signal` raised. |
| TrainingProperties.FixedRunWithoutTestData | neupy/network/base.py:399-419 | Such a call without test data appends exactly `epochs` validation entries, all NaN. |
| TrainingProperties.FixedLoopStops | neupy/network/base.py:403-438 | In a fixed-length call whose first exception is StopNetworkTraining, at epoch k, the loop ends at k. Before k, each epoch is recorded, its training entry as `TrainEntriesFrom` gives it, and reported. |
| TrainingProperties.StopEndsRun | neupy/network/base.py:403-446 | A fixed-length call whose first exception is StopNetworkTraining, at epoch k, ends with `last_epoch == k`, and with outcome "stopped at k" unless `train_end_signal` raises. No later epoch runs. The training entries before k are `TrainEntriesFrom`. The entries of epoch k appear iff `epoch_end_signal` raised. Finalisation still happens: the final `show_last` iff k was not shown, then `train_end_signal`, then `finish` unless that raised. |
| TrainingProperties.RejectedBeforeAnyEpoch | neupy/network/base.py:347-379 | Non-positive epochs, too few epochs for epsilon mode, an unknown summary type, or a train/test shape mismatch in table mode (the check at lines 92-94) each raise before any epoch. `last_epoch`, the histories and the reports are unchanged. The error is the first failing check's. |
| TrainingProperties.ArgumentErrorsOnlyFromChecks | neupy/network/base.py:349-446 | A call raises one of `train`'s own ValueErrors iff its arguments fail a check. Whatever escapes later is `shuffle`'s error or a collaborator's exception. |
| TrainingProperties.ShuffleFailureEscapes | neupy/network/base.py:406-410 | With shuffling on and mismatched row counts, `shuffle`'s error escapes the first epoch. `last_epoch` has moved on by one. Nothing is recorded and nothing is reported, not even `finish`. |
| TrainingProperties.TrainEpochRaiseEscapes | neupy/network/base.py:411-438 | When `train_epoch` raises anything but StopNetworkTraining in the first epoch, the exception escapes. `last_epoch` has moved on by one. Nothing is recorded and nothing is reported, not even `finish`. |
| TrainingProperties.LoopErrorsNotArguments | neupy/network/base.py:403-438 | What escapes the loop is never one of `train`'s own argument errors. |
| TrainingProperties.EarlyStoppingFirstStop | neupy/network/base.py:411-438 | A 5-epoch call on a fresh network, whose `epoch_end_signal` stops once two errors are recorded, meets the hypothesis of `StopEndsRun` for epoch 2. Epoch 1 raises nothing, and the signal raises after epoch 2 is recorded. |
| TrainingProperties.EarlyStoppingExample | neupy/network/base.py:403-446 | That call stops at epoch 2. Both epochs' errors are recorded and both epochs are reported, then `finish`. |
| TrainingProperties.ConcludeFinishesOnce | neupy/network/base.py:440-446 | A loop that only reported epochs is followed by exactly one `finish`, as the last report, and by one `train_end_signal` if set, unless something raised. After an escaping exception there is no `finish`, and at most one `train_end_signal`. |
| TrainingProperties.FinishesOnce | neupy/network/base.py:440-446 | Every call only adds to the reports. A call that does not raise calls `train_end_signal` (when set) and `summary.finish()` exactly once each, `finish` last. A call that raises never calls `finish`. It calls `train_end_signal` at most once, and only if set. |
| TrainingProperties.EpochCounterRange | neupy/network/base.py:403-406 | In either mode, a call that passes the checks moves `last_epoch` forward by at least 1 and at most `epochs`. It records at most one entry per epoch run, in both histories alike, after the existing entries. |

## Left out

- Console output is not modelled: `show_network_options`, the logging in `logging_info_about_the_data` and `logging_info_about_training`, and every `logs.*` call, including the message on a caught stop. The one exception is the feature-shape check at lines 92-94.
- `logs.disable_user_input` is not modelled, because it is terminal I/O.
- The summary objects are not modelled: the internals of `SummaryTable` and `InlineSummary`, `table.TableBuilder`, and the table's delay throttle. Their code is not part of this model. Their `show_last` and `finish` appear only as trace events.
- `time.time()` and `training.epoch_time` are not modelled, because they are wall-clock values.
- `iter_until_converge` is not part of this model. In epsilon mode the loop goes through the same numbers as a fixed-length run. Before every epoch but the first, a convergence oracle may end it. Its real stopping rule is not modelled.
- `shuffle`, `normalize_error` and `StopNetworkTraining` live in `neupy/network/utils.py`, which is not part of this model:
  - `shuffle` is specified by its test, as a permutation applied to both arrays. A missing target is taken to stay missing. `shuffle()` with no arguments is never called by `train` and is left out;
  - `normalize_error` is a function parameter.
- `train_epoch`, `prediction_error` and `predict` are abstract in the source. The first two are oracles; `predict` is not used by `train`.
- `epoch_end_signal(self)` receives the whole network in the source. In the model the callback sees the epoch and both error histories. Side effects of callbacks on the network are not modelled.
- `errors` and `train_errors` are the same list; the model has one field. Aliasing of the histories by other objects is not modelled.
- The option machinery is not modelled: `NumberProperty`, `Property` type checks, `expected_type`, and `bool` passing as `int`. `Network.BaseNetwork.SetShowEpoch` models only `ShowEpochProperty.validate`.
- Only the ASCII digits `0`-`9` are modelled. The model's format check refuses every other character, for example:
  - `str.isdigit` also accepts other Unicode digits, and `int()` converts the decimal ones among them. So a string like "٣ times", with an Arabic-Indic digit, is accepted by the source and refused by the model;
  - superscript and other non-decimal digits pass `isdigit`, and then `int()` refuses them with its own ValueError. So "²time" is refused by both, but at a different step and with a different error.
- Floating point is not modelled:
  - error values are reals or NaN;
  - infinities are not distinguished;
  - `round(n_epochs / N)` is computed exactly on integers, so the rounding error of float division of very large counts is not modelled;
  - Python 2's rounding (half away from zero) is not modelled; Python 3's half-to-even is.
- The property that two successive calls number their epochs as one longer call is not stated for `train` as a whole. It follows from `TrainingProperties.FixedRunCompletes` (the second call starts at the first call's final `last_epoch`) together with `Epochs.FixedEpochsResume`.
- TrainingProperties.StopEndsRun: assumes a non-negative epoch counter (`last_epoch` starts at 0 and only grows), which the source does not check.
- TrainingProperties.FixedLoopStops: assumes a non-negative epoch counter, as `StopEndsRun` does.
- Exceptions other than `StopNetworkTraining` and `shuffle`'s ValueError are one outcome, `CallbackRaised`. Which exception it was, and its message, are not modelled.
- A callback that never returns, and a `train_epoch` that never returns, are not modelled. Every collaborator call returns a value or raises.
