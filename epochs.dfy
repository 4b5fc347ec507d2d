/** The epoch numbers a fixed-length training run goes through (`create_training_epochs_iterator`). */
module Epochs {

  /** Python's `range(lastEpoch + 1, lastEpoch + 1 + epochs)`. */
  function FixedEpochs(lastEpoch: int, epochs: int): (r: seq<int>)
    decreases epochs
    ensures |r| == if epochs > 0 then epochs else 0
    ensures forall k :: 0 <= k < |r| ==> r[k] == lastEpoch + 1 + k
  {
    if epochs <= 0 then [] else FixedEpochs(lastEpoch, epochs - 1) + [lastEpoch + epochs]
  }

  /** The numbers are strictly increasing. */
  lemma FixedEpochsIncreasing(lastEpoch: int, epochs: int)
    ensures var r := FixedEpochs(lastEpoch, epochs);
            forall k, m :: 0 <= k < m < |r| ==> r[k] < r[m]
  {
  }

  /**
   * A second run that starts where the first one ended continues the numbering:
   * the two runs together go through the same epochs as one longer run.
   */
  lemma {:induction false} FixedEpochsResume(lastEpoch: int, first: nat, second: nat)
    ensures FixedEpochs(lastEpoch, first) + FixedEpochs(lastEpoch + first, second)
            == FixedEpochs(lastEpoch, first + second)
  {
    var a, b := FixedEpochs(lastEpoch, first), FixedEpochs(lastEpoch + first, second);
    var c := FixedEpochs(lastEpoch, first + second);
    assert |a + b| == |c|;
    forall k | 0 <= k < |c| ensures (a + b)[k] == c[k] {
      if k >= first {
        assert (a + b)[k] == b[k - first];
      }
    }
  }

  /** The first `m` numbers of a run are the numbers of a run of `m` epochs. */
  lemma FixedEpochsPrefix(lastEpoch: int, epochs: int, m: nat)
    requires m <= epochs
    ensures FixedEpochs(lastEpoch, epochs)[..m] == FixedEpochs(lastEpoch, m)
  {
  }

  lemma FixedEpochsExample()
    ensures FixedEpochs(5, 3) == [6, 7, 8]
  {
  }
}
