/** The descriptors behind an OMP-for label (gcc-ompinfo.c:149-216).

    Each label is rendered through a fresh pipe: `pipe` takes two
    descriptors, and when it cannot the process exits. After the flush the
    write end is closed; the read end, as written, never is. The descriptor
    table is abstracted to a count of open descriptors and the process limit;
    the bytes that flow through the pipe are modelled by the label module. */
module Pipes {
  import opened Wrappers

  /** Why a label could not be rendered: `pipe` found fewer than two free
      descriptors, and the plugin calls `exit(1)`. */
  datatype PipeError = OutOfDescriptors

  /** Descriptors left open by one label as written: the read end. */
  const AsWrittenLeak: nat := 1

  /** Descriptors left open by one label when both ends are closed. */
  const ClosedLeak: nat := 0

  /** One label rendered with `open` descriptors in use out of `limit`,
      leaving `leak` of its own two behind. */
  function LabelPipe(leak: nat, open: nat, limit: nat): (r: Result<nat, PipeError>)
    requires leak <= 2
    ensures r.Ok? <==> open + 2 <= limit
    ensures r.Ok? ==> open <= r.value <= limit
  {
    if open + 2 <= limit then Ok(open + leak) else Err(OutOfDescriptors)
  }

  /** `n` labels, one after another, each leaving `leak` descriptors behind. */
  function LabelPipes(leak: nat, open: nat, limit: nat, n: nat): (r: Result<nat, PipeError>)
    requires leak <= 2
    decreases n
  {
    if n == 0 then Ok(open)
    else
      match LabelPipe(leak, open, limit)
      case Err(e) => Err(e)
      case Ok(next) => LabelPipes(leak, next, limit, n - 1)
  }

  /** `n` labels succeed exactly when the last one, which starts with the
      descriptors of the `n - 1` before it still open, finds two free; they
      leave `n * leak` more open than before. */
  lemma {:induction false} LabelPipesOutcome(leak: nat, open: nat, limit: nat, n: nat)
    requires leak <= 2
    ensures LabelPipes(leak, open, limit, n).Ok? <==> n == 0 || open + (n - 1) * leak + 2 <= limit
    ensures LabelPipes(leak, open, limit, n).Ok? ==> LabelPipes(leak, open, limit, n).value == open + n * leak
    decreases n
  {
    if n > 0 {
      if open + 2 <= limit {
        LabelPipesOutcome(leak, open + leak, limit, n - 1);
        if n > 1 {
          assert open + leak + (n - 2) * leak == open + (n - 1) * leak;
        }
        assert open + leak + (n - 1) * leak == open + n * leak;
      } else {
        assert (n - 1) * leak >= 0;
      }
    }
  }

  /** As written, every label alone would find its two descriptors, yet a
      unit with `limit - open` OMP-for loops runs out of them and exits: the
      read ends pile up. With three standard descriptors and a limit of 1024
      that is 1021 loops. */
  lemma AsWrittenExhausts(open: nat, limit: nat)
    requires open + 2 <= limit
    ensures LabelPipe(AsWrittenLeak, open, limit).Ok?
    ensures LabelPipes(AsWrittenLeak, open, limit, limit - open).Err?
  {
    LabelPipesOutcome(AsWrittenLeak, open, limit, limit - open);
  }

  /** The concrete case: 3 descriptors open, a limit of 1024. */
  lemma AsWrittenExhaustsAt1021()
    ensures LabelPipes(AsWrittenLeak, 3, 1024, 1020).Ok?
    ensures LabelPipes(AsWrittenLeak, 3, 1024, 1021).Err?
  {
    LabelPipesOutcome(AsWrittenLeak, 3, 1024, 1020);
    LabelPipesOutcome(AsWrittenLeak, 3, 1024, 1021);
  }

  /** Closing the read end once the label is read keeps the count constant:
      any number of labels succeeds whenever one does, and leaves the count
      where it was. */
  lemma {:induction false} ClosedNeverExhausts(open: nat, limit: nat, n: nat)
    ensures LabelPipes(ClosedLeak, open, limit, n).Ok? <==> n == 0 || open + 2 <= limit
    ensures LabelPipes(ClosedLeak, open, limit, n).Ok? ==> LabelPipes(ClosedLeak, open, limit, n).value == open
  {
    LabelPipesOutcome(ClosedLeak, open, limit, n);
  }
}
