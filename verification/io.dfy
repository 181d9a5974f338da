/** Abstract outcomes of the operating-system calls a transport makes, and the
    copy loop every transport runs over them. */
module Io {

  /** What one open, connect or write call did: returned, or threw with a message. */
  datatype Status = Ok | Throws(message: string)

  /** One pass of a copy loop: it transferred `count` bytes, or threw. */
  datatype Step = Done(count: int) | Failed(message: string)

  /** A write call that transfers `count` bytes when it returns. */
  function StepOf(s: Status, count: int): Step {
    match s
    case Ok => Done(count)
    case Throws(m) => Failed(m)
  }

  /** How a `for (i = 0; i < copies; i++)` loop over the steps ended. */
  datatype LoopEnd = Completed(total: int) | Interrupted(at: nat, message: string)

  ghost predicate AllDone(step: nat -> Step, lo: nat, hi: int) {
    forall i: nat :: lo <= i < hi ==> step(i).Done?
  }

  /** Bytes transferred by the steps `lo .. hi-1`. */
  function Sum(step: nat -> Step, lo: nat, hi: int): int
    decreases hi - lo
  {
    if hi <= lo then 0
    else (match step(lo) case Done(n) => n case Failed(_) => 0) + Sum(step, lo + 1, hi)
  }

  /** The loop from index `i` on, with `total` bytes accumulated so far. */
  function CopyLoop(step: nat -> Step, copies: int, i: nat, total: int): (e: LoopEnd)
    ensures e.Completed? <==> AllDone(step, i, copies)
    ensures e.Completed? ==> e.total == total + Sum(step, i, copies)
    ensures e.Interrupted? ==>
              && i <= e.at < copies
              && AllDone(step, i, e.at)
              && step(e.at) == Failed(e.message)
    decreases copies - i
  {
    if i >= copies then Completed(total)
    else match step(i)
      case Done(n) => CopyLoop(step, copies, i + 1, total + n)
      case Failed(m) => Interrupted(i, m)
  }

  /** The whole copy loop: `copies` passes, none when `copies <= 0`. */
  function Copies(step: nat -> Step, copies: int): LoopEnd {
    CopyLoop(step, copies, 0, 0)
  }

  /** When every pass transfers the same `n` bytes, the total is `n` per pass. */
  lemma {:induction false} SumOfConstant(step: nat -> Step, lo: nat, hi: int, n: int)
    requires forall i: nat :: lo <= i < hi ==> step(i) == Done(n)
    ensures Sum(step, lo, hi) == if hi <= lo then 0 else (hi - lo) * n
    decreases hi - lo
  {
    if lo < hi {
      SumOfConstant(step, lo + 1, hi, n);
    }
  }

  /** A loop of constant-size writes accumulates `n` bytes per copy. */
  lemma ConstantCopies(writes: nat -> Status, copies: int, n: int)
    requires forall i: nat :: i < copies ==> writes(i) == Ok
    ensures Copies((i: nat) => StepOf(writes(i), n), copies)
            == Completed(if copies <= 0 then 0 else copies * n)
  {
    var step := (i: nat) => StepOf(writes(i), n);
    SumOfConstant(step, 0, copies, n);
  }

  // ---------------------------------------------------------------------------
  // 32-bit integers

  const Int32Min: int := -0x8000_0000
  const Int32Max: int := 0x7FFF_FFFF

  /** An `int` expression evaluated in C#'s unchecked 32-bit arithmetic. */
  function Int32(x: int): (r: int)
    ensures Int32Min <= r <= Int32Max
    ensures Int32Min <= x <= Int32Max ==> r == x
    ensures (r - x) % 0x1_0000_0000 == 0
  {
    (x - Int32Min) % 0x1_0000_0000 + Int32Min
  }
}
