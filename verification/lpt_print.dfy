/** `LPTPrint.Print`: check the parallel port name, open the device, write the
    ASCII-encoded command `copies` times and release stream and handle. */
module LptPrint {

  import opened Wrappers
  import opened Text
  import opened Io
  import opened Results
  import opened Settings
  import Localization

  /** What the device does when asked: whether `new FileStream(handle, ...)`
      accepts the handle `CreateFile` returned, how the i-th `Write` ends, and
      how the stream's one `Close` ends. The stream buffers, so a device error
      may surface only when `Close` flushes; `Close` releases the wrapped
      handle even then. */
  datatype LptIo = LptIo(streamOpens: bool, writes: nat -> Status, close: Status)

  /** The handle and the stream over it: created, opened, and released. */
  datatype LptTrace = LptTrace(handleCreated: bool, streamOpened: bool,
                               streamClosed: bool, handleReleased: bool)

  const Untouched: LptTrace := LptTrace(false, false, false, false)

  const WriteFailurePrefix: string :=
    Localization.PrintError + ". " + Localization.ErrorMessage + ": "

  /** `string.Format("{0}. {1}: {2}", PrintError, ErrorMessage, ex.Message)`. */
  function WriteFailureMessage(exceptionMessage: string): string {
    WriteFailurePrefix + exceptionMessage
  }

  /** At least three characters, the first three upper-cased spelling "LPT". */
  predicate ValidPortName(name: string) {
    |name| >= 3 && ToUpper(name)[..3] == "LPT"
  }

  /** The name check ignores case and looks at nothing past the third character. */
  lemma ValidPortNameIff(name: string)
    ensures ValidPortName(name) <==>
              && |name| >= 3
              && name[0] in "Ll" && name[1] in "Pp" && name[2] in "Tt"
  {
    if |name| >= 3 {
      var u := ToUpper(name)[..3];
      assert u == [UpperChar(name[0]), UpperChar(name[1]), UpperChar(name[2])];
    }
  }

  /** The overload taking a port name and a copy count (default 1). A null
      port name fails on `portName.Length`, before the `try`. */
  function Print(commands: string, portName: Option<string>, copies: int, io: LptIo): (r: Run<LptTrace>)
    ensures portName.None? ==> r == Run(Raised(NullReference), Untouched)
    // the name is checked before any handle exists
    ensures portName.Some? && !ValidPortName(portName.value) ==>
              r == Run(Returned(Failure(Localization.InvalidLptPortName)), Untouched)
    ensures portName.Some? && ValidPortName(portName.value) ==> r.resources.handleCreated
    // `Close` runs outside any `try`, both after the writes and in the catch:
    // an exception from its flush escapes
    ensures portName.Some? && ValidPortName(portName.value) ==>
              (r.outcome.Raised? <==> io.streamOpens && io.close.Throws?)
    ensures r.outcome.Raised? && portName.Some? ==> r.outcome == Raised(Thrown(io.close.message))
    // a stream that cannot be opened: handle disposed, connection failure, nothing sent
    ensures portName.Some? && ValidPortName(portName.value) && !io.streamOpens ==>
              r == Run(Returned(Failure(Localization.ZebraConnectionFailed)), LptTrace(true, false, false, true))
    // a failing write: everything released, the error text reported, no bytes counted
    ensures portName.Some? && ValidPortName(portName.value) && io.streamOpens && io.close.Ok?
            && !(forall i: nat :: i < copies ==> io.writes(i).Ok?) ==>
              exists i: nat :: i < copies && io.writes(i).Throws?
                               && (forall j: nat :: j < i ==> io.writes(j).Ok?)
                               && r.FailedWith(WriteFailureMessage(io.writes(i).message))
    // success: ASCII length times copies, in 32-bit arithmetic
    ensures r.Succeeded() <==>
              portName.Some? && ValidPortName(portName.value) && io.streamOpens && io.close.Ok?
              && forall i: nat :: i < copies ==> io.writes(i).Ok?
    ensures r.Succeeded() ==>
              r.outcome.value == PrintResult(true, "", Int32(AsciiByteCount(commands) * copies))
    // whatever was acquired is released
    ensures r.resources.streamOpened ==> r.resources.streamClosed
    ensures r.resources.handleCreated ==> r.resources.handleReleased
  {
    match portName
    case None => Run(Raised(NullReference), Untouched)
    case Some(name) =>
      if !ValidPortName(name) then
        Run(Returned(Failure(Localization.InvalidLptPortName)), Untouched)
      else if !io.streamOpens then
        Run(Returned(Failure(Localization.ZebraConnectionFailed)), LptTrace(true, false, false, true))
      else
        var released := LptTrace(true, true, true, true);
        if io.close.Throws? then
          // whichever `Close` runs, the other outcomes are overtaken by its exception
          Run(Raised(Thrown(io.close.message)), released)
        else
          var step := (i: nat) => StepOf(io.writes(i), AsciiByteCount(commands));
          match Copies(step, copies)
          case Interrupted(at, m) =>
            assert io.writes(at).Throws? && forall j: nat :: j < at ==> io.writes(j).Ok? by {
              forall j: nat | j < at ensures io.writes(j).Ok? {
                assert step(j).Done?;
              }
            }
            Run(Returned(Failure(WriteFailureMessage(m))), released)
          case Completed(_) =>
            assert forall i: nat :: i < copies ==> io.writes(i).Ok? by {
              forall i: nat | i < copies ensures io.writes(i).Ok? {
                assert step(i).Done?;
              }
            }
            Run(Returned(PrintResult(true, "", Int32(AsciiByteCount(commands) * copies))), released)
  }

  /** A port that accepts every write of a short label can still fail when
      the buffered bytes are flushed: the exception escapes `Print`. */
  lemma FlushFailureEscapes(commands: string, name: string, copies: int, io: LptIo)
    requires ValidPortName(name) && io.streamOpens
    requires forall i: nat :: i < copies ==> io.writes(i).Ok?
    requires io.close == Throws("The device is not ready.")
    ensures Print(commands, Some(name), copies, io).outcome == Raised(Thrown("The device is not ready."))
  {
  }

  /** The overload taking settings: it forwards the parallel port name and
      the copy count unchanged. */
  function PrintWithSettings(commands: string, settings: PrinterSettings, io: LptIo): (r: Run<LptTrace>)
    ensures r == Print(commands, settings.parallelPortName, settings.copies, io)
  {
    Print(commands, settings.parallelPortName, settings.copies, io)
  }

  /** "lpt1" is as good a port name as "LPT1". */
  lemma LowerCaseNameAccepted()
    ensures ValidPortName("lpt1") && ValidPortName("LPT1")
  {
    ValidPortNameIff("lpt1");
    ValidPortNameIff("LPT1");
  }

  /** There is no empty-command check: an empty command on a working port
      succeeds with nothing sent. */
  lemma EmptyCommandSucceeds(name: string, copies: int, io: LptIo)
    requires ValidPortName(name) && io.streamOpens && io.close.Ok?
    requires forall i: nat :: i < copies ==> io.writes(i).Ok?
    ensures Print("", Some(name), copies, io).outcome == Returned(PrintResult(true, "", 0))
  {
  }

  /** A negative copy count writes nothing yet reports a negative byte count. */
  lemma NegativeCopiesReportNegativeBytes(commands: string, name: string, copies: int, io: LptIo)
    requires ValidPortName(name) && io.streamOpens && io.close.Ok?
    requires copies < 0 && |commands| > 0 && |commands| * copies >= Int32Min
    ensures Print(commands, Some(name), copies, io).Succeeded()
    ensures Print(commands, Some(name), copies, io).outcome.value.bytesSent == |commands| * copies < 0
  {
    assert |commands| * copies == -(|commands| * -copies);
    assert |commands| * -copies > 0;
  }

  /** A write that fails after some copies went out still reports 0 bytes. */
  lemma PartialWriteReportsNothing(commands: string, name: string, copies: int, io: LptIo)
    requires ValidPortName(name) && io.streamOpens && io.close.Ok?
    requires copies >= 2 && io.writes(0).Ok? && io.writes(1).Throws?
    ensures Print(commands, Some(name), copies, io).outcome
            == Returned(Failure(WriteFailureMessage(io.writes(1).message)))
  {
    var step := (i: nat) => StepOf(io.writes(i), AsciiByteCount(commands));
    assert CopyLoop(step, copies, 1, AsciiByteCount(commands)) == Interrupted(1, io.writes(1).message);
    assert Copies(step, copies) == Interrupted(1, io.writes(1).message);
  }
}
