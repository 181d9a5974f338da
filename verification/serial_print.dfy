/** `SerialPrint.Print`: validate the serial settings, open the named port,
    write the command `Copies` times and close the port again. */
module SerialPrint {

  import opened Wrappers
  import opened Text
  import opened Io
  import opened Results
  import opened Settings
  import Localization

  /** What the serial port does when asked: whether `new SerialPort(...)`
      accepts the settings (it sits outside the `try`, so a rejection
      escapes), whether `Open` succeeds, how the i-th `Write` ends, and how
      the `Close` in the `finally` ends (a throw there escapes too). */
  datatype SerialIo = SerialIo(create: Status, open: Status, writes: nat -> Status, close: Status)

  /** The port object's life: constructed, opened, and `Close` called by the
      `finally`. */
  datatype PortTrace = PortTrace(created: bool, wasOpened: bool, closed: bool)

  const Untouched: PortTrace := PortTrace(false, false, false)

  const InvalidSerialDataMessage: string :=
    Localization.Dash3(Localization.Error, Localization.ErrorConnectToDesignatedPrinter,
                       Localization.InvalidSerialData)

  const InvalidStopBitsMessage: string :=
    Localization.Dash2(Localization.Error, Localization.InvalidStopBits)

  /** Port name present, baud rate and data bits not negative. */
  predicate ValidSerialData(s: PrinterSettings) {
    !IsNullOrEmpty(s.serialPortName) && s.serialPortBaudRate >= 0 && s.serialPortDataBits >= 0
  }

  /** Every check before the port object is constructed passes. */
  predicate PassesValidation(commands: string, s: PrinterSettings) {
    |commands| > 0 && ValidSerialData(s) && s.serialPortStopBits != StopBits.None
  }

  /** Every port call the copy loop reaches returns. */
  ghost predicate IoSucceeds(io: SerialIo, copies: int) {
    io.create.Ok? && io.open.Ok? && io.close.Ok? && forall i: nat :: i < copies ==> io.writes(i).Ok?
  }

  function Print(commands: string, settings: PrinterSettings, io: SerialIo): (r: Run<PortTrace>)
    // the validation ladder, in source order; none of it touches the port
    ensures |commands| == 0 ==> r == Run(Returned(Failure(Localization.NoCommandMessage)), Untouched)
    ensures |commands| > 0 && !ValidSerialData(settings) ==>
              r == Run(Returned(Failure(InvalidSerialDataMessage)), Untouched)
    ensures |commands| > 0 && ValidSerialData(settings) && settings.serialPortStopBits == StopBits.None ==>
              r == Run(Returned(Failure(InvalidStopBitsMessage)), Untouched)
    // a rejected port construction escapes, and so does a throwing `Close` of
    // an opened port, whatever the `try` block was about to return
    ensures r.outcome.Raised? <==>
              PassesValidation(commands, settings) && (io.create.Throws? || (io.open.Ok? && io.close.Throws?))
    ensures r.outcome.Raised? && io.create.Throws? ==>
              r.outcome.exception == Thrown(io.create.message) && !r.resources.created
    ensures r.outcome.Raised? && io.create.Ok? ==>
              r.outcome.exception == Thrown(io.close.message) && r.resources.closed
    // success exactly when validation passed and nothing threw
    ensures r.Succeeded() <==> PassesValidation(commands, settings) && IoSucceeds(io, settings.copies)
    ensures r.Succeeded() ==>
              && r.outcome.value.message == ""
              && r.outcome.value.bytesSent
                 == (if settings.copies <= 0 then 0 else settings.copies * Utf8Length(commands))
    // a thrown Open or Write: its text becomes the message, no bytes are reported
    ensures r.outcome.Returned? && !r.outcome.value.successful ==> r.outcome.value.bytesSent == 0
    ensures PassesValidation(commands, settings) && io.create.Ok? && io.open.Throws? ==>
              r.FailedWith(io.open.message)
    ensures PassesValidation(commands, settings) && io.create.Ok? && io.open.Ok? && io.close.Ok?
            && !(forall i: nat :: i < settings.copies ==> io.writes(i).Ok?) ==>
              exists i: nat :: i < settings.copies && io.writes(i).Throws?
                               && (forall j: nat :: j < i ==> io.writes(j).Ok?)
                               && r.FailedWith(io.writes(i).message)
    // an opened port is closed on every path
    ensures r.resources.wasOpened ==> r.resources.closed
    ensures r.resources.wasOpened <==> PassesValidation(commands, settings) && io.create.Ok? && io.open.Ok?
  {
    if |commands| == 0 then
      Run(Returned(Failure(Localization.NoCommandMessage)), Untouched)
    else if !ValidSerialData(settings) then
      Run(Returned(Failure(InvalidSerialDataMessage)), Untouched)
    else if settings.serialPortStopBits == StopBits.None then
      Run(Returned(Failure(InvalidStopBitsMessage)), Untouched)
    else
      match io.create
      case Throws(m) => Run(Raised(Thrown(m)), Untouched)
      case Ok =>
        match io.open
        case Throws(m) => Run(Returned(Failure(m)), PortTrace(true, false, false))
        case Ok =>
          if io.close.Throws? then
            Run(Raised(Thrown(io.close.message)), PortTrace(true, true, true))
          else
            var size := Utf8Length(commands);
            var step := (i: nat) => StepOf(io.writes(i), size);
            match Copies(step, settings.copies)
            case Interrupted(at, m) =>
              assert io.writes(at).Throws? && forall j: nat :: j < at ==> io.writes(j).Ok? by {
                forall j: nat | j < at ensures io.writes(j).Ok? {
                  assert step(j).Done?;
                }
              }
              Run(Returned(Failure(m)), PortTrace(true, true, true))
            case Completed(total) =>
              assert forall i: nat :: i < settings.copies ==> io.writes(i) == Ok by {
                forall i: nat | i < settings.copies ensures io.writes(i) == Ok {
                  assert step(i).Done?;
                }
              }
              ConstantCopies(io.writes, settings.copies, size);
              Run(Returned(PrintResult(true, "", total)), PortTrace(true, true, true))
  }

  /** A port that takes every write but fails to close turns the finished
      print into an exception. */
  lemma CloseFailureEscapes(commands: string, settings: PrinterSettings, io: SerialIo)
    requires PassesValidation(commands, settings) && io.create.Ok? && io.open.Ok?
    requires forall i: nat :: i < settings.copies ==> io.writes(i).Ok?
    requires io.close == Throws("The port is closed.")
    ensures Print(commands, settings, io).outcome == Raised(Thrown("The port is closed."))
  {
  }

  /** A baud rate or data-bit count of 0 passes validation; only negative
      values are rejected. */
  lemma ZeroBaudAndDataBitsAccepted(commands: string, settings: PrinterSettings)
    requires |commands| > 0 && !IsNullOrEmpty(settings.serialPortName)
    requires settings.serialPortBaudRate == 0 && settings.serialPortDataBits == 0
    requires settings.serialPortStopBits != StopBits.None
    ensures PassesValidation(commands, settings)
  {
  }

  /** With no copies to print nothing is written, yet the call succeeds. */
  lemma NoCopiesStillSucceeds(commands: string, settings: PrinterSettings, io: SerialIo)
    requires PassesValidation(commands, settings) && io.create.Ok? && io.open.Ok? && io.close.Ok?
    requires settings.copies <= 0
    ensures Print(commands, settings, io) == Run(Returned(PrintResult(true, "", 0)), PortTrace(true, true, true))
  {
  }
}
