/** `UsbPrint.Print`: find the Zebra printer whose USB device, registry entry
    and print queue belong together, write the command `copies` times through
    a file handle on its device path, and optionally read its answer back. */
module UsbPrint {

  import opened Wrappers
  import opened Text
  import opened Io
  import opened Results
  import Localization

  // ---------------------------------------------------------------------------
  // What the operating system reports

  /** An enumerated USB device: its device path, its product id, and whether
      `CreateFile` on that path yields a valid write handle and a valid read
      handle. */
  datatype UsbDevice = UsbDevice(path: string, pid: nat, writeValid: bool, readValid: bool)

  /** A sub-key of the USB printer device-class registry key: its name and the
      `Port Number` value under its `#\Device Parameters` sub-key; `None` when
      that sub-key or value is missing. */
  datatype RegistryKey = RegistryKey(name: string, portNumber: Option<nat>)

  /** A local print queue: its name and the name of its port. */
  datatype PrintQueue = PrintQueue(name: string, portName: string)

  /** The enumerated devices, the device-class registry key (`None` when it
      cannot be opened), and the local print queues. */
  datatype UsbSystem = UsbSystem(devices: seq<UsbDevice>, registry: Option<seq<RegistryKey>>,
                                 queues: seq<PrintQueue>)

  const ZebraVendorId: string := "0A5F"

  // ---------------------------------------------------------------------------
  // Device matching

  /** Only devices of the Zebra vendor id are candidates. */
  predicate IsZebra(path: string) {
    Contains(ToUpper(path), "VID_" + ZebraVendorId)
  }

  /** `PID.ToString("X").PadLeft(4, '0')`; the registry pattern upper-cases
      these digits once more, which changes nothing. */
  function PidDigits(pid: nat): (r: string)
    ensures AllHexDigits(r) && HexValue(r) == pid
    ensures |r| >= 4
    ensures pid < 0x1_0000 ==> |r| == 4
  {
    var r := PadLeft(HexUpper(pid), 4, '0');
    PaddedHexValue(pid, 4);
    if pid < 0x1_0000 then HexUpperShort(pid); r else r
  }

  /** The serial number between `&PID_xxxx#` and the next `#` of a device
      path, upper-cased. `None` when the .NET search or `Substring` would
      throw `ArgumentOutOfRangeException`, which the library does not catch. */
  function SerialNumber(path: string, pid: nat): (r: Option<string>)
    // `start` sits ten characters past the marker, and -1 + 10 when it is absent
    ensures var start := IndexOf(ToUpper(path), "&PID_" + PidDigits(pid)) + 10;
            r.None? <==> start + 1 > |path| || IndexOfFrom(path, "#", start + 1) < 0
    // otherwise: the characters from `start` up to the next `#`, upper-cased
    ensures var start := IndexOf(ToUpper(path), "&PID_" + PidDigits(pid)) + 10;
            r.Some? ==>
              var end := IndexOfFrom(path, "#", start + 1);
              && start < end < |path| && path[end] == '#'
              && |r.value| == end - start
              && forall k :: 0 <= k < |r.value| ==> r.value[k] == UpperChar(path[start + k])
  {
    var start := IndexOf(ToUpper(path), "&PID_" + PidDigits(pid)) + 10;
    if start + 1 > |path| then None
    else
      var end := IndexOfFrom(path, "#", start + 1);
      if end < start then None
      else
        SerialSlice(path, start, end);
        Some(ToUpper(path[start..end]))
  }

  lemma SerialSlice(path: string, start: int, end: int)
    requires 0 <= start < end && OccursAt(path, "#", end)
    ensures end < |path| && path[end] == '#'
    ensures |ToUpper(path[start..end])| == end - start
    ensures forall k :: 0 <= k < end - start ==> ToUpper(path[start..end])[k] == UpperChar(path[start + k])
  {
    assert path[end..end + 1][0] == path[end];
  }

  /** The pattern a registry key name must contain to belong to the device. */
  function KeyPattern(pid: nat, serial: string): string {
    "VID_" + ZebraVendorId + "&PID_" + PidDigits(pid) + "#" + serial
  }

  predicate KeyMatches(key: RegistryKey, pattern: string) {
    Contains(key.name, pattern)
  }

  /** `"USB" + portNumber.ToString().PadLeft(3, '0')`. */
  function UsbPortName(portNumber: nat): (r: string)
    ensures StartsWith(r, "USB") && r[3..] == PadLeft(Decimal(portNumber), 3, '0')
    ensures portNumber < 1000 ==> |r| == 6
  {
    var r := "USB" + PadLeft(Decimal(portNumber), 3, '0');
    if portNumber < 1000 then assert Pow10(3) == 1000; DecimalBelow(portNumber, 3); r else r
  }

  datatype ScanResult = PortFound(portName: string) | ScanThrew(message: string)

  /** The loop over the registry key names from index `i`, with the port name
      found so far. A matching key whose port number is missing throws a
      `NullReferenceException`. The loop does not stop at a match. */
  function Scan(keys: seq<RegistryKey>, pattern: string, i: nat, port: string): (r: ScanResult)
    // the loop throws exactly at the first matching key without a port number
    ensures r.ScanThrew? <==>
              exists j :: i <= j < |keys| && KeyMatches(keys[j], pattern) && keys[j].portNumber.None?
    ensures r.ScanThrew? ==> r.message == NullReferenceMessage
    // otherwise the last matching key decides, and with no match the port is unchanged
    ensures r.PortFound? ==>
              || ((forall j :: i <= j < |keys| ==> !KeyMatches(keys[j], pattern)) && r.portName == port)
              || (exists j :: i <= j < |keys| && KeyMatches(keys[j], pattern)
                              && (forall k :: j < k < |keys| ==> !KeyMatches(keys[k], pattern))
                              && r.portName == UsbPortName(keys[j].portNumber.value))
    decreases |keys| - i
  {
    if i >= |keys| then PortFound(port)
    else if KeyMatches(keys[i], pattern) then
      match keys[i].portNumber
      case None => ScanThrew(NullReferenceMessage)
      case Some(n) => Scan(keys, pattern, i + 1, UsbPortName(n))
    else Scan(keys, pattern, i + 1, port)
  }

  /** The port of the device whose serial number is `serial`, as the registry
      records it: "" when no key matches. */
  function RegistryPort(keys: seq<RegistryKey>, pid: nat, serial: string): ScanResult {
    Scan(keys, KeyPattern(pid, serial), 0, "")
  }

  /** `FirstOrDefault(x => x.Name == printerName)`. */
  function FirstQueue(queues: seq<PrintQueue>, printerName: string): (r: Option<nat>)
    ensures r.Some? ==> r.value < |queues| && queues[r.value].name == printerName
                        && forall j :: 0 <= j < r.value ==> queues[j].name != printerName
    ensures r.None? <==> forall j :: 0 <= j < |queues| ==> queues[j].name != printerName
  {
    if |queues| == 0 then None
    else if queues[0].name == printerName then Some(0)
    else match FirstQueue(queues[1..], printerName)
      case None => None
      case Some(k) => Some(k + 1)
  }

  /** `IsMatchingPort`: the first local queue named `printerName` exists and
      is attached to `portName`. */
  predicate IsMatchingPort(printerName: string, portName: string, queues: seq<PrintQueue>) {
    var q := FirstQueue(queues, printerName);
    q.Some? && queues[q.value].portName == portName
  }

  lemma IsMatchingPortIff(printerName: string, portName: string, queues: seq<PrintQueue>)
    ensures IsMatchingPort(printerName, portName, queues) <==>
              exists i :: 0 <= i < |queues| && queues[i].name == printerName
                          && queues[i].portName == portName
                          && forall j :: 0 <= j < i ==> queues[j].name != printerName
  {
    if IsMatchingPort(printerName, portName, queues) {
      var i := FirstQueue(queues, printerName).value;
      assert queues[i].name == printerName && queues[i].portName == portName;
    }
  }

  // ---------------------------------------------------------------------------
  // The device loop

  /** Everything the loop body decides about one device before the handles
      are created: it is a Zebra device, its serial number can be cut out,
      the registry scan does not throw, and its port belongs to the queue. */
  predicate Accepts(d: UsbDevice, keys: seq<RegistryKey>, queues: seq<PrintQueue>, printerName: string) {
    && IsZebra(d.path)
    && SerialNumber(d.path, d.pid).Some?
    && RegistryPort(keys, d.pid, SerialNumber(d.path, d.pid).value).PortFound?
    && IsMatchingPort(printerName, RegistryPort(keys, d.pid, SerialNumber(d.path, d.pid).value).portName, queues)
  }

  /** What the loop body decides for one device. */
  datatype Verdict =
    | Skip                          // `continue`, or neither handle is valid
    | Take                          // `break`: a handle on this device is valid
    | Fail(message: string)         // the registry scan threw; caught and returned
    | Raise(exception: Exception)   // cutting out the serial number threw; not caught

  function Examine(d: UsbDevice, keys: seq<RegistryKey>, queues: seq<PrintQueue>, printerName: string)
    : (v: Verdict)
    ensures v.Take? <==> Accepts(d, keys, queues, printerName) && (d.writeValid || d.readValid)
    ensures !IsZebra(d.path) ==> v.Skip?
    ensures v.Raise? <==> IsZebra(d.path) && SerialNumber(d.path, d.pid).None?
    ensures v.Raise? ==> v.exception == ArgumentOutOfRange
    ensures v.Fail? ==> v.message == NullReferenceMessage
  {
    if !IsZebra(d.path) then Skip
    else match SerialNumber(d.path, d.pid)
      case None => Raise(ArgumentOutOfRange)
      case Some(serial) =>
        match RegistryPort(keys, d.pid, serial)
        case ScanThrew(m) => Fail(m)
        case PortFound(port) =>
          if IsMatchingPort(printerName, port, queues) && (d.writeValid || d.readValid) then Take else Skip
  }

  datatype Search =
    | Candidate(index: nat)              // the loop broke at this device
    | NoCandidate                        // the loop ran out of devices
    | SearchFailed(message: string)      // the registry scan threw; caught
    | SearchRaised(exception: Exception) // cutting out the serial number threw; not caught

  /** The verdict on every enumerated device, in enumeration order. */
  function Verdicts(devices: seq<UsbDevice>, keys: seq<RegistryKey>, queues: seq<PrintQueue>,
                    printerName: string): (vs: seq<Verdict>)
    ensures |vs| == |devices|
    ensures forall j :: 0 <= j < |devices| ==> vs[j] == Examine(devices[j], keys, queues, printerName)
  {
    seq(|devices|, j requires 0 <= j < |devices| => Examine(devices[j], keys, queues, printerName))
  }

  /** The device loop from device `i` on: the first verdict other than `Skip`
      ends it. */
  function Find(verdicts: seq<Verdict>, i: nat): (s: Search)
    ensures s.Candidate? ==>
              && i <= s.index < |verdicts| && verdicts[s.index].Take?
              && forall j :: i <= j < s.index ==> verdicts[j].Skip?
    ensures s.NoCandidate? <==> forall j :: i <= j < |verdicts| ==> verdicts[j].Skip?
    ensures s.SearchFailed? ==>
              exists k :: i <= k < |verdicts| && verdicts[k] == Fail(s.message)
                          && forall j :: i <= j < k ==> verdicts[j].Skip?
    ensures s.SearchRaised? ==>
              exists k :: i <= k < |verdicts| && verdicts[k] == Raise(s.exception)
                          && forall j :: i <= j < k ==> verdicts[j].Skip?
    decreases |verdicts| - i
  {
    if i >= |verdicts| then NoCandidate
    else
      match verdicts[i]
      case Skip => Find(verdicts, i + 1)
      case Take => Candidate(i)
      case Fail(m) => SearchFailed(m)
      case Raise(e) => SearchRaised(e)
  }

  // ---------------------------------------------------------------------------
  // Reading the answer

  /** A failing `ReadLine`: the call that throws, whether it throws an
      `IOException`, and the exception's text. */
  datatype ReadFault = ReadFault(at: nat, isIo: bool, message: string)

  /** What the read stream delivers: the lines `ReadLine` returns until the
      stream ends, or a fault. */
  datatype UsbStream = UsbStream(lines: seq<string>, fault: Option<ReadFault>)

  /** The do-while loop runs at least once: at the end of an empty stream
      `ReadLine` returns null, which appends nothing. Every line read is
      followed by a carriage return. */
  function ReadText(lines: seq<string>): (t: string)
    ensures |t| > 0 && t[|t| - 1] == '\r'
  {
    if |lines| == 0 then "\r"
    else
      TerminatedEnds(lines, '\r');
      Terminated(lines, '\r')
  }

  /** Number of `ReadLine` calls the loop makes on a healthy stream. */
  function ReadCalls(s: UsbStream): nat {
    if |s.lines| == 0 then 1 else |s.lines|
  }

  /** `ReadUsbPort`: the answer, or the fault's text under the matching
      prefix with the default success flag and byte count. */
  function ReadUsbPort(s: UsbStream): (r: PrintResult)
    ensures s.fault.None? || s.fault.value.at >= ReadCalls(s) ==>
              && r.successful
              && r.message == ReadText(s.lines)
              && r.bytesSent == AsciiByteCount(r.message)
    ensures s.fault.Some? && s.fault.value.at < ReadCalls(s) ==>
              r == Failure(Localization.Colon(
                             if s.fault.value.isIo then Localization.IOException else Localization.ErrorOccured,
                             s.fault.value.message))
  {
    if s.fault.Some? && s.fault.value.at < ReadCalls(s) then
      var f := s.fault.value;
      var prefix := if f.isIo then Localization.IOException else Localization.ErrorOccured;
      Failure(Localization.Colon(prefix, f.message))
    else
      var text := ReadText(s.lines);
      PrintResult(true, text, AsciiByteCount(text))
  }

  /** Lines that hold no carriage return can be recovered from the answer. */
  lemma AnswerSplitsIntoLines(lines: seq<string>)
    requires |lines| > 0
    requires forall k :: 0 <= k < |lines| ==> '\r' !in lines[k]
    ensures Split(ReadUsbPort(UsbStream(lines, None)).message, '\r') == lines
  {
    SplitTerminated(lines, '\r');
  }

  // ---------------------------------------------------------------------------
  // The print call

  /** What happens after a device was chosen: how each `WriteLine` + `Flush`
      ends, whether the reading task finishes within the one-second timeout,
      and what the read stream delivers. */
  datatype UsbIo = UsbIo(writes: nat -> Status, answersInTime: bool, response: UsbStream)

  /** Valid handles obtained and released again. */
  datatype UsbTrace = UsbTrace(writeOpened: bool, writeReleased: bool, readOpened: bool, readReleased: bool)

  const Untouched: UsbTrace := UsbTrace(false, false, false, false)

  const RegistryFailureMessage: string := Localization.Dash2(Localization.Error, Localization.AccessRegistryKey)
  const WriteNotFoundMessage: string := Localization.Dash2(Localization.WriteError, Localization.NoUsbPrinterFound)
  const ReadNotFoundMessage: string := Localization.Dash2(Localization.ReadError, Localization.NoUsbPrinterFound)

  /** Bytes reported for the writes: `WriteLine` adds a newline that is not counted. */
  function WrittenBytes(commands: string, copies: int): int {
    Int32(AsciiByteCount(commands) * copies)
  }

  /** `UsbPrint.Print`: two guards, then `ExecuteUsbCommands`. */
  function Print(commands: string, printerName: Option<string>, copies: int, waitForResponse: bool,
                 sys: UsbSystem, io: UsbIo): (r: Run<UsbTrace>)
    // the printer name is checked first, then the command; neither reaches discovery
    ensures IsNullOrEmpty(printerName) ==>
              r == Run(Returned(Failure(Localization.PritnerNameEmpty)), Untouched)
    ensures !IsNullOrEmpty(printerName) && |commands| == 0 ==>
              r == Run(Returned(Failure(Localization.EmptyPrintCommands)), Untouched)
    ensures !IsNullOrEmpty(printerName) && |commands| > 0 ==>
              r == Execute(commands, printerName.value, waitForResponse, copies, sys, io)
  {
    if IsNullOrEmpty(printerName) then
      Run(Returned(Failure(Localization.PritnerNameEmpty)), Untouched)
    else if |commands| == 0 then
      Run(Returned(Failure(Localization.EmptyPrintCommands)), Untouched)
    else
      Execute(commands, printerName.value, waitForResponse, copies, sys, io)
  }

  /** The device loop's outcome for a readable registry. */
  function Choose(sys: UsbSystem, keys: seq<RegistryKey>, printerName: string): (s: Search)
    ensures s.Candidate? ==> s.index < |sys.devices|
  {
    Find(Verdicts(sys.devices, keys, sys.queues, printerName), 0)
  }

  /** `ExecuteUsbCommands`: the registry key, the device loop, then the
      transfer on the chosen device. */
  function Execute(commands: string, printerName: string, waitForResponse: bool, copies: int,
                   sys: UsbSystem, io: UsbIo): (r: Run<UsbTrace>)
    ensures sys.registry.None? ==> r == Run(Returned(Failure(RegistryFailureMessage)), Untouched)
    ensures sys.registry.Some? ==>
              r == Complete(commands, sys.devices, Choose(sys, sys.registry.value, printerName),
                            waitForResponse, copies, io)
  {
    match sys.registry
    case None => Run(Returned(Failure(RegistryFailureMessage)), Untouched)
    case Some(keys) => Complete(commands, sys.devices, Choose(sys, keys, printerName), waitForResponse, copies, io)
  }

  /** Only cutting out a serial number can throw out of the call. */
  lemma ExecuteRaisesOnlyOutOfRange(commands: string, printerName: string, waitForResponse: bool, copies: int,
                                    sys: UsbSystem, io: UsbIo)
    ensures var r := Execute(commands, printerName, waitForResponse, copies, sys, io);
            r.outcome.Raised? ==> r.outcome.exception == ArgumentOutOfRange
  {
    if sys.registry.Some? {
      var verdicts := Verdicts(sys.devices, sys.registry.value, sys.queues, printerName);
      var search := Find(verdicts, 0);
      if search.SearchRaised? {
        var k :| 0 <= k < |verdicts| && verdicts[k] == Raise(search.exception);
        assert Examine(sys.devices[k], sys.registry.value, sys.queues, printerName).Raise?;
      }
    }
  }

  /** When the loop passes no device, no printer is found and nothing is opened. */
  lemma NoAcceptedDeviceFails(commands: string, printerName: string, waitForResponse: bool, copies: int,
                              sys: UsbSystem, io: UsbIo)
    requires sys.registry.Some?
    requires forall j :: 0 <= j < |sys.devices| ==>
               Examine(sys.devices[j], sys.registry.value, sys.queues, printerName).Skip?
    ensures Execute(commands, printerName, waitForResponse, copies, sys, io)
            == Run(Returned(Failure(WriteNotFoundMessage)), Untouched)
  {
    var verdicts := Verdicts(sys.devices, sys.registry.value, sys.queues, printerName);
    assert Find(verdicts, 0).NoCandidate?;
  }

  /** Success needs an accepted device with a valid write handle and every
      write done; without a response to wait for it reports the written
      bytes and no message. */
  lemma ExecuteSuccess(commands: string, printerName: string, waitForResponse: bool, copies: int,
                       sys: UsbSystem, io: UsbIo)
    ensures var r := Execute(commands, printerName, waitForResponse, copies, sys, io);
            r.Succeeded() ==>
              && sys.registry.Some?
              && (exists k :: 0 <= k < |sys.devices| && sys.devices[k].writeValid
                              && Accepts(sys.devices[k], sys.registry.value, sys.queues, printerName))
              && (forall i: nat :: i < copies ==> io.writes(i).Ok?)
              && (!waitForResponse ==> r.outcome == Returned(PrintResult(true, "", WrittenBytes(commands, copies))))
  {
    var r := Execute(commands, printerName, waitForResponse, copies, sys, io);
    if r.Succeeded() {
      var search := Choose(sys, sys.registry.value, printerName);
      var k := search.index;
      assert Examine(sys.devices[k], sys.registry.value, sys.queues, printerName).Take?;
    }
  }

  /** A reported byte count means every write returned; a valid write handle
      is always released, and a valid read handle leaks only beside an
      invalid write handle. */
  lemma ExecuteAccounting(commands: string, printerName: string, waitForResponse: bool, copies: int,
                          sys: UsbSystem, io: UsbIo)
    ensures var r := Execute(commands, printerName, waitForResponse, copies, sys, io);
            && (r.outcome.Returned? && r.outcome.value.bytesSent != 0 ==>
                  forall i: nat :: i < copies ==> io.writes(i).Ok?)
            && (r.resources.writeOpened ==> r.resources.writeReleased)
            && (r.resources.readOpened && !r.resources.readReleased ==>
                  !r.resources.writeOpened && r.FailedWith(WriteNotFoundMessage))
  {
  }

  /** What the call does once the device loop has ended. */
  function Complete(commands: string, devices: seq<UsbDevice>, search: Search, waitForResponse: bool,
                    copies: int, io: UsbIo): (r: Run<UsbTrace>)
    requires search.Candidate? ==> search.index < |devices|
    ensures search.SearchRaised? ==> r == Run(Raised(search.exception), Untouched)
    ensures search.SearchFailed? ==> r == Run(Returned(Failure(search.message)), Untouched)
    ensures search.NoCandidate? ==> r == Run(Returned(Failure(WriteNotFoundMessage)), Untouched)
    ensures search.Candidate? ==> r == Transfer(commands, devices[search.index], waitForResponse, copies, io)
  {
    match search
    case SearchRaised(e) => Run(Raised(e), Untouched)
    case SearchFailed(m) => Run(Returned(Failure(m)), Untouched)
    case NoCandidate => Run(Returned(Failure(WriteNotFoundMessage)), Untouched)
    case Candidate(k) => Transfer(commands, devices[k], waitForResponse, copies, io)
  }

  /** The part of `ExecuteUsbCommands` after the device loop chose device `d`:
      the write handle check, the writes, and the optional read-back. */
  function Transfer(commands: string, d: UsbDevice, waitForResponse: bool, copies: int, io: UsbIo)
    : (r: Run<UsbTrace>)
    ensures r.outcome.Returned?
    ensures !d.writeValid ==>
              r == Run(Returned(Failure(WriteNotFoundMessage)), UsbTrace(false, false, d.readValid, false))
    // a failing write: its text, no bytes
    ensures d.writeValid && !(forall i: nat :: i < copies ==> io.writes(i).Ok?) ==>
              exists i: nat :: i < copies && io.writes(i).Throws? && (forall j: nat :: j < i ==> io.writes(j).Ok?)
                               && r.FailedWith(io.writes(i).message)
    ensures r.Succeeded() ==> d.writeValid && forall i: nat :: i < copies ==> io.writes(i).Ok?
    ensures r.outcome.value.bytesSent != 0 ==> forall i: nat :: i < copies ==> io.writes(i).Ok?
    // after the writes: the written bytes, then what the read-back makes of them
    ensures d.writeValid && (forall i: nat :: i < copies ==> io.writes(i).Ok?) ==>
              var written := WrittenBytes(commands, copies);
              var answer := ReadUsbPort(io.response);
              r.outcome.value ==
                if !waitForResponse then PrintResult(true, "", written)
                else if !d.readValid then PrintResult(true, ReadNotFoundMessage, written)
                else if !io.answersInTime then PrintResult(false, Localization.ReadRequestTimeOut, written)
                else PrintResult(answer.successful, answer.message, written + answer.bytesSent)
    // the write handle is always released; the read handle leaks only beside an invalid write handle
    ensures r.resources.writeOpened <==> d.writeValid
    ensures r.resources.writeOpened ==> r.resources.writeReleased
    ensures r.resources.readOpened <==> d.readValid
    ensures r.resources.readOpened && !r.resources.readReleased ==>
              !r.resources.writeOpened && r.FailedWith(WriteNotFoundMessage)
  {
    if !d.writeValid then
      Run(Returned(Failure(WriteNotFoundMessage)), UsbTrace(false, false, d.readValid, false))
    else
      var released := UsbTrace(true, true, d.readValid, d.readValid);
      var step := (i: nat) => StepOf(io.writes(i), 0);
      match Copies(step, copies)
      case Interrupted(at, m) =>
        assert io.writes(at).Throws? && forall j: nat :: j < at ==> io.writes(j).Ok? by {
          forall j: nat | j < at ensures io.writes(j).Ok? {
            assert step(j).Done?;
          }
        }
        Run(Returned(Failure(m)), released)
      case Completed(_) =>
        assert forall i: nat :: i < copies ==> io.writes(i).Ok? by {
          forall i: nat | i < copies ensures io.writes(i).Ok? {
            assert step(i).Done?;
          }
        }
        var written := PrintResult(true, "", WrittenBytes(commands, copies));
        if !waitForResponse then Run(Returned(written), released)
        else if !d.readValid then Run(Returned(written.(message := ReadNotFoundMessage)), released)
        else if !io.answersInTime then
          Run(Returned(written.(successful := false, message := Localization.ReadRequestTimeOut)), released)
        else
          var answer := ReadUsbPort(io.response);
          Run(Returned(PrintResult(answer.successful, answer.message,
                                   written.bytesSent + answer.bytesSent)), released)
  }

  // ---------------------------------------------------------------------------
  // Properties

  /** A device path `…&pid_XXXX#SERIAL#…` yields SERIAL upper-cased, provided
      nothing before `&pid_` could be mistaken for it and SERIAL is a
      non-empty run without '#'. */
  lemma SerialNumberOfPath(pre: string, digits: string, serial: string, rest: string, pid: nat)
    requires pid < 0x1_0000 && ToUpper(digits) == PidDigits(pid)
    requires '&' !in pre
    requires |serial| > 0 && '#' !in serial
    ensures SerialNumber(pre + "&pid_" + digits + "#" + serial + "#" + rest, pid) == Some(ToUpper(serial))
  {
    var path := pre + "&pid_" + digits + "#" + serial + "#" + rest;
    var start := |pre| + 10;
    PidMarkerInPath(pre, digits, serial, rest, pid);
    SerialEndInPath(pre, digits, serial, rest);
    SerialNumberBetween(path, pid, start, start + |serial|, serial);
  }

  lemma PidMarkerInPath(pre: string, digits: string, serial: string, rest: string, pid: nat)
    requires ToUpper(digits) == PidDigits(pid)
    requires '&' !in pre
    ensures IndexOf(ToUpper(pre + "&pid_" + digits + "#" + serial + "#" + rest), "&PID_" + PidDigits(pid)) == |pre|
  {
    assert pre + "&pid_" + digits + "#" + serial + "#" + rest == pre + "&pid_" + digits + ("#" + serial + "#" + rest);
    PidMarkerAt(pre, digits, "#" + serial + "#" + rest, pid);
  }

  lemma SerialEndInPath(pre: string, digits: string, serial: string, rest: string)
    requires |digits| == 4
    requires |serial| > 0 && '#' !in serial
    ensures var path := pre + "&pid_" + digits + "#" + serial + "#" + rest;
            && |pre| + 10 + |serial| < |path|
            && IndexOfFrom(path, "#", |pre| + 11) == |pre| + 10 + |serial|
            && path[|pre| + 10..|pre| + 10 + |serial|] == serial
  {
    PathShape(pre, digits, serial, rest);
    SerialEndAt(pre + "&pid_" + digits + "#", serial, rest);
  }

  /** How the device path falls apart around the serial number. */
  lemma PathShape(pre: string, digits: string, serial: string, rest: string)
    requires |digits| == 4
    ensures var path := pre + "&pid_" + digits + "#" + serial + "#" + rest;
            && path == pre + "&pid_" + digits + ("#" + serial + "#" + rest)
            && path == pre + "&pid_" + digits + "#" + serial + "#" + rest
            && |pre + "&pid_" + digits + "#"| == |pre| + 10
            && path[|pre| + 10..|pre| + 10 + |serial|] == serial
  {
  }

  /** `SerialNumber` once the two searches have been located. */
  lemma SerialNumberBetween(path: string, pid: nat, start: nat, end: nat, serial: string)
    requires IndexOf(ToUpper(path), "&PID_" + PidDigits(pid)) + 10 == start
    requires start + 1 <= |path| && start <= end <= |path|
    requires IndexOfFrom(path, "#", start + 1) == end
    requires path[start..end] == serial
    ensures SerialNumber(path, pid) == Some(ToUpper(serial))
  {
  }

  /** The search for `&PID_xxxx` in the upper-cased path lands right after `pre`. */
  lemma PidMarkerAt(pre: string, digits: string, tail: string, pid: nat)
    requires ToUpper(digits) == PidDigits(pid)
    requires '&' !in pre
    ensures IndexOf(ToUpper(pre + "&pid_" + digits + tail), "&PID_" + PidDigits(pid)) == |pre|
  {
    var needle := "&PID_" + PidDigits(pid);
    MarkerUpper(digits, needle);
    UpperKeepsAmpersandOut(pre);
    UpperOfFour(pre, "&pid_", digits, tail);
    IndexOfAfterPrefix(ToUpper(pre), needle, ToUpper(tail));
  }

  lemma MarkerUpper(digits: string, needle: string)
    requires needle == "&PID_" + ToUpper(digits)
    ensures ToUpper("&pid_" + digits) == needle && |needle| > 0 && needle[0] == '&'
  {
    ToUpperAppend("&pid_", digits);
    assert ToUpper("&pid_") == "&PID_";
  }

  lemma UpperKeepsAmpersandOut(pre: string)
    requires '&' !in pre
    ensures '&' !in ToUpper(pre)
  {
    forall i | 0 <= i < |pre| ensures ToUpper(pre)[i] != '&' {
      assert pre[i] != '&';
    }
  }

  lemma UpperOfFour(a: string, b: string, c: string, d: string)
    ensures ToUpper(a + b + c + d) == ToUpper(a) + ToUpper(b + c) + ToUpper(d)
  {
    assert a + b + c + d == a + (b + c) + d;
    ToUpperAppend(a + (b + c), d);
    ToUpperAppend(a, b + c);
  }

  /** The '#' searched for from one past the serial's start is the one ending it. */
  lemma SerialEndAt(prefix: string, serial: string, rest: string)
    requires |serial| > 0 && '#' !in serial
    ensures IndexOfFrom(prefix + serial + "#" + rest, "#", |prefix| + 1) == |prefix| + |serial|
  {
    var path := prefix + serial + "#" + rest;
    var start := |prefix|;
    forall j | start + 1 <= j < start + |serial| ensures path[j] != '#' {
      assert path[j] == serial[j - start];
    }
    IndexOfFromChar(path, '#', start + 1, start + |serial|);
  }

  /** The Zebra printer's typical device path. */
  lemma TypicalDevicePath()
    ensures SerialNumber("\\\\?\\usb#vid_0a5f" + "&pid_" + "00ab" + "#" + "jjk011718" + "#"
                         + "{a5dcbf10-6530-11d2-901f-00c04fb951ed}", 0xAB)
            == Some("JJK011718")
  {
    PidDigitsOfAB();
    TypicalPathPieces();
    SerialNumberOfPath("\\\\?\\usb#vid_0a5f", "00ab", "jjk011718", "{a5dcbf10-6530-11d2-901f-00c04fb951ed}", 0xAB);
  }

  lemma PidDigitsOfAB()
    ensures PidDigits(0xAB) == "00AB"
  {
    assert HexUpper(0xAB) == "AB";
  }

  lemma TypicalPathPieces()
    ensures ToUpper("00ab") == "00AB" && ToUpper("jjk011718") == "JJK011718"
    ensures '&' !in "\\\\?\\usb#vid_0a5f"
    ensures |"jjk011718"| > 0 && '#' !in "jjk011718"
  {
  }

  /** Without a Zebra device among the enumerated ones, no printer is found. */
  lemma OnlyZebraDevicesConsidered(commands: string, printerName: string, waitForResponse: bool, copies: int,
                                   sys: UsbSystem, io: UsbIo)
    requires sys.registry.Some?
    requires forall j :: 0 <= j < |sys.devices| ==> !IsZebra(sys.devices[j].path)
    ensures Execute(commands, printerName, waitForResponse, copies, sys, io)
            == Run(Returned(Failure(WriteNotFoundMessage)), Untouched)
  {
  }

  /** When every matching key has a port number, the last matching key
      decides the port, whatever the keys before it say. */
  lemma LastMatchingKeyWins(keys: seq<RegistryKey>, pattern: string, port: string, j: nat, n: nat)
    requires j < |keys| && KeyMatches(keys[j], pattern) && keys[j].portNumber == Some(n)
    requires forall k :: 0 <= k < |keys| && KeyMatches(keys[k], pattern) ==> keys[k].portNumber.Some?
    requires forall k :: j < k < |keys| ==> !KeyMatches(keys[k], pattern)
    ensures Scan(keys, pattern, 0, port) == PortFound(UsbPortName(n))
  {
    var r := Scan(keys, pattern, 0, port);
    assert r.PortFound?;
    if exists k :: 0 <= k < |keys| && KeyMatches(keys[k], pattern)
                   && (forall m :: k < m < |keys| ==> !KeyMatches(keys[m], pattern))
                   && r.portName == UsbPortName(keys[k].portNumber.value) {
      var k :| 0 <= k < |keys| && KeyMatches(keys[k], pattern)
               && (forall m :: k < m < |keys| ==> !KeyMatches(keys[m], pattern))
               && r.portName == UsbPortName(keys[k].portNumber.value);
      assert k == j;
    }
  }

  /** When only the read handle is valid, the call reports the write failure
      and never releases the read handle. */
  lemma ValidReadHandleLeaks(commands: string, printerName: string, waitForResponse: bool, copies: int,
                             sys: UsbSystem, io: UsbIo, k: nat)
    ensures sys.registry.Some? && Choose(sys, sys.registry.value, printerName) == Candidate(k)
            && !sys.devices[k].writeValid && sys.devices[k].readValid ==>
              Execute(commands, printerName, waitForResponse, copies, sys, io)
              == Run(Returned(Failure(WriteNotFoundMessage)), UsbTrace(false, false, true, false))
  {
  }

  lemma PortNameIsPadded()
    ensures UsbPortName(1) == "USB001" && UsbPortName(12) == "USB012" && UsbPortName(1234) == "USB1234"
  {
    DecimalSmall();
    PaddedOnce('1');
    PaddedTwice('1', '2');
    PortNameOf(1, "001");
    PortNameOf(12, "012");
    PortNameOf(1234, "1234");
  }

  lemma PortNameOf(n: nat, digits: string)
    requires PadLeft(Decimal(n), 3, '0') == digits
    ensures UsbPortName(n) == "USB" + digits
  {
    var r := UsbPortName(n);
    assert r == r[..3] + r[3..];
  }

  lemma DecimalSmall()
    ensures Decimal(1) == "1" && Decimal(12) == "12" && Decimal(1234) == "1234"
  {
    assert Decimal(12) == Decimal(1) + "2";
    assert Decimal(123) == Decimal(12) + "3";
    assert Decimal(1234) == Decimal(123) + "4";
  }

  lemma PaddedOnce(c: char)
    ensures PadLeft([c], 3, '0') == ['0', '0', c]
  {
    assert seq(2, _ => '0') == ['0', '0'];
  }

  lemma PaddedTwice(c: char, d: char)
    ensures PadLeft([c, d], 3, '0') == ['0', c, d]
  {
    assert seq(1, _ => '0') == ['0'];
  }

  /** An empty read stream still answers a single carriage return. */
  lemma EmptyStreamAnswer()
    ensures ReadUsbPort(UsbStream([], None)) == PrintResult(true, "\r", 1)
  {
  }

  /** The read-back count is added to the written count in a 64-bit total:
      one byte written 2^31 - 1 times plus the one-byte answer is 2^31, past
      what a 32-bit count could hold. */
  lemma ReadBackTotalDoesNotWrap(d: UsbDevice, io: UsbIo)
    requires d.writeValid && d.readValid && io.answersInTime
    requires forall i: nat :: io.writes(i).Ok?
    requires io.response == UsbStream([], None)
    ensures Transfer("A", d, true, 0x7FFF_FFFF, io).outcome.value.bytesSent == 0x8000_0000
  {
    EmptyStreamAnswer();
    assert WrittenBytes("A", 0x7FFF_FFFF) == 0x7FFF_FFFF;
  }

  /** Waiting for a response on a device without a valid read handle keeps the
      successful write result and only replaces its message. */
  lemma ReadHandleMissingKeepsSuccess(commands: string, printerName: string, copies: int,
                                      sys: UsbSystem, io: UsbIo, k: nat)
    ensures sys.registry.Some? && Choose(sys, sys.registry.value, printerName) == Candidate(k)
            && sys.devices[k].writeValid && !sys.devices[k].readValid
            && (forall i: nat :: i < copies ==> io.writes(i).Ok?) ==>
              Execute(commands, printerName, true, copies, sys, io).outcome
              == Returned(PrintResult(true, ReadNotFoundMessage, WrittenBytes(commands, copies)))
  {
  }
}
