/** `NetworkPrint.Print`: validate the target, connect a TCP socket, send the
    UTF-8 command `Copies` times, optionally drain the printer's answer, and
    shut the socket down in the `finally`. */
module NetworkPrint {

  import opened Wrappers
  import opened Text
  import opened Io
  import opened Results
  import opened Settings
  import Localization

  /** One `Receive` call: the byte count it returned, those bytes decoded as
      UTF-8, and what `Available` reported afterwards; or the exception it threw. */
  datatype Receipt = Received(count: int, text: string, available: int) | ReceiveThrows(message: string)

  /** A peer that has closed the connection: `Receive` returns 0. */
  const PeerClosed: Receipt := Received(0, "", 0)

  /** The j-th receive; past the end of the recorded answer the peer has closed. */
  function ReceiptAt(receipts: seq<Receipt>, j: nat): Receipt {
    if j < |receipts| then receipts[j] else PeerClosed
  }

  /** `Available > 0 && bytesReceived > 0`: the do-while loop goes round again. */
  predicate Continues(r: Receipt) {
    r.Received? && r.available > 0 && r.count > 0
  }

  /** The decoded text of receives `lo .. hi-1`, in order. */
  function Texts(receipts: seq<Receipt>, lo: nat, hi: nat): string
    decreases hi - lo
  {
    if hi <= lo then ""
    else
      var r := ReceiptAt(receipts, lo);
      (if r.Received? then r.text else "") + Texts(receipts, lo + 1, hi)
  }

  /** How the response loop ended: the collected text and the number of the
      receive after the last one made, or the receive that threw. */
  datatype DrainEnd = Drained(message: string, next: nat) | DrainThrew(at: nat, message: string)

  /** The response loop from receive `i` on. */
  function Drain(receipts: seq<Receipt>, i: nat): (d: DrainEnd)
    // at least one receive is made; every receive but the last asked for more
    ensures d.Drained? ==>
              && i < d.next
              && (forall j: nat :: i <= j < d.next - 1 ==> Continues(ReceiptAt(receipts, j)))
              && ReceiptAt(receipts, d.next - 1).Received?
              && !Continues(ReceiptAt(receipts, d.next - 1))
              && d.message == Texts(receipts, i, d.next)
    ensures d.DrainThrew? ==>
              && i <= d.at < |receipts|
              && (forall j: nat :: i <= j < d.at ==> Continues(ReceiptAt(receipts, j)))
              && receipts[d.at] == ReceiveThrows(d.message)
    decreases |receipts| - i
  {
    match ReceiptAt(receipts, i)
    case ReceiveThrows(m) => DrainThrew(i, m)
    case Received(n, text, available) =>
      if available > 0 && n > 0 then
        match Drain(receipts, i + 1)
        case Drained(rest, next) => Drained(text + rest, next)
        case DrainThrew(at, m) => DrainThrew(at, m)
      else
        Drained(text, i + 1)
  }

  /** What the socket does when asked. `create` covers the endpoint and socket
      constructors, which sit outside the `try`; `sends(i)` is the i-th `Send`
      (the byte count it returns); `keepsConnectionOnError` is whether the
      socket still reports `Connected` after a failed send or receive;
      `shutdown` is how `Shutdown` and `Close` in the `finally` end, where a
      throw escapes. */
  datatype NetworkIo = NetworkIo(create: Status, connect: Status, sends: nat -> Step,
                                 receipts: seq<Receipt>, keepsConnectionOnError: bool,
                                 shutdown: Status)

  /** The socket's life: constructed, connected, and `Shutdown` and `Close`
      called by the `finally`. */
  datatype SocketTrace = SocketTrace(created: bool, connected: bool, closed: bool)

  const Untouched: SocketTrace := SocketTrace(false, false, false)

  const NoIpAddressOrPortMessage: string :=
    Localization.Dash3(Localization.Error, Localization.ErrorConnectToDesignatedPrinter,
                       Localization.NoIpAddressOrPort)

  predicate ValidTarget(s: PrinterSettings) {
    s.networkIpAddress.Some? && s.networkPort > 0
  }

  predicate PassesValidation(commands: string, s: PrinterSettings) {
    |commands| > 0 && ValidTarget(s)
  }

  /** Every send returns and, when the caller waits, so does every receive:
      the `try` block runs to its end. */
  ghost predicate TryCompletes(settings: PrinterSettings, waitForResponse: bool, io: NetworkIo) {
    AllDone(io.sends, 0, settings.copies) && (waitForResponse ==> Drain(io.receipts, 0).Drained?)
  }

  function Print(commands: string, settings: PrinterSettings, waitForResponse: bool, io: NetworkIo)
    : (r: Run<SocketTrace>)
    // validation, in source order, before any socket exists
    ensures |commands| == 0 ==> r == Run(Returned(Failure(Localization.NoCommandMessage)), Untouched)
    ensures |commands| > 0 && !ValidTarget(settings) ==>
              r == Run(Returned(Failure(NoIpAddressOrPortMessage)), Untouched)
    // a throwing constructor escapes, and so does a throwing shutdown in the
    // `finally`, whatever the `try` block was about to return
    ensures r.outcome.Raised? <==>
              PassesValidation(commands, settings) && (io.create.Throws? || (r.resources.closed && io.shutdown.Throws?))
    ensures r.outcome.Raised? && io.create.Throws? ==> r.outcome.exception == Thrown(io.create.message)
    ensures r.outcome.Raised? && io.create.Ok? ==> r.outcome.exception == Thrown(io.shutdown.message)
    ensures r.resources.created <==> PassesValidation(commands, settings) && io.create.Ok?
    // success exactly when the try block ran to its end
    ensures r.Succeeded() <==>
              && PassesValidation(commands, settings) && io.create.Ok? && io.connect.Ok? && io.shutdown.Ok?
              && TryCompletes(settings, waitForResponse, io)
    // the byte count is the sum of what the sends returned
    ensures r.Succeeded() ==> r.outcome.value.bytesSent == Sum(io.sends, 0, settings.copies)
    ensures r.Succeeded() && !waitForResponse ==> r.outcome.value.message == ""
    ensures r.Succeeded() && waitForResponse ==>
              r.outcome.value.message == Drain(io.receipts, 0).message
    // an exception: its text is the message and no bytes are reported
    ensures r.outcome.Returned? && !r.outcome.value.successful ==> r.outcome.value.bytesSent == 0
    ensures PassesValidation(commands, settings) && io.create.Ok? && io.connect.Throws? ==>
              r.FailedWith(io.connect.message)
    // the first send that throws ends the copy loop with its text
    ensures PassesValidation(commands, settings) && io.create.Ok? && io.connect.Ok?
            && (io.keepsConnectionOnError ==> io.shutdown.Ok?)
            && !AllDone(io.sends, 0, settings.copies) ==>
              exists i: nat ::
                && i < settings.copies && io.sends(i).Failed?
                && (forall j: nat :: j < i ==> io.sends(j).Done?)
                && r.FailedWith(io.sends(i).message)
    // a receive that throws replaces the answer with its text
    ensures PassesValidation(commands, settings) && io.create.Ok? && io.connect.Ok?
            && (io.keepsConnectionOnError ==> io.shutdown.Ok?)
            && AllDone(io.sends, 0, settings.copies)
            && waitForResponse && Drain(io.receipts, 0).DrainThrew? ==>
              r.FailedWith(Drain(io.receipts, 0).message)
    // the finally block shuts down a socket that still reports Connected
    ensures r.resources.closed <==>
              r.resources.connected && (TryCompletes(settings, waitForResponse, io) || io.keepsConnectionOnError)
    ensures r.resources.connected <==> r.resources.created && io.connect.Ok?
  {
    if |commands| == 0 then
      Run(Returned(Failure(Localization.NoCommandMessage)), Untouched)
    else if !ValidTarget(settings) then
      Run(Returned(Failure(NoIpAddressOrPortMessage)), Untouched)
    else
      match io.create
      case Throws(m) => Run(Raised(Thrown(m)), Untouched)
      case Ok =>
        match io.connect
        case Throws(m) => Run(Returned(Failure(m)), SocketTrace(true, false, false))
        case Ok =>
          var broken := SocketTrace(true, true, io.keepsConnectionOnError);
          var failed := (m: string) =>
            if io.keepsConnectionOnError && io.shutdown.Throws? then Run(Raised(Thrown(io.shutdown.message)), broken)
            else Run(Returned(Failure(m)), broken);
          var finished := (result: PrintResult) =>
            if io.shutdown.Throws? then Run(Raised(Thrown(io.shutdown.message)), SocketTrace(true, true, true))
            else Run(Returned(result), SocketTrace(true, true, true));
          match Copies(io.sends, settings.copies)
          case Interrupted(at, m) =>
            assert io.sends(at).Failed? && forall j: nat :: j < at ==> io.sends(j).Done?;
            failed(m)
          case Completed(total) =>
            if !waitForResponse then
              finished(PrintResult(true, "", total))
            else
              match Drain(io.receipts, 0)
              case DrainThrew(_, m) => failed(m)
              case Drained(response, _) =>
                finished(PrintResult(true, response, total))
  }

  /** A peer that answers "OK\r\n" in one packet and then has nothing more to
      send yields exactly that answer. */
  lemma SingleAnswer(commands: string, settings: PrinterSettings, io: NetworkIo)
    requires PassesValidation(commands, settings) && io.create.Ok? && io.connect.Ok? && io.shutdown.Ok?
    requires forall i: nat :: i < settings.copies ==> io.sends(i).Done?
    requires io.receipts == [Received(4, "OK\r\n", 0)]
    ensures Print(commands, settings, true, io).Succeeded()
    ensures Print(commands, settings, true, io).outcome.value.message == "OK\r\n"
  {
    assert Drain(io.receipts, 0) == Drained("OK\r\n", 1);
  }

  /** A print that sent every copy still ends in an exception when the
      socket fails to shut down. */
  lemma ShutdownFailureEscapes(commands: string, settings: PrinterSettings, io: NetworkIo)
    requires PassesValidation(commands, settings) && io.create.Ok? && io.connect.Ok?
    requires forall i: nat :: i < settings.copies ==> io.sends(i).Done?
    requires io.shutdown == Throws("An existing connection was forcibly closed by the remote host.")
    ensures Print(commands, settings, false, io).outcome
            == Raised(Thrown("An existing connection was forcibly closed by the remote host."))
  {
  }

  /** A peer that keeps announcing more data is read until it closes; the
      answer is every chunk in order. */
  lemma TwoChunksThenClose(a: string, b: string)
    requires |a| > 0 && |b| > 0
    ensures Drain([Received(|a|, a, 1), Received(|b|, b, 1)], 0) == Drained(a + b, 3)
  {
    var rs := [Received(|a|, a, 1), Received(|b|, b, 1)];
    assert Drain(rs, 2) == Drained("", 3);
    assert Drain(rs, 1) == Drained(b, 3);
  }

  /** Settings from the parameterless constructor name port 0, so the network
      transport refuses them before creating a socket. */
  lemma DefaultSettingsRefused(commands: string, waitForResponse: bool, io: NetworkIo)
    requires |commands| > 0
    ensures Print(commands, Default().(communicationType := Network), waitForResponse, io)
            == Run(Returned(Failure(NoIpAddressOrPortMessage)), Untouched)
  {
  }
}
