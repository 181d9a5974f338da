/** `PrintService`: the public entry points. `ExecuteCommand` routes a command
    to the transport the settings name; the printer utilities build font
    upload and memory listing commands on top of it. */
module PrintService {

  import opened Wrappers
  import opened Text
  import opened Results
  import opened Settings
  import opened Fonts
  import Hex
  import Localization
  import SerialPrint
  import LptPrint
  import NetworkPrint
  import UsbPrint

  /** What every transport's hardware does when it is asked. */
  datatype Printers = Printers(serial: SerialPrint.SerialIo, parallel: LptPrint.LptIo,
                               network: NetworkPrint.NetworkIo,
                               usbSystem: UsbPrint.UsbSystem, usb: UsbPrint.UsbIo)

  const NotSupportedMessage: string := "This type of communication is not supported."

  // ---------------------------------------------------------------------------
  // Transport overloads

  function PrintUsb(commands: string, printerName: Option<string>, copies: int, waitForResponse: bool,
                    env: Printers): (r: Outcome<PrintResult>)
  {
    UsbPrint.Print(commands, printerName, copies, waitForResponse, env.usbSystem, env.usb).outcome
  }

  /** The settings overload calls the three-argument overload, so the
      `waitForResponse` it was given is dropped. */
  function PrintUsbWithSettings(commands: string, settings: PrinterSettings, waitForResponse: bool,
                                env: Printers): (r: Outcome<PrintResult>)
    ensures r == UsbPrint.Print(commands, settings.printerName, settings.copies, false,
                                env.usbSystem, env.usb).outcome
  {
    PrintUsb(commands, settings.printerName, settings.copies, false, env)
  }

  function PrintNetwork(commands: string, settings: PrinterSettings, waitForResponse: bool,
                        env: Printers): (r: Outcome<PrintResult>)
  {
    NetworkPrint.Print(commands, settings, waitForResponse, env.network).outcome
  }

  /** The address overload builds network settings with the default timeout. */
  function PrintNetworkTo(commands: string, ip: Option<IpAddress>, port: int, copies: int,
                          waitForResponse: bool, env: Printers): (r: Outcome<PrintResult>)
    ensures var s := NetworkPrint.Print(commands, ForNetwork(ip, port, 1500).(copies := copies),
                                        waitForResponse, env.network);
            r == s.outcome
  {
    PrintNetwork(commands, ForNetwork(ip, port, 1500).(copies := copies, programmingLanguage := ZPL),
                 waitForResponse, env)
  }

  function PrintSerial(commands: string, settings: PrinterSettings, env: Printers): (r: Outcome<PrintResult>)
  {
    SerialPrint.Print(commands, settings, env.serial).outcome
  }

  /** The port overload builds serial settings from its arguments. */
  function PrintSerialOn(commands: string, portName: Option<string>, baudRate: int, dataBits: int,
                         flowControl: Handshake, parity: Parity, stopBits: StopBits, copies: int,
                         env: Printers): (r: Outcome<PrintResult>)
    ensures r == SerialPrint.Print(commands, ForSerial(portName, baudRate, stopBits, dataBits, flowControl, parity)
                                               .(copies := copies), env.serial).outcome
  {
    PrintSerial(commands, ForSerial(portName, baudRate, stopBits, dataBits, flowControl, parity)
                            .(copies := copies, programmingLanguage := ZPL), env)
  }

  function PrintParallel(commands: string, portName: Option<string>, copies: int, env: Printers)
    : (r: Outcome<PrintResult>)
  {
    LptPrint.Print(commands, portName, copies, env.parallel).outcome
  }

  /** The settings overload passes only the port name: the copy count takes
      its default of 1. */
  function PrintParallelWithSettings(commands: string, settings: PrinterSettings, env: Printers)
    : (r: Outcome<PrintResult>)
    ensures r == LptPrint.Print(commands, settings.parallelPortName, 1, env.parallel).outcome
  {
    PrintParallel(commands, settings.parallelPortName, 1, env)
  }

  /** The USB settings overload never waits for an answer: whatever the
      caller passes, the printer is not read back. */
  lemma UsbSettingsOverloadNeverWaits(commands: string, settings: PrinterSettings, env: Printers)
    ensures PrintUsbWithSettings(commands, settings, true, env) == PrintUsbWithSettings(commands, settings, false, env)
    ensures PrintUsbWithSettings(commands, settings, true, env)
            == PrintUsb(commands, settings.printerName, settings.copies, false, env)
  {
  }

  /** The parallel settings overload prints one copy, whatever the settings ask for. */
  lemma ParallelSettingsOverloadPrintsOnce(commands: string, settings: PrinterSettings, copies: int, env: Printers)
    ensures PrintParallelWithSettings(commands, settings.(copies := copies), env)
            == PrintParallel(commands, settings.parallelPortName, 1, env)
  {
  }

  // ---------------------------------------------------------------------------
  // The dispatcher

  function ExecuteCommand(commands: string, settings: PrinterSettings, waitForResponse: bool, env: Printers)
    : (r: Outcome<PrintResult>)
    // an empty command is refused before any transport is chosen
    ensures |commands| == 0 ==> r == Returned(Failure(Localization.NoCommandMessage))
    // otherwise the communication type picks the transport
    ensures |commands| > 0 && settings.communicationType == Network ==>
              r == NetworkPrint.Print(commands, settings, waitForResponse, env.network).outcome
    ensures |commands| > 0 && settings.communicationType == Serial ==>
              r == SerialPrint.Print(commands, settings, env.serial).outcome
    ensures |commands| > 0 && settings.communicationType == Parallel ==>
              r == LptPrint.Print(commands, settings.parallelPortName, 1, env.parallel).outcome
    ensures |commands| > 0 && settings.communicationType == USB ==>
              r == UsbPrint.Print(commands, settings.printerName, settings.copies, waitForResponse,
                                  env.usbSystem, env.usb).outcome
    ensures |commands| > 0 && settings.communicationType in {PrinterDriver, Stream} ==>
              r == Raised(NotImplemented(NotSupportedMessage))
  {
    if |commands| == 0 then Returned(Failure(Localization.NoCommandMessage))
    else
      match settings.communicationType
      case Network => PrintNetwork(commands, settings, waitForResponse, env)
      case Serial => PrintSerial(commands, settings, env)
      case Parallel => PrintParallelWithSettings(commands, settings, env)
      case USB => PrintUsb(commands, settings.printerName, settings.copies, waitForResponse, env)
      case _ => Raised(NotImplemented(NotSupportedMessage))
  }

  /** `Print` hands everything to the dispatcher. */
  function Print(commands: string, settings: PrinterSettings, waitForResponse: bool, env: Printers)
    : (r: Outcome<PrintResult>)
    ensures r == ExecuteCommand(commands, settings, waitForResponse, env)
  {
    ExecuteCommand(commands, settings, waitForResponse, env)
  }

  /** The serial route does not look at `waitForResponse`. */
  lemma SerialIgnoresWait(commands: string, settings: PrinterSettings, env: Printers)
    requires settings.communicationType == Serial
    ensures ExecuteCommand(commands, settings, true, env) == ExecuteCommand(commands, settings, false, env)
  {
  }

  /** The parallel route prints one copy whatever the settings ask for, and
      never waits for an answer. */
  lemma ParallelPrintsOneCopy(commands: string, settings: PrinterSettings, copies: int,
                              waitForResponse: bool, env: Printers)
    requires settings.communicationType == Parallel
    ensures ExecuteCommand(commands, settings, waitForResponse, env)
            == ExecuteCommand(commands, settings.(copies := copies), false, env)
  {
  }

  /** The network route does pass `waitForResponse` on: a peer that answers
      is heard only when the caller waits. */
  lemma NetworkForwardsWait(commands: string, settings: PrinterSettings, env: Printers)
    requires settings.communicationType == Network
    requires NetworkPrint.PassesValidation(commands, settings)
    requires env.network.create.Ok? && env.network.connect.Ok? && env.network.shutdown.Ok?
    requires forall i: nat :: i < settings.copies ==> env.network.sends(i).Done?
    requires env.network.receipts == [NetworkPrint.Received(4, "OK\r\n", 0)]
    ensures ExecuteCommand(commands, settings, true, env).value.message == "OK\r\n"
    ensures ExecuteCommand(commands, settings, false, env).value.message == ""
  {
    NetworkPrint.SingleAnswer(commands, settings, env.network);
  }

  /** An empty command is refused even for a communication type that has no
      transport. */
  lemma EmptyCommandNeverThrows(settings: PrinterSettings, waitForResponse: bool, env: Printers)
    ensures ExecuteCommand("", settings, waitForResponse, env).Returned?
  {
  }

  // ---------------------------------------------------------------------------
  // Printer utilities

  /** `^XA^HW{m}:^XZ`: list the directory of one memory. */
  function MemoryListingCommand(m: PrinterMemoryType): string {
    "^XA^HW" + [m.Letter()] + ":^XZ"
  }

  /** `~DU{m}:{name}.FNT,{length},`: the head of a font download. */
  function UploadHeader(fontName: string, m: PrinterMemoryType, length: nat): string {
    "~DU" + [m.Letter()] + ":" + fontName + ".FNT," + Decimal(length) + ","
  }

  /** The command `UploadFontToPrinter` sends for the font file's bytes. */
  function FontUploadCommand(fontBytes: seq<Hex.byte>, fontName: string, m: PrinterMemoryType,
                             waitForResponse: bool): (r: string)
    ensures StartsWith(r, UploadHeader(fontName, m, |fontBytes|))
    // two upper-case hexadecimal digits per byte follow the header and read back as the font
    ensures var start := |UploadHeader(fontName, m, |fontBytes|)|;
            var tail := if waitForResponse then |MemoryListingCommand(m)| else 0;
            && |r| == start + 2 * |fontBytes| + tail
            && Hex.Decode(r[start..start + 2 * |fontBytes|]) == Some(fontBytes)
    // waiting for an answer appends a listing of the same memory
    ensures waitForResponse ==> EndsWith(r, MemoryListingCommand(m))
  {
    var fontData := RemoveChar(Hex.BitConverterString(fontBytes), '-');
    Hex.SeparatorsRemoved(fontBytes);
    Hex.DecodeEncode(fontBytes);
    var header := UploadHeader(fontName, m, |fontBytes|);
    var command := header + fontData;
    assert command[|header|..|header| + 2 * |fontBytes|] == fontData;
    if waitForResponse then
      var r := command + MemoryListingCommand(m);
      assert r[|header|..|header| + 2 * |fontBytes|] == fontData;
      r
    else command
  }

  /** `UploadFontToPrinter`, with the bytes `File.ReadAllBytes` returned. */
  function UploadFontToPrinter(fontBytes: seq<Hex.byte>, fontName: string, m: PrinterMemoryType,
                               settings: PrinterSettings, waitForResponse: bool, env: Printers)
    : (r: Outcome<PrintResult>)
    ensures r == ExecuteCommand(FontUploadCommand(fontBytes, fontName, m, waitForResponse),
                                settings, waitForResponse, env)
  {
    ExecuteCommand(FontUploadCommand(fontBytes, fontName, m, waitForResponse), settings, waitForResponse, env)
  }

  /** `ListPrinterMemory`: the printer's answer to the listing command, or ""
      when the call did not succeed. */
  function ListPrinterMemory(settings: PrinterSettings, m: PrinterMemoryType, env: Printers)
    : (r: Outcome<string>)
    ensures var result := ExecuteCommand(MemoryListingCommand(m), settings, true, env);
            && (result.Raised? <==> r.Raised?)
            && (result.Raised? ==> r.exception == result.exception)
            && (result.Returned? && result.value.successful ==> r == Returned(result.value.message))
            && (result.Returned? && !result.value.successful ==> r == Returned(""))
  {
    match ExecuteCommand(MemoryListingCommand(m), settings, true, env)
    case Raised(e) => Raised(e)
    case Returned(result) => Returned(if result.successful then result.message else "")
  }

  /** `{m}:{SHORTNAME}.FNT`: how a stored font appears in a memory listing. */
  function FontEntry(f: FontInfo, m: PrinterMemoryType): string {
    [m.Letter()] + ":" + ToUpper(ShortName(f)) + ".FNT"
  }

  /** The loop over the fonts: false at the first one missing from the listing. */
  function AllFontsListed(memory: string, fonts: seq<FontInfo>, m: PrinterMemoryType): (b: bool)
    ensures b <==> forall i :: 0 <= i < |fonts| ==> Contains(memory, FontEntry(fonts[i], m))
  {
    if |fonts| == 0 then true
    else if !Contains(memory, FontEntry(fonts[0], m)) then false
    else AllFontsListed(memory, fonts[1..], m)
  }

  /** `CheckIfPrinterContainsFonts`. */
  function CheckIfPrinterContainsFonts(settings: PrinterSettings, fonts: seq<FontInfo>, m: PrinterMemoryType,
                                       env: Printers): (r: Outcome<bool>)
    // nothing to look for: yes, without asking the printer
    ensures |fonts| == 0 ==> r == Returned(true)
    // otherwise every font's entry must occur in the listing
    ensures |fonts| > 0 && ListPrinterMemory(settings, m, env).Returned? ==>
              r == Returned(forall i :: 0 <= i < |fonts| ==>
                              Contains(ListPrinterMemory(settings, m, env).value, FontEntry(fonts[i], m)))
    ensures |fonts| > 0 && ListPrinterMemory(settings, m, env).Raised? ==>
              r == Raised(ListPrinterMemory(settings, m, env).exception)
  {
    if |fonts| == 0 then Returned(true)
    else
      match ListPrinterMemory(settings, m, env)
      case Raised(e) => Raised(e)
      case Returned(memory) => Returned(AllFontsListed(memory, fonts, m))
  }

  /** With no fonts to check the printer is not consulted: any printers give
      the same answer. */
  lemma NoFontsNoQuery(settings: PrinterSettings, m: PrinterMemoryType, env1: Printers, env2: Printers)
    ensures CheckIfPrinterContainsFonts(settings, [], m, env1) == CheckIfPrinterContainsFonts(settings, [], m, env2)
  {
  }

  /** A printer that cannot be listed holds none of the fonts asked for. */
  lemma UnlistedPrinterLacksFonts(settings: PrinterSettings, fonts: seq<FontInfo>, m: PrinterMemoryType,
                                  env: Printers)
    requires |fonts| > 0
    requires ExecuteCommand(MemoryListingCommand(m), settings, true, env).Returned?
    requires !ExecuteCommand(MemoryListingCommand(m), settings, true, env).value.successful
    ensures CheckIfPrinterContainsFonts(settings, fonts, m, env) == Returned(false)
  {
    var entry := FontEntry(fonts[0], m);
    assert !Contains("", entry) by {
      assert |entry| > 0;
      ContainsIff("", entry);
    }
  }

  /** `GetFontFullName`: the name, then "Bold", then "Italic", each style
      after the separator. */
  function GetFontFullName(f: FontInfo, separator: string): (r: string)
    ensures r == f.name + (if f.bold then separator + "Bold" else "")
                        + (if f.italic then separator + "Italic" else "")
  {
    var parts := [f.name] + (if f.bold then ["Bold"] else []) + (if f.italic then ["Italic"] else []);
    var r := Join(separator, parts);
    if f.bold && f.italic then
      assert parts == [f.name, "Bold", "Italic"];
      assert Join(separator, parts[1..]) == "Bold" + separator + Join(separator, ["Italic"]);
      r
    else if f.bold || f.italic then
      assert parts == [f.name, if f.bold then "Bold" else "Italic"];
      assert Join(separator, parts[1..]) == parts[1];
      r
    else r
  }
}
