/** `PrinterSettings`: the connection profile of one printer, with the
    enumerations it refers to. The `Dpi` field is floating point and is not
    modelled. */
module Settings {

  import opened Wrappers

  datatype CommunicationType = USB | Serial | Parallel | Network | PrinterDriver | Stream

  /** System.IO.Ports.StopBits; `None` is the value a port cannot use. */
  datatype StopBits = None | One | Two | OnePointFive

  /** System.IO.Ports.Parity. */
  datatype Parity = None | Odd | Even | Mark | Space

  /** System.IO.Ports.Handshake. */
  datatype Handshake = None | XOnXOff | RequestToSend | RequestToSendXOnXOff

  datatype PrintOrientation = Portrait | Landscape90 | Portrait180 | Landscape270

  /** Only ZPL is named by the library code modelled here. */
  datatype ProgrammingLanguage = ZPL | OtherLanguage(name: string)

  /** Printer memory locations and the letter the ZPL commands use for each. */
  datatype PrinterMemoryType = CompactFlash | MemoryCard | Flash | DRAM {
    function Letter(): char {
      match this
      case CompactFlash => 'A'
      case MemoryCard => 'B'
      case Flash => 'E'
      case DRAM => 'R'
    }
  }

  lemma MemoryLettersDistinct(a: PrinterMemoryType, b: PrinterMemoryType)
    ensures a.Letter() == b.Letter() <==> a == b
  {
  }

  /** An IP address, kept as its textual form. */
  datatype IpAddress = IpAddress(text: string)

  /** `IPAddress.None`, the broadcast address 255.255.255.255. */
  const IpAddressNone: IpAddress := IpAddress("255.255.255.255")

  datatype PrinterSettings = PrinterSettings(
    copies: int,
    useDefaultPrinter: bool,
    usePrintersRam: bool,
    programmingLanguage: ProgrammingLanguage,
    printOrientation: PrintOrientation,
    printerName: Option<string>,
    communicationType: CommunicationType,
    serialPortName: Option<string>,
    serialPortBaudRate: int,
    serialPortParity: Parity,
    serialPortStopBits: StopBits,
    serialPortDataBits: int,
    serialPortFlowControl: Handshake,
    parallelPortName: Option<string>,
    networkIpAddress: Option<IpAddress>,
    networkPort: int,
    networkTimeout: int)

  /** A settings object before any constructor statement ran: every field
      holds its C# default (0, false, null, the enumeration's zero member).
      The language is overwritten by every constructor. */
  const Blank: PrinterSettings := PrinterSettings(
    0, false, false, ZPL, Portrait, Option.None, USB,
    Option.None, 0, Parity.None, StopBits.None, 0, Handshake.None,
    Option.None, Option.None, 0, 0)

  /** `DefaultInit`, run first by every constructor. */
  function DefaultInit(s: PrinterSettings): (r: PrinterSettings)
    ensures r.copies == 1 && r.programmingLanguage == ZPL
    ensures r.printOrientation == Portrait && !r.usePrintersRam
    ensures r.(copies := s.copies, programmingLanguage := s.programmingLanguage,
               printOrientation := s.printOrientation, usePrintersRam := s.usePrintersRam) == s
  {
    s.(copies := 1, printOrientation := Portrait, programmingLanguage := ZPL, usePrintersRam := false)
  }

  /** Settings every constructor leaves as `DefaultInit` made them. */
  predicate HasDefaultInit(s: PrinterSettings) {
    s.programmingLanguage == ZPL && s.printOrientation == Portrait && !s.usePrintersRam
  }

  /** `new PrinterSettings()`: USB with an empty name, and serial, parallel and
      network defaults filled in. */
  function Default(): (r: PrinterSettings)
    ensures HasDefaultInit(r) && r.copies == 1
    ensures r.communicationType == USB && r.printerName == Some("")
    ensures r.serialPortName == Some("COM1") && r.serialPortBaudRate == 9600
    ensures r.serialPortStopBits == StopBits.One && r.serialPortDataBits == 8
    ensures r.serialPortFlowControl == Handshake.XOnXOff && r.serialPortParity == Parity.None
    ensures r.parallelPortName == Some("LPT1")
    ensures r.networkIpAddress == Some(IpAddressNone) && r.networkPort == 0 && r.networkTimeout == 1500
  {
    DefaultInit(Blank).(
      printerName := Some(""),
      serialPortName := Some("COM1"),
      parallelPortName := Some("LPT1"),
      serialPortBaudRate := 9600,
      serialPortStopBits := StopBits.One,
      serialPortDataBits := 8,
      serialPortFlowControl := Handshake.XOnXOff,
      serialPortParity := Parity.None,
      networkIpAddress := Some(IpAddressNone),
      networkPort := 0,
      networkTimeout := 1500,
      communicationType := USB)
  }

  /** `new PrinterSettings(printerName)`: USB; the port names stay null and
      the serial fields keep their zero defaults. */
  function ForUsb(printerName: Option<string>): (r: PrinterSettings)
    ensures HasDefaultInit(r) && r.copies == 1
    ensures r.communicationType == USB && r.printerName == printerName
    ensures r.serialPortName.None? && r.parallelPortName.None? && r.networkIpAddress.None?
    ensures r.serialPortStopBits == StopBits.None && r.networkPort == 0
  {
    DefaultInit(Blank).(printerName := printerName, communicationType := USB)
  }

  /** `new PrinterSettings(ip, port, timeout)`. */
  function ForNetwork(ip: Option<IpAddress>, port: int, timeout: int): (r: PrinterSettings)
    ensures HasDefaultInit(r) && r.copies == 1
    ensures r.communicationType == Network
    ensures r.networkIpAddress == ip && r.networkPort == port && r.networkTimeout == timeout
    ensures r.printerName.None? && r.serialPortName.None? && r.parallelPortName.None?
  {
    DefaultInit(Blank).(networkIpAddress := ip, networkPort := port, networkTimeout := timeout,
                        communicationType := Network)
  }

  /** `new PrinterSettings(ip)`: the optional arguments default to port 9100
      and a timeout of 1500 ms. */
  function ForNetworkWithDefaults(ip: Option<IpAddress>): (r: PrinterSettings)
    ensures r.networkPort == 9100 && r.networkTimeout == 1500
    ensures r.communicationType == Network && r.networkIpAddress == ip && r.copies == 1
  {
    ForNetwork(ip, 9100, 1500)
  }

  /** `new PrinterSettings(parallelPort, copies)`: the copy count given here
      overrides the `DefaultInit` one. */
  function ForParallel(parallelPort: Option<string>, copies: int): (r: PrinterSettings)
    ensures HasDefaultInit(r)
    ensures r.communicationType == Parallel
    ensures r.parallelPortName == parallelPort && r.copies == copies
    ensures r.printerName.None? && r.serialPortName.None?
  {
    DefaultInit(Blank).(parallelPortName := parallelPort, copies := copies,
                        communicationType := Parallel)
  }

  /** `new PrinterSettings(serialPortName, baudRate, stopBits, dataBits, flowControl, portParity)`. */
  function ForSerial(serialPortName: Option<string>, baudRate: int, stopBits: StopBits, dataBits: int,
                     flowControl: Handshake, portParity: Parity): (r: PrinterSettings)
    ensures HasDefaultInit(r) && r.copies == 1
    ensures r.communicationType == Serial
    ensures r.serialPortName == serialPortName && r.serialPortBaudRate == baudRate
    ensures r.serialPortStopBits == stopBits && r.serialPortDataBits == dataBits
    ensures r.serialPortFlowControl == flowControl && r.serialPortParity == portParity
    ensures r.printerName.None? && r.parallelPortName.None?
  {
    DefaultInit(Blank).(serialPortName := serialPortName, serialPortBaudRate := baudRate,
                        serialPortStopBits := stopBits, serialPortDataBits := dataBits,
                        serialPortFlowControl := flowControl, serialPortParity := portParity,
                        communicationType := Serial)
  }
}
