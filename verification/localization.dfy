/** The library's localised message texts. The resource file holding the
    translations is not part of this model, so each text is represented by
    its resource key; the formats that combine them are the library's own. */
module Localization {

  const Error: string := "Error"
  const NoCommandToExecute: string := "NoCommandToExecute"
  const ErrorConnectToDesignatedPrinter: string := "ErrorConnectToDesignatedPrinter"
  const InvalidSerialData: string := "InvalidSerialData"
  const InvalidStopBits: string := "InvalidStopBits"
  const InvalidLptPortName: string := "InvalidLptPortName"
  const ZebraConnectionFailed: string := "ZebraConnectionFailed"
  const PrintError: string := "PrintError"
  const ErrorMessage: string := "ErrorMessage"
  const NoIpAddressOrPort: string := "NoIpAddressOrPort"
  /** The resource key is spelled this way in the library. */
  const PritnerNameEmpty: string := "PritnerNameEmpty"
  const EmptyPrintCommands: string := "EmptyPrintCommands"
  const AccessRegistryKey: string := "AccessRegistryKey"
  const WriteError: string := "WriteError"
  const ReadError: string := "ReadError"
  const NoUsbPrinterFound: string := "NoUsbPrinterFound"
  const ReadRequestTimeOut: string := "ReadRequestTimeOut"
  const IOException: string := "IOException"
  const ErrorOccured: string := "ErrorOccured"
  const CannotBindToEmptyZPLTemplate: string := "CannotBindToEmptyZPLTemplate"
  const InvalidZPL: string := "InvalidZPL"
  const EmptyQuery: string := "EmptyQuery"
  const InvalidConnectionString: string := "InvalidConnectionString"

  /** `string.Format("{0} - {1}", a, b)`. */
  function Dash2(a: string, b: string): string {
    a + " - " + b
  }

  /** `string.Format("{0} - {1} - {2}", a, b, c)`. */
  function Dash3(a: string, b: string, c: string): string {
    a + " - " + b + " - " + c
  }

  /** `string.Format("{0}: {1}", a, b)`. */
  function Colon(a: string, b: string): string {
    a + ": " + b
  }

  /** The "Error - no command to execute" text every transport and the dispatcher share. */
  const NoCommandMessage: string := Dash2(Error, NoCommandToExecute)
}
