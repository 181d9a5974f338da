# PrintServiceLibrary in Dafny

A functional model of PrintServiceLibrary, a .NET library that sends printer
command text, typically Zebra ZPL, to a label printer over one of four
transports. The transports are USB, a serial port, a parallel (LPT) port and
a TCP socket. The model has three parts.

- **The dispatcher.** `PrintService.ExecuteCommand` refuses an empty command.
  Otherwise it picks the transport from the settings' `CommunicationType`. The
  public overloads (`PrintUSB`, `PrintNetwork`, `PrintSerial`, `PrintParallel`,
  `Print`) build settings and forward to it or to a transport. The printer
  utilities build on it:
  - a font upload command that writes the font file as upper-case hexadecimal;
  - a memory listing;
  - a check that fonts are stored on the printer.
- **The transports.** Each `Print` is a pure function of its arguments and an
  I/O oracle. The oracle says whether each modelled operating-system call
  (construct, open, connect, write, send, receive, close, shutdown) returns or
  throws. The USB enumeration calls are assumed to return (see "Left out"). The result is a
  `PrintResult` together with a trace of the handles and sockets acquired and
  released, so "closed on every path" is a property of the returned value.
  USB printing also matches devices. It filters the enumerated device paths
  by vendor id, cuts out the serial number, scans the device-class registry
  keys for the port number, and checks that the named print queue is attached
  to that port.
- **The helpers.** These are:
  - font short names (at most 8 characters) and full names;
  - the `PrinterSettings` constructors;
  - database connection strings, the credential check and the checks of `ExecuteSQL`;
  - the rough ZPL check and the replacement of data fields in an XML label template;
  - removal of U+FEFF from templates;
  - de-duplication of template fonts, the binding filter, and the byte count of a raw SDK command.

Strings are `seq<char>`. A byte count of ASCII-encoded text (`Encoding.ASCII`
writes one byte per character) is the length. A UTF-8 byte count is computed
per character. An exception that leaves a library method is the `Raised`
case of `Results.Outcome`. A `string` or object field that may be `null` is an
`Option`. Localised message texts are represented by their resource keys, and
the formats that combine them (`"{0} - {1}"` and so on) are the library's own.
C# `int` arithmetic that can overflow (`length * copies` in the LPT and USB
transports) is wrapped to 32 bits by `Io.Int32`. `long` accumulators are left
unbounded.

The modules follow the library's files:

| module | file |
|---|---|
| `PrintService` | PrintService.cs |
| `SerialPrint`, `LptPrint`, `NetworkPrint`, `UsbPrint` | Print/SerialPrint.cs, Print/LPTPrint.cs, Print/NetworkPrint.cs, Print/UsbPrint.cs |
| `DatabaseQuery` | Print/DatabaseQuery.cs, PrintStructures/DatabaseSettings.cs |
| `Settings`, `Results` | PrintStructures/PrinterSettings.cs and the enumerations, PrintStructures/PrintResult.cs |
| `Fonts`, `DataBinder`, `Utility`, `NeodynamicWrapper` | PrintUtilities/*.cs |
| `Io`, `Hex`, `Text`, `Localization`, `Wrappers` | shared: the copy loop, hexadecimal, .NET string operations, message texts, `Option` |

The forwarding overloads `PrintService.PrintUsb`, `PrintNetwork`,
`PrintSerial` and `PrintParallel` pass their arguments straight to the
transport. What they promise is stated on the overloads and routes that
call them.

## Model

| member | source | states |
|---|---|---|
| PrintService.ExecuteCommand | PrintService.cs:240-264 | an empty command is answered with the NoCommandToExecute failure and no transport runs. Otherwise Network gets the settings and the wait flag, Serial gets the settings only, Parallel gets only the port name with one copy, and USB gets printer name, copies and wait flag. PrinterDriver and Stream raise NotImplementedException with its text |
| PrintService.EmptyCommandNeverThrows | PrintService.cs:242-249 | the empty command returns a result even for a communication type that has no transport |
| PrintService.SerialIgnoresWait | PrintService.cs:255-256 | the serial route gives the same outcome whether or not the caller waits for a response |
| PrintService.NetworkForwardsWait | PrintService.cs:253-254 | the network route passes the wait flag on: a peer answering "OK\r\n" is heard only when the caller waits |
| PrintService.ParallelPrintsOneCopy | PrintService.cs:257-258 | the parallel route's outcome depends neither on the settings' copy count nor on `waitForResponse` |
| PrintService.Print | PrintService.cs:24-27 | `Print` is the dispatcher with the same arguments |
| PrintService.PrintUsbWithSettings | PrintService.cs:51-54 | the settings overload prints the settings' printer name and copies and never waits, whatever wait flag it was given |
| PrintService.UsbSettingsOverloadNeverWaits | PrintService.cs:51-54 | passing true or false as the wait flag to the USB settings overload gives the same outcome |
| PrintService.PrintNetworkTo | PrintService.cs:71-80 | the address overload prints with network settings for that address and port, the default 1500 ms timeout and the given copies |
| PrintService.PrintSerialOn | PrintService.cs:105-114 | the port overload prints with serial settings built from its six port arguments and the given copies |
| PrintService.PrintParallelWithSettings | PrintService.cs:139-142 | the settings overload prints one copy on the settings' parallel port |
| PrintService.ParallelSettingsOverloadPrintsOnce | PrintService.cs:139-142 | changing the settings' copy count does not change what the parallel settings overload does |
| PrintService.FontUploadCommand | PrintService.cs:157-166 | the command starts with `~DU{m}:{name}.FNT,{length},`. Two upper-case hex digits per font byte follow, and they decode back to the font's bytes. With a wait the listing command `^XA^HW{m}:^XZ` ends it. The total length is fixed by these parts |
| PrintService.UploadFontToPrinter | PrintService.cs:155-169 | the upload sends that command through the dispatcher with the caller's settings and wait flag |
| PrintService.ListPrinterMemory | PrintService.cs:177-186 | the listing command is sent with a wait. A successful answer is returned as is, a failed one becomes "", and an exception escapes unchanged |
| PrintService.AllFontsListed | PrintService.cs:282-290 | the loop answers true exactly when every font's entry occurs in the listing |
| PrintService.CheckIfPrinterContainsFonts | PrintService.cs:273-291 | an empty font list is true. Otherwise the answer is true exactly when every font's `{m}:{SHORTNAME}.FNT` (short name upper-cased) occurs in the listing of that memory. A raised listing propagates |
| PrintService.NoFontsNoQuery | PrintService.cs:275-278 | with no fonts to check, the printer's behaviour cannot change the answer |
| PrintService.UnlistedPrinterLacksFonts | PrintService.cs:280-287 | when the listing call fails, a non-empty font list is reported as missing |
| PrintService.GetFontFullName | PrintService.cs:348-364 | the full name is the name, then separator+"Bold" if bold, then separator+"Italic" if italic |
| SerialPrint.Print | Print/SerialPrint.cs:18-79 | the checks run in this order, and each failure leaves the port untouched: empty command, then invalid serial data, then StopBits.None. Two exceptions escape: a rejected port construction, and a throwing `Close` of an opened port in the `finally`, which replaces whatever the `try` block would have returned. The call succeeds exactly when validation passed and every call returned, `Close` included. Success reports copies × UTF-8 length, or 0 for copies ≤ 0. A thrown Open gives its text as the message and 0 bytes. A thrown Write gives the text of the first write that threw, with 0 bytes. `Close` is called on every opened port |
| SerialPrint.CloseFailureEscapes | Print/SerialPrint.cs:69-75 | a port that takes every write but throws on `Close` in the `finally` turns the finished print into that exception |
| SerialPrint.ZeroBaudAndDataBitsAccepted | Print/SerialPrint.cs:29-34 | a baud rate and data bit count of 0 pass validation; only negative values fail |
| SerialPrint.NoCopiesStillSucceeds | Print/SerialPrint.cs:56-62 | with copies ≤ 0 nothing is written and the call succeeds with 0 bytes, the port opened and closed |
| LptPrint.Print | Print/LPTPrint.cs:35-101 | a null port name raises NullReferenceException. A name that fails the LPT check gives InvalidLptPortName before any handle exists. A stream that cannot be opened disposes the handle and gives ZebraConnectionFailed. When the stream's one `Close` (after the writes, or in the catch) throws, that exception escapes. Otherwise a failing write gives the formatted error text of the first write that threw, with 0 bytes. Success happens exactly when the stream opens, every write returns and `Close` returns, and reports the 32-bit product ASCII length × copies. Stream and handle are always released |
| LptPrint.FlushFailureEscapes | Print/LPTPrint.cs:65-95 | a port that accepts every buffered write but fails on the flush in `Close` raises that exception out of `Print` |
| LptPrint.PrintWithSettings | Print/LPTPrint.cs:23-26 | the settings overload passes the settings' parallel port name and copy count unchanged |
| LptPrint.ValidPortNameIff | Print/LPTPrint.cs:40 | a port name passes exactly when it has at least three characters and they spell LPT in either case |
| LptPrint.LowerCaseNameAccepted | Print/LPTPrint.cs:40 | "lpt1" passes the check like "LPT1" |
| LptPrint.EmptyCommandSucceeds | Print/LPTPrint.cs:35-101 | there is no empty-command check: an empty command on a working port succeeds with 0 bytes |
| LptPrint.NegativeCopiesReportNegativeBytes | Print/LPTPrint.cs:67-97 | a negative copy count writes nothing, succeeds and reports length × copies, a negative byte count |
| LptPrint.PartialWriteReportsNothing | Print/LPTPrint.cs:65-90 | a write failing after one copy went out still gives the failure with 0 bytes |
| NetworkPrint.Drain | Print/NetworkPrint.cs:55-66 | the response loop makes at least one receive. It continues exactly while the last receive returned bytes and more are available. Its message is the decoded chunks in order. A receive that throws ends it with that text |
| NetworkPrint.Print | Print/NetworkPrint.cs:20-88 | an empty command fails first, then a missing address or a port ≤ 0; neither creates a socket. Success happens exactly when connect, every send, (when waiting) the drain, and the shutdown in the `finally` return. The byte count is the sum of the sends' return values. The message is empty without a wait and the drained answer with one. An exception gives its text and 0 bytes: a refused connect, the first send that throws, or a throwing receive while waiting. A throwing socket constructor escapes, and so does a throwing `Shutdown`/`Close`, which replaces the result. A connected socket is shut down exactly when the `try` block ran to its end or the socket still reports Connected |
| NetworkPrint.ShutdownFailureEscapes | Print/NetworkPrint.cs:76-83 | a print that sent every copy still raises when `Shutdown`/`Close` in the `finally` throws |
| NetworkPrint.SingleAnswer | Print/NetworkPrint.cs:53-66 | a peer that answers "OK\r\n" in one packet and has nothing more gives exactly that message |
| NetworkPrint.TwoChunksThenClose | Print/NetworkPrint.cs:59-64 | a peer announcing more data is read until it closes, and the chunks are concatenated in order |
| NetworkPrint.DefaultSettingsRefused | Print/NetworkPrint.cs:31-36 | settings from the parameterless constructor (port 0) are refused with NoIpAddressOrPort before a socket exists |
| UsbPrint.Print | Print/UsbPrint.cs:44-57 | an empty printer name is refused before an empty command, and neither reaches device discovery. Otherwise the call is `ExecuteUsbCommands` |
| UsbPrint.Execute | Print/UsbPrint.cs:67-86 | a device-class registry key that cannot be opened gives the Error/AccessRegistryKey failure before any device is examined or any handle opened. Otherwise the device loop over the enumerated devices decides what follows |
| UsbPrint.Transfer | Print/UsbPrint.cs:145-205 | an invalid write handle gives the WriteError/NoUsbPrinterFound failure and releases nothing. A failing write gives the text of the first write that threw and no bytes. After all writes the result carries ASCII length × copies, then: no wait keeps success with no message; no valid read handle gives ReadError/NoUsbPrinterFound; a late answer gives ReadRequestTimeOut with success false; an answer gives its flag and text and adds its bytes to the 64-bit total without wrap-around. The write handle is opened exactly when valid and always released |
| UsbPrint.ExecuteRaisesOnlyOutOfRange | Print/UsbPrint.cs:93-121 | with the enumeration calls before the device loop taken to return, the only exception that leaves the call is ArgumentOutOfRangeException from cutting out a serial number; the registry scan's exceptions are caught |
| UsbPrint.NoAcceptedDeviceFails | Print/UsbPrint.cs:88-151 | when the loop passes over every device, the result is the WriteError/NoUsbPrinterFound failure with nothing opened |
| UsbPrint.ExecuteSuccess | Print/UsbPrint.cs:79-183 | success needs a readable registry key, an accepted device with a valid write handle, and every write returning. Without a wait it reports the 32-bit ASCII length × copies and no message |
| UsbPrint.ExecuteAccounting | Print/UsbPrint.cs:145-205 | a non-zero byte count means every write returned. A valid write handle is always released, and a valid read handle is left unreleased only beside an invalid write handle, in the NoUsbPrinterFound failure |
| UsbPrint.PidDigits | Print/UsbPrint.cs:93 | the text is upper-case hexadecimal digits denoting the product id, at least four of them, and exactly four below 0x10000 |
| UsbPrint.ReadBackTotalDoesNotWrap | Print/UsbPrint.cs:221 | the read-back byte count is added to the written count as a 64-bit sum: 2^31 - 1 written bytes plus a one-byte answer report 2^31 |
| UsbPrint.SerialNumber | Print/UsbPrint.cs:93-96 | `None` exactly when .NET would throw: the start (10 past the `&PID_xxxx` match, or 9 without one) leaves no character after it, or no '#' follows it. Otherwise the result is the path's characters from the start up to that next '#', each upper-cased |
| UsbPrint.SerialNumberOfPath | Print/UsbPrint.cs:93-96 | for a path `…&pid_XXXX#SERIAL#…` with a non-empty SERIAL free of '#', the serial number is SERIAL upper-cased |
| UsbPrint.TypicalDevicePath | Print/UsbPrint.cs:90-96 | the Zebra example path yields serial JJK011718 |
| UsbPrint.UsbPortName | Print/UsbPrint.cs:105 | the port name is "USB" then the number left-padded with '0' to three digits; below 1000 it has six characters |
| UsbPrint.PortNameIsPadded | Print/UsbPrint.cs:105 | port numbers 1, 12 and 1234 give USB001, USB012 and USB1234 |
| UsbPrint.Scan | Print/UsbPrint.cs:101-107 | the scan throws exactly at a matching key without a port number. Otherwise the last matching key decides the port, and with no match the port stays "" |
| UsbPrint.LastMatchingKeyWins | Print/UsbPrint.cs:101-107 | when every matching key has a port number, the last matching key decides the port, whatever the keys before it say |
| UsbPrint.FirstQueue | Print/UsbPrint.cs:294 | the result is the first queue with exactly that name, or none exactly when no queue has the name |
| UsbPrint.IsMatchingPortIff | Print/UsbPrint.cs:290-297 | the port matches exactly when the first queue named `printerName` exists and its port is `portName` |
| UsbPrint.Examine | Print/UsbPrint.cs:88-142 | a device breaks the loop exactly when it is a Zebra device, its serial number and registry port are found, its queue matches, and one of its handles is valid. Non-Zebra devices are skipped. A failed serial-number cut raises ArgumentOutOfRangeException |
| UsbPrint.Find | Print/UsbPrint.cs:88-143 | the loop stops at the first device that is not skipped, with that device's verdict. It finds nothing exactly when every device is skipped |
| UsbPrint.OnlyZebraDevicesConsidered | Print/UsbPrint.cs:88 | with no Zebra device enumerated the result is the NoUsbPrinterFound failure with nothing opened |
| UsbPrint.ValidReadHandleLeaks | Print/UsbPrint.cs:139-151 | a chosen device with only a valid read handle fails with NoUsbPrinterFound and the read handle is never released |
| UsbPrint.ReadHandleMissingKeepsSuccess | Print/UsbPrint.cs:169-177 | waiting on a device without a valid read handle keeps the successful write result and its bytes, replacing only the message |
| UsbPrint.ReadText | Print/UsbPrint.cs:252-257 | the answer is never empty and ends with a carriage return |
| UsbPrint.ReadUsbPort | Print/UsbPrint.cs:243-282 | a healthy stream gives success with every line followed by "\r" ("\r" alone for an empty stream) and its ASCII length as bytes. A fault within the lines read gives the IOException or ErrorOccured prefix with the fault's text |
| UsbPrint.AnswerSplitsIntoLines | Print/UsbPrint.cs:252-260 | lines free of '\r' are recovered from the answer by splitting at '\r' |
| Settings.DefaultInit | PrintStructures/PrinterSettings.cs:195-202 | copies 1, ZPL, Portrait and no printer RAM are set, and no other field changes |
| Settings.Default | PrintStructures/PrinterSettings.cs:15-34 | the result is USB with an empty printer name and copies 1, serial COM1 at 9600 with StopBits.One, 8 data bits, XOnXOff and no parity, LPT1, and network address None with port 0 and timeout 1500 |
| Settings.ForUsb | PrintStructures/PrinterSettings.cs:40-46 | the result is USB with the given name, and the port names and address stay null |
| Settings.ForNetwork | PrintStructures/PrinterSettings.cs:54-62 | the result is Network with the given address, port and timeout, and copies 1 |
| Settings.ForNetworkWithDefaults | PrintStructures/PrinterSettings.cs:54 | the default arguments are port 9100 and timeout 1500 |
| Settings.ForParallel | PrintStructures/PrinterSettings.cs:69-76 | the result is Parallel with the given port name, and the given copy count overrides the default |
| Settings.ForSerial | PrintStructures/PrinterSettings.cs:87-100 | the result is Serial with all five serial parameters as given and copies 1 |
| Settings.MemoryLettersDistinct | PrintStructures/Enums/PrinterMemoryType.cs:8-11 | the memory letters A, B, E and R identify their memory |
| Results.Failure | PrintStructures/PrintResult.cs:11-16 | a fresh result with only its message set is unsuccessful with 0 bytes |
| Io.CopyLoop | Print/SerialPrint.cs:56-60 | the copy loop completes exactly when every pass returns, accumulating what the passes transferred. Otherwise it stops at the first failing pass with that pass's text |
| Io.ConstantCopies | Print/SerialPrint.cs:56-62 | writes of a fixed size total copies × size, or 0 for copies ≤ 0 |
| Io.Int32 | Print/LPTPrint.cs:97 | the value lies in the 32-bit range, is unchanged inside it, and is congruent to the exact product modulo 2^32 |
| Fonts.ShortName | PrintUtilities/FontInfo.cs:41-71 | the short name has at most 8 characters. A plain name shorter than 7 is kept. Otherwise the first six characters (or the whole name) are followed by "B" if bold, then "I" if italic |
| Fonts.ToString | PrintUtilities/FontInfo.cs:32-35 | `ToString` answers the short name |
| Fonts.LongPlainNameTruncated | PrintUtilities/FontInfo.cs:44-58 | a plain name of seven or more characters keeps its first six |
| Fonts.ShortNameStable | PrintUtilities/FontInfo.cs:44-58 | the short name of a plain font, taken as a name again, shortens to itself |
| Fonts.BoldItalicSuffix | PrintUtilities/FontInfo.cs:60-68 | a bold italic font ends in "BI", in that order |
| Fonts.ShortNamesCollide | PrintUtilities/FontInfo.cs:51-58 | two different fonts, "Arial Black" and "Arial Narrow", share one short name |
| Text.HexValueOfHexUpper | Print/UsbPrint.cs:93 | the digits `ToString("X")` prints denote the number printed |
| Text.PaddedHexValue | Print/UsbPrint.cs:93 | padding those digits on the left with '0' keeps them hexadecimal digits with the same value |
| Hex.Encode | PrintService.cs:158-159 | the font data has two upper-case hex digits per byte |
| Hex.DecodeEncode | PrintService.cs:158-159 | the hex text of the font bytes decodes back to those bytes |
| Hex.EncodeDecode | PrintService.cs:158-159 | every text that decodes is the hex text of what it decodes to |
| Hex.SeparatorsRemoved | PrintService.cs:158-159 | `BitConverter.ToString` with every '-' removed is the plain two-digit encoding |
| DatabaseQuery.VerifyConnectionStringIff | Print/DatabaseQuery.cs:20-23 | the settings pass exactly when host, user and password are non-empty, and the service name does not matter |
| DatabaseQuery.ConnectionString | Print/DatabaseQuery.cs:45-65 | every connection string ends with ';' |
| DatabaseQuery.ConnectionStringOf | Print/DatabaseQuery.cs:30-33 | the settings overload builds from the settings' type, host, port, service, user and password |
| DatabaseQuery.ConnectionStringSplits | Print/DatabaseQuery.cs:45-61 | when the values hold no ';', splitting the string at ';' gives back each setting in order |
| DatabaseQuery.MssqlForm | Print/DatabaseQuery.cs:56-57 | the MSSQL string is exactly `Data Source={host},{port};User Id={user};Password={password};` |
| DatabaseQuery.OracleForm | Print/DatabaseQuery.cs:49-54 | the Oracle string puts host, port and service inside the DESCRIPTION, then user and password |
| DatabaseQuery.PostgreForm | Print/DatabaseQuery.cs:59-61 | the PostgreSQL string has user, password, host and port, then the fixed pooling settings |
| DatabaseQuery.QueryToDataTable | Print/DatabaseQuery.cs:74-92 | there is no table exactly when the query is null or empty. Otherwise the database runs the query on the connection string |
| DatabaseQuery.EmptyQueryNeedsNoDatabase | Print/DatabaseQuery.cs:76-79 | an empty query gives no table whatever the database would do |
| DatabaseQuery.ExecuteSql | Print/DatabaseQuery.cs:195-230 | an empty query is refused (EmptyQuery) before the credentials (InvalidConnectionString). The call succeeds exactly when both pass and the database fills a table, and a table is returned exactly on success. The database's exception text becomes the message. The table is named "Binding", its rows are unchanged and its columns are lower-cased one for one |
| DatabaseQuery.LowerColumns | Print/DatabaseQuery.cs:220-227 | every column is renamed to its lower-case form and the count is unchanged |
| DatabaseQuery.LowerColumnsIdempotent | Print/DatabaseQuery.cs:221-224 | renaming twice is renaming once |
| DatabaseQuery.DefaultSettingsRefused | Print/DatabaseQuery.cs:197-200 | freshly constructed database settings are refused for the missing query |
| DataBinder.ValidateZplInput | PrintUtilities/DataBinder.cs:110-123 | null or empty input is refused first. Other input is valid exactly when it starts with ^XA or does not end with ^XZ. The message is set exactly on refusal |
| DataBinder.TextWithoutEndFormatPasses | PrintUtilities/DataBinder.cs:117-122 | "hello" passes, while "hello^XZ" fails |
| DataBinder.FirstIndex | PrintUtilities/DataBinder.cs:68 | the result is the first position of the value, or -1 exactly when it is absent |
| DataBinder.BindItem | PrintUtilities/DataBinder.cs:65-99 | an item without a data field, or with one the source does not name, is untouched. A matched item raises ArgumentOutOfRange when the data list is too short. A matched TextItem or BarcodeItem without its attribute raises NullReference. A matched item returns exactly when neither exception applies. Then it gets data[first index] in Text, Code or SourceBase64 (added if missing), its data field becomes "", and every other attribute is kept |
| DataBinder.BindItems | PrintUtilities/DataBinder.cs:63-100 | all items are bound in order. The first item that raises ends the loop with its exception |
| DataBinder.ReplaceDataFieldsByValuesInXml | PrintUtilities/DataBinder.cs:56-103 | the template is cleaned of U+FEFF and parsed. A parse or bind exception escapes. The output is the XML declaration followed by the bound template |
| DataBinder.BindItemsIdempotent | PrintUtilities/DataBinder.cs:63-100 | binding an already bound template again changes nothing when no source name is empty |
| DataBinder.TextItemBound | PrintUtilities/DataBinder.cs:74-78 | a text item bound to the second source name takes the second value and its field is emptied |
| Utility.RemoveZeroWidthNoBreakCharacter | PrintUtilities/Utility.cs:14-21 | text without U+FEFF is unchanged. Otherwise the result is the text with spaces for U+FEFF, cut of white space at both ends. The result holds no U+FEFF and is never longer |
| Utility.RemoveIsIdempotent | PrintUtilities/Utility.cs:14-21 | cleaning twice is cleaning once |
| Utility.LeadingMarkerRemoved | PrintUtilities/Utility.cs:16-19 | a U+FEFF at the head of a template disappears with the space it becomes |
| NeodynamicWrapper.StorageName | PrintUtilities/NeodynamicWrapper.cs:98 | the storage name is the short name plus ".FNT", at most 12 characters |
| NeodynamicWrapper.UsedFonts | PrintUtilities/NeodynamicWrapper.cs:86-100 | the fonts collected are exactly those of the text items |
| NeodynamicWrapper.NameFontsAtStorage | PrintUtilities/NeodynamicWrapper.cs:86-100 | every text item gets its font's storage name, and other items are kept |
| NeodynamicWrapper.FirstOccurrences | PrintUtilities/NeodynamicWrapper.cs:102-108 | the first-occurrence list holds the same fonts as its input and no two with the same name, bold and italic |
| NeodynamicWrapper.DistinctFonts | PrintUtilities/NeodynamicWrapper.cs:102-108 | the loop's list is the reference list of first occurrences, in input order. By that list's contract, no two entries share name, bold and italic, and every input font is present |
| NeodynamicWrapper.Any | PrintUtilities/NeodynamicWrapper.cs:104 | the comparison on name, bold and italic is membership |
| NeodynamicWrapper.SetupTemplateFonts | PrintUtilities/NeodynamicWrapper.cs:78-108 | text items are named at storage, and the distinct fonts are the first occurrences among the text items' fonts, so exactly those fonts, each once |
| NeodynamicWrapper.SharedFontListedOnce | PrintUtilities/NeodynamicWrapper.cs:102-108 | the fonts f, g, f give f, g |
| NeodynamicWrapper.KeepServed | PrintUtilities/NeodynamicWrapper.cs:216-222 | an item is kept exactly when it has no binding or some column serves it |
| NeodynamicWrapper.RemoveEmptyBindings | PrintUtilities/NeodynamicWrapper.cs:211-224 | a source that is not a table changes nothing. For a table, exactly the served items remain |
| NeodynamicWrapper.KeepServedAppend | PrintUtilities/NeodynamicWrapper.cs:216-222 | filtering keeps order: filtering two parts is filtering the whole |
| NeodynamicWrapper.AllServedKept | PrintUtilities/NeodynamicWrapper.cs:216-222 | a template whose bindings are all served is kept whole |
| NeodynamicWrapper.BindingMatchIgnoresCase | PrintUtilities/NeodynamicWrapper.cs:215-218 | a binding matches a column that differs only in letter case |
| NeodynamicWrapper.ExecuteCommand | PrintUtilities/NeodynamicWrapper.cs:138-153 | null data fails inside the `try` with the `ArgumentNullException` text (resource `ArgumentNull_String`) and 0 bytes, whatever the SDK would do. Otherwise the byte count is the UTF-8 length whether or not the SDK call throws. Success happens exactly when the data is present and the SDK call returns, and its exception text is the message |
| NeodynamicWrapper.FailedCallReportsBytes | PrintUtilities/NeodynamicWrapper.cs:144-151 | a failed call on ASCII data still reports one byte per character |

## Left out

- Operating-system I/O is out: serial ports, sockets, `CreateFile` handles, file streams, WinUSB enumeration, the registry, `LocalPrintServer` and `File.ReadAllBytes`. These calls are parameters: the oracles `SerialIo`, `LptIo`, `NetworkIo`, `UsbSystem` and `UsbIo`, the font bytes, and `sdk` for the label SDK.
- `ReadPrinter` (Print/UsbPrint.cs:212-236) runs the read on a task with a one-second timeout; that concurrency is reduced to the flag `answersInTime`. A late read racing the timeout's writes is not modelled.
- The spooler path `SendBytesToPrinter`, `SendFileToPrinter`, `SendStringToPrinter` and `DOCINFOA` is foreign calls with no local logic.
- `GetPrinterFreeMemory` (a regex over the printer's answer) and `LoadInstalledPrinters` (the spooler's list) are left out. So are `NeedsBinding` (a regex) and `GetSystemFontFileName` (registry and file system).
- The connection overloads of `QueryToDataTable`, which execute SQL, are the parameter `database`. The `DuplicateNameException` that renaming two columns to one lower-case name would raise is not modelled.
- `BindXmlDataToDataSet`, `BindJsonDataToDataSet` and `IsXmlValid` are left out: they are XML and JSON parsing by the framework. In `ReplaceDataFieldsByValuesInXml` the parser and printer are the parameters `parse` and `render`.
- The label SDK calls `GeneratePrinterCommandsFromXml`, `NeodynamicWrapper.Print` and `ConvertCustomSettingsToNeodynamic` are left out. So is the XML splicing of `<Settings>` in `SetupTemplateFonts` (PrintUtilities/NeodynamicWrapper.cs:110-127).
- The floating-point members `MegaBytesSent` and `Dpi` are left out.
- `IPrintService.cs` only declares the interface. The Win32 flag enumerations are constants passed to the foreign calls.
- The overloads that only supply default arguments (`PrintUSB(c, n)`, `PrintUSB(c, n, copies)`, `PrintNetwork(c, ip, port)`, the seven-argument `PrintSerial`, `PrintParallel(c, n)`) are the longer overloads with copies 1 and no wait.
- A `null` command is modelled as the empty string: every transport and the dispatcher test it with `IsNullOrEmpty`. The exception is LPT, where an empty command is printed, and `Encoding.ASCII.GetBytes(null)` would throw. `NeodynamicWrapper.ExecuteCommand` has no such test and takes its data as an `Option`.
- DataBinder.ValidateZplInput: the culture-sensitive .NET `StartsWith` and `EndsWith` (PrintUtilities/DataBinder.cs:117) are modelled as ordinal comparisons. They differ on characters with no collation weight, such as U+FEFF, U+0000 and U+00AD: a template "\uFEFF^XA^XZ" passes in .NET but fails in the model. The same holds for the culture-sensitive `IndexOf(string)` behind `UsbPrint.SerialNumber` (Print/UsbPrint.cs:93), where device paths are ASCII.
- `ToUpper`, `ToLower` and `Trim` follow .NET only on ASCII letters and the common white-space characters. String lengths count characters, which equals .NET's UTF-16 count for text in the Basic Multilingual Plane.
- NetworkPrint.Print: whether .NET still reports a socket as connected after a failed send or receive is the oracle flag `keepsConnectionOnError`, not derived. The socket has no receive timeout, so a peer that stays silent while the caller waits blocks the first `Receive` forever. `receipts` stands for a peer that eventually answers or closes (past its end the peer has closed), and the hanging call is not modelled.
- UsbPrint.Execute: `new LocalPrintServer()`, `USBDevice.GetDevices`, `GetPrintQueues`, `OpenSubKey` and `GetSubKeyNames` (Print/UsbPrint.cs:74-86) sit outside any `try` and are assumed to return. An exception from them, such as `PrintSystemException` when the spooler is stopped, would leave `ExecuteUsbCommands` and is not modelled.
