# FactoryAppPyQt6 provisioning core in Dafny

This project models the decision logic of a factory provisioning tool for an
ESP32-S3 / ESP32-H2 device and proves properties of it. The tool drives
`esptool.py` and a serial port from a PyQt6 GUI. Under that plumbing sit five
small, sequential procedures, and they are what is modelled here:

- **Flash steps.** Each step spawns `esptool.py --port P --baud B` with a
  subcommand and ordered address/image pairs. The subcommand is `write_flash`,
  except in the `FlashFirmwareH2Thread` of `components/flash/flash.py`, which
  takes it from its caller. A step scans stdout for the sentinel
  `Hard resetting via RTS pin...` and combines that with the exit code. The
  rule is defined once, in `Esptool.RunStep`. `Flash` (`FlashFirmwareAndCertThread`
  and the H2 thread of `components/flash/flash.py`) and `FlashH2` (the
  stand-alone H2 thread) instantiate it with their own message texts.
  `FlashCert` (`FlashCertificates`) shares only the sentinel scan: its
  `Report` checks the exit code and the sentinel independently, so it can
  report both Error and Success. `RunStep` appears there only in
  `FlashCert.RunCorrected`.
- **Two-step sequencing.** `FlashFirmwareAndCertThread.run` flashes the
  certificate, then the firmware. It stops at the first failure, and
  `finished` is emitted exactly once.
- **Command lines.** A builder over an abstract image resolver, with a parser
  that inverts it.
- **The serial reader.** `SerialReaderThread` is a fold over what each turn of
  its polling loop saw: nothing waiting, a decoded line, or a serial exception.
  Each line is stripped and forwarded, and a line equal to `.` latches factory
  mode. `stop` clears the running flag and closes an open connection.
- **Utilities.** `read_order` extracts, validates and de-duplicates order
  numbers. `check_functionality` runs the bare tool and looks for `usage:`.

How the model stands in for I/O:

- Running a process is a function value `Runner` from argument list to
  `ProcessRun`. A `ProcessRun` holds the stdout lines and either an exit code
  with stderr or a raised exception.
- Image lookup (`find_bin_path` with the `filepath_*` directories) is a
  function value `Resolver`.
- Every `emit` is an append to an event log.
- A `Trace` records which argument lists were spawned. "The firmware step
  never runs" is therefore a statement about the trace.

The serial reader never writes to the port; it only reads lines.

The `FlashFirmwareH2Thread` in `components/flash/flash.py` flashes firmware,
but it reports a failed exit with the text "An error occurred while flashing
the certificate: ...". The model keeps that text (`Flash.FlashH2Firmware`).

## Model

| member | source | states |
|---|---|---|
| Esptool.BuildCommand | components/flash/flash.py:47-56 | The argument list is `esptool.py --port P --baud B <subcommand>` followed by each address and its image path, in the given order; its length is 6 plus twice the number of pairs |
| Esptool.ParseBuild | components/flash/flash.py:47-56 | Parsing a built argument list recovers the port, baud, subcommand and the exact ordered pairs |
| Esptool.BuildParse | components/flash/flash.py:83-90 | Every argument list that parses is exactly the list built from its parsed parts, so the builder and parser are mutually inverse |
| Esptool.ScanForSentinel | components/flash/flash.py:62-66 | The flag, reset to false before streaming, ends true iff some stdout line contains the sentinel substring |
| Esptool.RunStep | components/flash/flash.py:60-75 | A step succeeds iff the process exited with code 0 and some stdout line contains the sentinel. A non-zero exit logs exactly one Error carrying stderr, whatever the sentinel. An exception logs exactly one "An unexpected error occurred: " Error. Exit 0 logs nothing |
| Esptool.SingleStepRun | components/flashH2/flashH2.py:18-27 | A one-step thread spawns its command once. On success it emits exactly the Success message and `finished`. On failure it emits the step's own log, the failure message and `finished`. `finished` is last and appears once |
| Flash.FirmwareCommand | components/flash/flash.py:47-56 | The firmware argument list is the literal 14-element list: `write_flash` with bootloader, partition-table, ota_data_initial and rc from the S3 firmware directory, in that order |
| Flash.CertificateCommand | components/flash/flash.py:83-90 | The certificate argument list is the literal 10-element list: `write_flash` with secure_cert then partition from the certificates directory |
| Flash.FlashCertificate | components/flash/flash.py:94-109 | The certificate step returns true iff exit 0 and the sentinel was seen. A non-zero exit emits "...flashing the certificate: " with stderr. An exception emits the unexpected-error text. A clean exit emits nothing. Only Error messages are ever emitted |
| Flash.FlashFirmware | components/flash/flash.py:60-75 | The firmware step applies the same rule with "...flashing the firmware: " as its error text: the same result, the same error messages, and nothing emitted on a clean exit |
| Flash.Run | components/flash/flash.py:23-38 | The certificate command is spawned first. The firmware command is spawned iff the certificate step succeeded, and nothing else is spawned. `finished` is emitted exactly once, last. Success is shown iff both steps succeeded. The exact events on each path: when the certificate step fails, its own messages, then "Certificate flashing failed.", then `finished`. When only the firmware step fails, its own messages, then "Firmware flashing failed.", then `finished`. When both succeed, only the completion message and `finished` |
| Flash.RunNamesFailedStep | components/flash/flash.py:25-35 | "Certificate flashing failed." is emitted iff the certificate step failed; "Firmware flashing failed." is emitted iff the certificate step succeeded and the firmware step failed |
| Flash.H2Command | components/flash/flash.py:142-150 | This thread's argument list puts the caller's subcommand where `write_flash` would be, followed by bootloader, partition-table and H2 from the H2 firmware directory |
| Flash.FlashH2Firmware | components/flash/flash.py:154-169 | The same sentinel-and-exit-0 rule, with the error text this code uses ("...flashing the certificate: "). Nothing is emitted on a clean exit, and only Error messages are ever emitted |
| Flash.RunH2 | components/flash/flash.py:125-134 | Spawns its command once, then `finished` once and last. Error is shown iff the step failed, and "Firmware flashing failed." appears iff the step failed. The exact events: on failure, the step's own messages ("...flashing the certificate: " with stderr, or the unexpected-error text), then "Firmware flashing failed.", then `finished`; on success, "H2 Firmware flashing completed successfully!" and `finished` |
| FlashH2.FirmwareCommand | components/flashH2/flashH2.py:35-43 | The literal 12-element `write_flash` list with bootloader, partition-table and H2 in that order, and its parsed form |
| FlashH2.FlashFirmware | components/flashH2/flashH2.py:45-60 | The flag is local and starts false, so the verdict is a function of this run alone: true iff exit 0 and the sentinel was seen. A non-zero exit gives one Error with stderr; an exception gives the unexpected-error message; exit 0 emits nothing |
| FlashH2.Run | components/flashH2/flashH2.py:18-27 | Exactly one of Error and Success is shown, then `finished` exactly once. Success is shown iff the step succeeded. The exact events: on failure, the step's own messages ("...flashing the firmware: " with stderr, or the unexpected-error text), then "Firmware flashing failed.", then `finished`; on success, "H2 Firmware flashing completed successfully!" and `finished` |
| FlashCert.Command | components/certificate_flash/flashcert.py:24-31 | The literal 10-element `write_flash` list with secure_cert then partition, and its parsed form |
| FlashCert.ReportKinds | components/certificate_flash/flashcert.py:50-57 | In the as-written report, Error appears iff the run did not exit with code 0 (an exception counts). Success appears iff the process exited and the sentinel was seen, independent of the exit code |
| FlashCert.Run | components/certificate_flash/flashcert.py:35-63 | Spawns the command once and emits `finished` exactly once and last on every path, including exceptions. Error is shown iff the run did not exit with code 0; Success is shown iff the process exited and the sentinel was seen |
| FlashCert.RunEventOrder | components/certificate_flash/flashcert.py:42-61 | Exact event lists on all five paths. A non-zero exit with the sentinel gives Error, then Success, then `finished`. A non-zero exit without the sentinel gives Error and `finished`. Exit 0 with the sentinel gives Success and `finished`. Exit 0 without the sentinel gives only `finished`. An exception gives only the unexpected-error message and `finished` |
| FlashCert.FailedExitStillReportsSuccess | components/certificate_flash/flashcert.py:50-57 | A concrete run (exit code 2, sentinel printed) whose step fails by the common rule, yet the thread emits Error, then Success, then `finished` |
| FlashCert.RunCorrected | components/certificate_flash/flashcert.py:50-57 | With Success tied to the common rule, Success is shown iff the step succeeds, Error iff the exit was not clean, and never both; `finished` is emitted once |
| SerialCom.NewReader | components/serialcom/serialcom.py:27-33 | A new reader is running, not in factory mode, has no connection, and keeps its port and baud |
| SerialCom.Listen | components/serialcom/serialcom.py:44-53 | The number of status-change events equals the number of received lines equal to "."; every status change carries true and directly follows the "." line; factory status ends true iff it was already true or some received line was "."; no other reader field changes |
| SerialCom.ListenForwardsLines | components/serialcom/serialcom.py:44-53 | The data events are exactly the stripped received lines in arrival order, followed by one "Error: <msg>" line iff a serial exception ended the loop |
| SerialCom.FactoryMode | components/serialcom/serialcom.py:39-53 | Factory status is reset on entry and ends true iff the reader was running, the port opened, and some stripped line was "." (so a failed open leaves it false). A failed open emits exactly one "Error: " line and leaves the connection as it was. An open port is recorded as an open connection. If the port opens but the reader is no longer running, nothing is emitted; otherwise the data and status events are those of the loop. No reader field other than the factory status and the connection changes |
| SerialCom.IdleTurnsIgnored | components/serialcom/serialcom.py:44-45 | Turns on which no byte was waiting contribute nothing: removing them changes neither the events nor the final reader |
| SerialCom.FactoryStatusMonotone | components/serialcom/serialcom.py:44-51 | Once factory status is latched after a prefix of the loop, it is still latched after the whole loop |
| SerialCom.Stop | components/serialcom/serialcom.py:55-60 | `stop` clears the running flag. It closes the connection iff one exists and is open, and then drops it. Otherwise the connection is untouched, and no other field changes |
| SerialCom.StopIdempotent | components/serialcom/serialcom.py:55-60 | A second `stop` closes nothing and changes nothing |
| Text.In | components/flash/flash.py:65 | The `in` test holds iff the substring occurs at some position |
| Text.Find | components/flash/flash.py:65 | The search returns the first occurrence at or after the start position, or none iff there is no occurrence there |
| Text.Before | components/utils/utils.py:43 | `split(sep)[0]`: the longest prefix that contains no occurrence of the separator, ending at its first occurrence or at the end of the string |
| Text.SecondField | components/utils/utils.py:43 | `split(sep)[1]` exists iff the separator occurs. When it exists, there is a first occurrence of the separator, and the field is the text after it up to the next occurrence or the end |
| Text.Strip | components/serialcom/serialcom.py:46 | `strip()` returns a slice of the input bordered by whitespace only, which itself neither starts nor ends with whitespace |
| Text.StripOfUnique | components/serialcom/serialcom.py:46 | The declarative meaning of stripping determines the result uniquely |
| Text.StripIdempotent | components/serialcom/serialcom.py:46 | Stripping twice is stripping once |
| Utils.CheckFunctionality | components/utils/utils.py:16-33 | The probe succeeds iff the bare tool ran and "usage:" occurs on stdout or stderr; a missing tool or any other exception gives false |
| Utils.OrderValue | components/utils/utils.py:43 | The order value exists iff the line contains "order-no: ". It is the text after the first "order-no: ", cut at the next comma or the next "order-no: " (whichever comes first), then stripped |
| Utils.FieldIsOrderValue | components/utils/utils.py:43 | Cutting the second "order-no: " field at its first comma and stripping it gives the line's order value as defined above |
| Utils.Classify | components/utils/utils.py:42-43 | A line is broken iff it contains "order-no" but not "order-no: "; it yields a value iff it contains both, and the value has the meaning above |
| Utils.Collect | components/utils/utils.py:39-46 | The loop fails iff some line is broken. Otherwise its result has no duplicates and contains exactly the values yielded. The values are in first-occurrence order, and there are no more of them than order lines |
| Utils.ReadOrder | components/utils/utils.py:35-46 | `read_order` raises IndexError iff some line contains "order-no" but not "order-no: ". Otherwise it returns each yielded order number once, in order of first occurrence, and no value that no line yields; the count is at most the number of order lines |

## Left out

- The GUI (`components/gui/gui.py`) and `main.py` are not part of this model: they are widget layout and application start-up.
- `SerialCommunicator` (port listing through `serial.tools.list_ports`) is not modelled; it is a thin wrapper over the operating system's device list.
- Process I/O: `subprocess.Popen`, `process.wait()` and reading stderr are replaced by the `Runner` parameter; the `print` echo of each line is dropped.
- Process termination: `Runner` is a total function, so every spawned process ends. The source has no timeout. A child that never exits, or that blocks writing to its full stderr pipe while the thread is still reading stdout (stderr is read only after `wait()`), hangs the thread, and `finished` is never emitted. The "on every path" statements about `finished` hold only for runs that end.
- Serial I/O: `serial.Serial`, `in_waiting`, `readline()` and the one-second timeout are replaced by a finite script of poll outcomes; lines arrive already decoded.
- SerialCom.Listen: a UTF-8 decoding error is not a `SerialException` and would end the thread with an uncaught exception; lines are modelled as already decoded, so this path is absent.
- SerialCom.FactoryMode: the built-in `finished` signal emitted by `SerialReaderThread.run` after `factory_mode` returns is not in the event log.
- Concurrency: a `stop` from the GUI thread racing with the polling loop is not modelled. The loop's script ends where the loop observes `running` false.
- Image lookup: `find_bin_path` and the `filepath_*` attributes are not part of the source shown; they are a `Resolver` parameter. An exception raised before the `try` is not modelled, and `finished` is never emitted on that path. One such exception is raised by `find_bin_path` while the argument list is built. Another is the `TypeError` from `' '.join(command)` at `components/flash/flash.py:58` when an address or image path is not a string. That one would happen after the certificate step had already succeeded.
- Utils.ReadOrder: `open()` and its errors are not modelled; the input is the file's lines.
- Utils.CheckFunctionality: the `print` diagnostics are dropped, and the `tool_path` default of `esptool.py` is a parameter.
- Flash.Run: the instance fields `success_detected_firmware` and `success_detected_certificate` are reset before each scan, so they are modelled as the scan's local result.

## Findings

| source | as written | input that shows it | evidently intended | confidence | as-written member | corrected member |
|---|---|---|---|---|---|---|
| components/certificate_flash/flashcert.py:50-57 | The Success message is emitted whenever the sentinel line was seen, even after a non-zero exit code has already produced an Error message | esptool prints "Hard resetting via RTS pin..." and then exits with code 2 | Success only on exit 0 with the sentinel, the rule every other flashing thread applies, so that Error and Success are never both shown | medium, not executed | FlashCert.FailedExitStillReportsSuccess | FlashCert.RunCorrected |
