/**
  components/flash/flash.py: `FlashFirmwareAndCertThread` flashes the ESP32-S3
  certificate partitions and then its firmware, stopping at the first failing
  step; `FlashFirmwareH2Thread` flashes the ESP32-H2 firmware with a
  caller-chosen esptool subcommand.
 */
module Flash {
  import opened Wrappers
  import opened Esptool

  const FirmwareErrorText: string := FlashingErrorPrefix + "firmware: "
  const CertificateErrorText: string := FlashingErrorPrefix + "certificate: "
  const CertificateFailedText: string := "Certificate flashing failed."
  const FirmwareFailedText: string := "Firmware flashing failed."
  const DoneText: string := "Firmware and certificate flashing completed successfully!"
  const H2DoneText: string := "H2 Firmware flashing completed successfully!"

  /** The constructor arguments of `FlashFirmwareAndCertThread`. */
  datatype Config = Config(
    port: string,
    baud: string,
    bootloaderAddress: string,
    partitionTableAddress: string,
    otaDataAddress: string,
    firmwareAddress: string,
    secureCertAddress: string,
    dataProviderAddress: string)

  /** The S3 firmware images, in flashing order. */
  function FirmwareImages(cfg: Config, resolve: Resolver): seq<(string, string)> {
    [ (cfg.bootloaderAddress, resolve("bootloader", FirmwareS3)),
      (cfg.partitionTableAddress, resolve("partition-table", FirmwareS3)),
      (cfg.otaDataAddress, resolve("ota_data_initial", FirmwareS3)),
      (cfg.firmwareAddress, resolve("rc", FirmwareS3)) ]
  }

  /** The S3 certificate images, in flashing order. */
  function CertificateImages(cfg: Config, resolve: Resolver): seq<(string, string)> {
    [ (cfg.secureCertAddress, resolve("secure_cert", CertificatesS3)),
      (cfg.dataProviderAddress, resolve("partition", CertificatesS3)) ]
  }

  /** The argument list of `flash_firmware`. */
  function FirmwareCommand(cfg: Config, resolve: Resolver): (cmd: Command)
    ensures cmd == [Tool, "--port", cfg.port, "--baud", cfg.baud, WriteFlash,
                    cfg.bootloaderAddress, resolve("bootloader", FirmwareS3),
                    cfg.partitionTableAddress, resolve("partition-table", FirmwareS3),
                    cfg.otaDataAddress, resolve("ota_data_initial", FirmwareS3),
                    cfg.firmwareAddress, resolve("rc", FirmwareS3)]
    ensures ParseCommand(cmd) == Some(Invocation(cfg.port, cfg.baud, WriteFlash, FirmwareImages(cfg, resolve)))
  {
    var imgs := FirmwareImages(cfg, resolve);
    var inv := Invocation(cfg.port, cfg.baud, WriteFlash, imgs);
    FlattenCons(imgs[3], []);
    FlattenCons(imgs[2], [imgs[3]]);
    FlattenCons(imgs[1], imgs[2..]);
    FlattenCons(imgs[0], imgs[1..]);
    ParseBuild(inv);
    BuildCommand(inv)
  }

  /** The argument list of `flash_certificate`. */
  function CertificateCommand(cfg: Config, resolve: Resolver): (cmd: Command)
    ensures cmd == [Tool, "--port", cfg.port, "--baud", cfg.baud, WriteFlash,
                    cfg.secureCertAddress, resolve("secure_cert", CertificatesS3),
                    cfg.dataProviderAddress, resolve("partition", CertificatesS3)]
    ensures ParseCommand(cmd) == Some(Invocation(cfg.port, cfg.baud, WriteFlash, CertificateImages(cfg, resolve)))
  {
    var imgs := CertificateImages(cfg, resolve);
    var inv := Invocation(cfg.port, cfg.baud, WriteFlash, imgs);
    FlattenCons(imgs[1], []);
    FlattenCons(imgs[0], [imgs[1]]);
    ParseBuild(inv);
    BuildCommand(inv)
  }

  /** `flash_certificate`: spawn the certificate command and judge its output. */
  function FlashCertificate(cfg: Config, resolve: Resolver, tool: Runner): (r: StepResult)
    ensures var run := tool(CertificateCommand(cfg, resolve));
      && (r.ok <==> run.end.Exited? && run.end.code == 0 && SentinelSeen(run.stdout))
      && (run.end.Exited? && run.end.code != 0 ==>
            r.log == [ShowMessage(Error, CertificateErrorText + run.end.stderr)])
      && (run.end.Raised? ==> r.log == [ShowMessage(Error, UnexpectedErrorPrefix + run.end.message)])
      && (run.end.Exited? && run.end.code == 0 ==> r.log == [])
      && OnlyErrors(r.log)
  {
    RunStep(tool(CertificateCommand(cfg, resolve)), CertificateErrorText)
  }

  /** `flash_firmware`: spawn the firmware command and judge its output. */
  function FlashFirmware(cfg: Config, resolve: Resolver, tool: Runner): (r: StepResult)
    ensures var run := tool(FirmwareCommand(cfg, resolve));
      && (r.ok <==> run.end.Exited? && run.end.code == 0 && SentinelSeen(run.stdout))
      && (run.end.Exited? && run.end.code != 0 ==>
            r.log == [ShowMessage(Error, FirmwareErrorText + run.end.stderr)])
      && (run.end.Raised? ==> r.log == [ShowMessage(Error, UnexpectedErrorPrefix + run.end.message)])
      && (run.end.Exited? && run.end.code == 0 ==> r.log == [])
      && OnlyErrors(r.log)
  {
    RunStep(tool(FirmwareCommand(cfg, resolve)), FirmwareErrorText)
  }

  /**
    `FlashFirmwareAndCertThread.run`: the certificate step first; the firmware
    step only if it succeeded; the overall Success message only if both did;
    `finished` once at the end of every path. A step that succeeded emitted
    nothing, so on each path the events are the failing step's own messages,
    the thread's verdict and `finished`.
   */
  function Run(cfg: Config, resolve: Resolver, tool: Runner): (t: Trace)
    ensures 1 <= |t.spawned| <= 2 && t.spawned[0] == CertificateCommand(cfg, resolve)
    ensures |t.spawned| == 2 <==> StepSucceeds(tool(CertificateCommand(cfg, resolve)))
    ensures |t.spawned| == 2 ==> t.spawned[1] == FirmwareCommand(cfg, resolve)
    ensures FinishesOnce(t.events)
    ensures Shows(t.events, Success) <==>
      StepSucceeds(tool(CertificateCommand(cfg, resolve))) && StepSucceeds(tool(FirmwareCommand(cfg, resolve)))
    ensures !StepSucceeds(tool(CertificateCommand(cfg, resolve))) ==>
      t.events == FlashCertificate(cfg, resolve, tool).log + [ShowMessage(Error, CertificateFailedText), Finished]
    ensures StepSucceeds(tool(CertificateCommand(cfg, resolve))) && !StepSucceeds(tool(FirmwareCommand(cfg, resolve))) ==>
      t.events == FlashFirmware(cfg, resolve, tool).log + [ShowMessage(Error, FirmwareFailedText), Finished]
    ensures StepSucceeds(tool(CertificateCommand(cfg, resolve))) && StepSucceeds(tool(FirmwareCommand(cfg, resolve))) ==>
      t.events == [ShowMessage(Success, DoneText), Finished]
  {
    var certCmd, firmwareCmd := CertificateCommand(cfg, resolve), FirmwareCommand(cfg, resolve);
    var cert := FlashCertificate(cfg, resolve, tool);
    if !cert.ok then
      ErrorsThenFinish(cert.log, [ShowMessage(Error, CertificateFailedText)]);
      Trace([certCmd], cert.log + [ShowMessage(Error, CertificateFailedText)] + [Finished])
    else
      var firmware := FlashFirmware(cfg, resolve, tool);
      if !firmware.ok then
        ErrorsThenFinish(firmware.log, [ShowMessage(Error, FirmwareFailedText)]);
        Trace([certCmd, firmwareCmd], firmware.log + [ShowMessage(Error, FirmwareFailedText)] + [Finished])
      else
        var events := [ShowMessage(Success, DoneText), Finished];
        assert events[0].ShowMessage? && events[0].kind == Success;
        Trace([certCmd, firmwareCmd], events)
  }

  /** Which failure `Run` reports: the certificate failure exactly when that step
      failed, the firmware failure exactly when only the firmware step failed. */
  lemma RunNamesFailedStep(cfg: Config, resolve: Resolver, tool: Runner)
    ensures var t := Run(cfg, resolve, tool);
      && (ShowMessage(Error, CertificateFailedText) in t.events <==>
           !StepSucceeds(tool(CertificateCommand(cfg, resolve))))
      && (ShowMessage(Error, FirmwareFailedText) in t.events <==>
           StepSucceeds(tool(CertificateCommand(cfg, resolve))) && !StepSucceeds(tool(FirmwareCommand(cfg, resolve))))
  {
    CertificateFailureNamed(cfg, resolve, tool);
    FirmwareFailureNamed(cfg, resolve, tool);
  }

  lemma CertificateFailureNamed(cfg: Config, resolve: Resolver, tool: Runner)
    ensures ShowMessage(Error, CertificateFailedText) in Run(cfg, resolve, tool).events <==>
            !StepSucceeds(tool(CertificateCommand(cfg, resolve)))
  {
    var t := Run(cfg, resolve, tool);
    var cert := RunStep(tool(CertificateCommand(cfg, resolve)), CertificateErrorText);
    var firmware := RunStep(tool(FirmwareCommand(cfg, resolve)), FirmwareErrorText);
    StepLogHasNoVerdict(tool(CertificateCommand(cfg, resolve)), CertificateErrorText);
    StepLogHasNoVerdict(tool(FirmwareCommand(cfg, resolve)), FirmwareErrorText);
    if !cert.ok {
      assert t.events == cert.log + [ShowMessage(Error, CertificateFailedText)] + [Finished];
    }
  }

  lemma FirmwareFailureNamed(cfg: Config, resolve: Resolver, tool: Runner)
    ensures ShowMessage(Error, FirmwareFailedText) in Run(cfg, resolve, tool).events <==>
            StepSucceeds(tool(CertificateCommand(cfg, resolve))) && !StepSucceeds(tool(FirmwareCommand(cfg, resolve)))
  {
    var t := Run(cfg, resolve, tool);
    var cert := RunStep(tool(CertificateCommand(cfg, resolve)), CertificateErrorText);
    var firmware := RunStep(tool(FirmwareCommand(cfg, resolve)), FirmwareErrorText);
    StepLogHasNoVerdict(tool(CertificateCommand(cfg, resolve)), CertificateErrorText);
    StepLogHasNoVerdict(tool(FirmwareCommand(cfg, resolve)), FirmwareErrorText);
    if cert.ok && !firmware.ok {
      assert t.events == cert.log + firmware.log + [ShowMessage(Error, FirmwareFailedText)] + [Finished];
    }
  }

  /** A step's own messages are never the thread's verdict messages: each of them
      starts with "An error" or "An unexpected error", and neither verdict does. */
  lemma StepLogHasNoVerdict(run: ProcessRun, errorText: string)
    requires errorText == CertificateErrorText || errorText == FirmwareErrorText
    ensures forall e :: e in RunStep(run, errorText).log ==>
      e.ShowMessage? && e.text != CertificateFailedText && e.text != FirmwareFailedText
  {
    assert errorText[0] == 'A';
    assert CertificateFailedText[0] == 'C' && FirmwareFailedText[0] == 'F';
    match run.end
    case Raised(m) => assert (UnexpectedErrorPrefix + m)[0] == 'A';
    case Exited(_, stderr) => assert (errorText + stderr)[0] == 'A';
  }

  // ---------------------------------------------------------------------------
  // FlashFirmwareH2Thread (flash.py variant)

  /** The constructor arguments of this file's `FlashFirmwareH2Thread`; `command`
      is the esptool subcommand. */
  datatype H2Config = H2Config(
    port: string,
    baud: string,
    command: string,
    bootloaderAddress: string,
    partitionTableAddress: string,
    firmwareAddress: string)

  function H2Images(cfg: H2Config, resolve: Resolver): seq<(string, string)> {
    [ (cfg.bootloaderAddress, resolve("bootloader", FirmwareH2)),
      (cfg.partitionTableAddress, resolve("partition-table", FirmwareH2)),
      (cfg.firmwareAddress, resolve("H2", FirmwareH2)) ]
  }

  /** The argument list of this `flash_firmware`: the caller's subcommand stands
      where the other threads put `write_flash`. */
  function H2Command(cfg: H2Config, resolve: Resolver): (cmd: Command)
    ensures cmd == [Tool, "--port", cfg.port, "--baud", cfg.baud, cfg.command,
                    cfg.bootloaderAddress, resolve("bootloader", FirmwareH2),
                    cfg.partitionTableAddress, resolve("partition-table", FirmwareH2),
                    cfg.firmwareAddress, resolve("H2", FirmwareH2)]
    ensures ParseCommand(cmd) == Some(Invocation(cfg.port, cfg.baud, cfg.command, H2Images(cfg, resolve)))
  {
    var imgs := H2Images(cfg, resolve);
    var inv := Invocation(cfg.port, cfg.baud, cfg.command, imgs);
    FlattenCons(imgs[2], []);
    FlattenCons(imgs[1], [imgs[2]]);
    FlattenCons(imgs[0], imgs[1..]);
    ParseBuild(inv);
    BuildCommand(inv)
  }

  /** This file's H2 `flash_firmware`; its error text says "certificate", as written. */
  function FlashH2Firmware(cfg: H2Config, resolve: Resolver, tool: Runner): (r: StepResult)
    ensures var run := tool(H2Command(cfg, resolve));
      && (r.ok <==> run.end.Exited? && run.end.code == 0 && SentinelSeen(run.stdout))
      && (run.end.Exited? && run.end.code != 0 ==>
            r.log == [ShowMessage(Error, CertificateErrorText + run.end.stderr)])
      && (run.end.Raised? ==> r.log == [ShowMessage(Error, UnexpectedErrorPrefix + run.end.message)])
      && (run.end.Exited? && run.end.code == 0 ==> r.log == [])
      && OnlyErrors(r.log)
  {
    RunStep(tool(H2Command(cfg, resolve)), CertificateErrorText)
  }

  /** This file's `FlashFirmwareH2Thread.run`. */
  function RunH2(cfg: H2Config, resolve: Resolver, tool: Runner): (t: Trace)
    ensures t.spawned == [H2Command(cfg, resolve)]
    ensures FinishesOnce(t.events)
    ensures Shows(t.events, Success) <==> StepSucceeds(tool(H2Command(cfg, resolve)))
    ensures Shows(t.events, Error) <==> !StepSucceeds(tool(H2Command(cfg, resolve)))
    ensures ShowMessage(Error, FirmwareFailedText) in t.events <==> !StepSucceeds(tool(H2Command(cfg, resolve)))
    ensures StepSucceeds(tool(H2Command(cfg, resolve))) ==> t.events == [ShowMessage(Success, H2DoneText), Finished]
    ensures !StepSucceeds(tool(H2Command(cfg, resolve))) ==>
      t.events == FlashH2Firmware(cfg, resolve, tool).log + [ShowMessage(Error, FirmwareFailedText), Finished]
  {
    var t := SingleStepRun(H2Command(cfg, resolve), tool, CertificateErrorText, FirmwareFailedText, H2DoneText);
    assert !StepSucceeds(tool(H2Command(cfg, resolve))) ==> t.events[|t.events| - 2] == ShowMessage(Error, FirmwareFailedText);
    t
  }
}
