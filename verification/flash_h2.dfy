/**
  components/flashH2/flashH2.py: the stand-alone `FlashFirmwareH2Thread`,
  which flashes the ESP32-H2 bootloader, partition table and firmware with
  `write_flash` and reports the outcome once.
 */
module FlashH2 {
  import opened Wrappers
  import opened Esptool

  const FirmwareErrorText: string := FlashingErrorPrefix + "firmware: "
  const FailedText: string := "Firmware flashing failed."
  const DoneText: string := "H2 Firmware flashing completed successfully!"

  /** The constructor arguments of this file's `FlashFirmwareH2Thread`. */
  datatype Config = Config(
    port: string,
    baud: string,
    bootloaderAddress: string,
    partitionTableAddress: string,
    firmwareAddress: string)

  /** The H2 images, in flashing order. */
  function Images(cfg: Config, resolve: Resolver): seq<(string, string)> {
    [ (cfg.bootloaderAddress, resolve("bootloader", FirmwareH2)),
      (cfg.partitionTableAddress, resolve("partition-table", FirmwareH2)),
      (cfg.firmwareAddress, resolve("H2", FirmwareH2)) ]
  }

  /** The argument list of `flash_firmware`. */
  function FirmwareCommand(cfg: Config, resolve: Resolver): (cmd: Command)
    ensures cmd == [Tool, "--port", cfg.port, "--baud", cfg.baud, WriteFlash,
                    cfg.bootloaderAddress, resolve("bootloader", FirmwareH2),
                    cfg.partitionTableAddress, resolve("partition-table", FirmwareH2),
                    cfg.firmwareAddress, resolve("H2", FirmwareH2)]
    ensures ParseCommand(cmd) == Some(Invocation(cfg.port, cfg.baud, WriteFlash, Images(cfg, resolve)))
  {
    var imgs := Images(cfg, resolve);
    var inv := Invocation(cfg.port, cfg.baud, WriteFlash, imgs);
    FlattenCons(imgs[2], []);
    FlattenCons(imgs[1], [imgs[2]]);
    FlattenCons(imgs[0], imgs[1..]);
    ParseBuild(inv);
    BuildCommand(inv)
  }

  /** `flash_firmware`: the sentinel flag is a local that starts false, so the
      verdict depends on this run's output only. */
  function FlashFirmware(cfg: Config, resolve: Resolver, tool: Runner): (r: StepResult)
    ensures var run := tool(FirmwareCommand(cfg, resolve));
      && (r.ok <==> run.end.Exited? && run.end.code == 0 && SentinelSeen(run.stdout))
      && (run.end.Exited? && run.end.code != 0 ==>
            r.log == [ShowMessage(Error, FirmwareErrorText + run.end.stderr)])
      && (run.end.Raised? ==> r.log == [ShowMessage(Error, UnexpectedErrorPrefix + run.end.message)])
      && (run.end.Exited? && run.end.code == 0 ==> r.log == [])
  {
    RunStep(tool(FirmwareCommand(cfg, resolve)), FirmwareErrorText)
  }

  /** `run`: on failure the step's own messages and then the failure message, on
      success only the completion message; `finished` once at the end. */
  function Run(cfg: Config, resolve: Resolver, tool: Runner): (t: Trace)
    ensures t.spawned == [FirmwareCommand(cfg, resolve)]
    ensures FinishesOnce(t.events)
    ensures Shows(t.events, Success) <==> StepSucceeds(tool(FirmwareCommand(cfg, resolve)))
    ensures Shows(t.events, Error) <==> !StepSucceeds(tool(FirmwareCommand(cfg, resolve)))
    ensures ShowMessage(Error, FailedText) in t.events <==> !StepSucceeds(tool(FirmwareCommand(cfg, resolve)))
    ensures StepSucceeds(tool(FirmwareCommand(cfg, resolve))) ==> t.events == [ShowMessage(Success, DoneText), Finished]
    ensures !StepSucceeds(tool(FirmwareCommand(cfg, resolve))) ==>
      t.events == FlashFirmware(cfg, resolve, tool).log + [ShowMessage(Error, FailedText), Finished]
  {
    var t := SingleStepRun(FirmwareCommand(cfg, resolve), tool, FirmwareErrorText, FailedText, DoneText);
    assert !StepSucceeds(tool(FirmwareCommand(cfg, resolve))) ==> t.events[|t.events| - 2] == ShowMessage(Error, FailedText);
    t
  }
}
