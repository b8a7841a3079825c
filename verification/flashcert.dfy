/**
  components/certificate_flash/flashcert.py: `FlashCertificates` flashes the
  secure-certificate and data-provider partitions. Unlike the other threads it
  checks the exit code and the sentinel independently, so a failed exit and a
  Success message can both be reported; `finished` is emitted from `finally`.
 */
module FlashCert {
  import opened Wrappers
  import Text
  import opened Esptool

  const ErrorText: string := FlashingErrorPrefix + "certificates: "
  const DoneText: string := "Certificates flashing completed successfully!"

  /** The constructor arguments of `FlashCertificates`. */
  datatype Config = Config(
    port: string,
    baud: string,
    secureCertPartition: string,
    dataProviderPartition: string)

  function Images(cfg: Config, resolve: Resolver): seq<(string, string)> {
    [ (cfg.secureCertPartition, resolve("secure_cert", CertificatesS3)),
      (cfg.dataProviderPartition, resolve("partition", CertificatesS3)) ]
  }

  /** The argument list `run` spawns. */
  function Command(cfg: Config, resolve: Resolver): (cmd: Esptool.Command)
    ensures cmd == [Tool, "--port", cfg.port, "--baud", cfg.baud, WriteFlash,
                    cfg.secureCertPartition, resolve("secure_cert", CertificatesS3),
                    cfg.dataProviderPartition, resolve("partition", CertificatesS3)]
    ensures ParseCommand(cmd) == Some(Invocation(cfg.port, cfg.baud, WriteFlash, Images(cfg, resolve)))
  {
    var imgs := Images(cfg, resolve);
    var inv := Invocation(cfg.port, cfg.baud, WriteFlash, imgs);
    FlattenCons(imgs[1], []);
    FlattenCons(imgs[0], [imgs[1]]);
    ParseBuild(inv);
    BuildCommand(inv)
  }

  /** What `run` emits before `finished`, as written: the exit-code check and the
      sentinel check are independent; an exception skips both. */
  function Report(run: ProcessRun): seq<Event> {
    match run.end
    case Raised(message) => [ShowMessage(Error, UnexpectedErrorPrefix + message)]
    case Exited(code, stderr) =>
      var seen := ScanForSentinel(run.stdout, false);
      (if code != 0 then [ShowMessage(Error, ErrorText + stderr)] else [])
      + (if seen then [ShowMessage(Success, DoneText)] else [])
  }

  /** Which kinds of message the as-written report contains. */
  lemma ReportKinds(run: ProcessRun)
    ensures var events := Report(run) + [Finished];
      && (Shows(events, Error) <==> !(run.end.Exited? && run.end.code == 0))
      && (Shows(events, Success) <==> run.end.Exited? && SentinelSeen(run.stdout))
  {
    var events := Report(run) + [Finished];
    match run.end
    case Raised(m) =>
      assert events == [ShowMessage(Error, UnexpectedErrorPrefix + m), Finished];
      assert events[0].kind == Error;
    case Exited(code, stderr) =>
      var seen := ScanForSentinel(run.stdout, false);
      var errors: seq<Event> := if code != 0 then [ShowMessage(Error, ErrorText + stderr)] else [];
      var successes: seq<Event> := if seen then [ShowMessage(Success, DoneText)] else [];
      assert events == errors + successes + [Finished];
      assert code != 0 ==> events[0].kind == Error;
      assert seen ==> events[|errors|].kind == Success;
      forall i | 0 <= i < |events|
        ensures events[i].ShowMessage? && events[i].kind == Error ==> code != 0
        ensures events[i].ShowMessage? && events[i].kind == Success ==> seen
      {
        if i < |errors| { assert events[i] == errors[i]; }
        else if i < |errors| + |successes| { assert events[i] == successes[i - |errors|]; }
      }
  }

  /** `FlashCertificates.run`, as written. */
  function Run(cfg: Config, resolve: Resolver, tool: Runner): (t: Trace)
    ensures t.spawned == [Command(cfg, resolve)]
    ensures FinishesOnce(t.events)
    ensures var run := tool(Command(cfg, resolve));
      && (Shows(t.events, Error) <==> !(run.end.Exited? && run.end.code == 0))
      && (Shows(t.events, Success) <==> run.end.Exited? && SentinelSeen(run.stdout))
  {
    var run := tool(Command(cfg, resolve));
    var events := Report(run) + [Finished];
    ReportKinds(run);
    assert forall i :: 0 <= i < |events| - 1 ==> events[i].ShowMessage?;
    Trace([Command(cfg, resolve)], events)
  }

  /** The exact events on each of the five paths of `run`: Error before Success
      when both are emitted, one message when only one check fires, nothing but
      `finished` on a clean exit without the sentinel, and only the
      unexpected-error message when spawning or streaming raised. */
  lemma RunEventOrder(cfg: Config, resolve: Resolver, tool: Runner)
    ensures var run := tool(Command(cfg, resolve));
      var events := Run(cfg, resolve, tool).events;
      && (run.end.Exited? && run.end.code != 0 && SentinelSeen(run.stdout) ==>
            events == [ShowMessage(Error, ErrorText + run.end.stderr), ShowMessage(Success, DoneText), Finished])
      && (run.end.Exited? && run.end.code != 0 && !SentinelSeen(run.stdout) ==>
            events == [ShowMessage(Error, ErrorText + run.end.stderr), Finished])
      && (run.end.Exited? && run.end.code == 0 && SentinelSeen(run.stdout) ==>
            events == [ShowMessage(Success, DoneText), Finished])
      && (run.end.Exited? && run.end.code == 0 && !SentinelSeen(run.stdout) ==> events == [Finished])
      && (run.end.Raised? ==> events == [ShowMessage(Error, UnexpectedErrorPrefix + run.end.message), Finished])
  {
  }

  /** A concrete run showing the discrepancy: esptool fails with exit code 2 after
      printing the sentinel, and the thread reports the failure and then Success. */
  lemma FailedExitStillReportsSuccess()
    ensures var cfg := Config("/dev/ttyUSB0", "460800", "0xd000", "0x10000");
      var resolve := (keyword: string, dir: ImageDir) => keyword + ".bin";
      var tool := (cmd: Esptool.Command) => ProcessRun([Sentinel + "\n"], Exited(2, "A fatal error occurred"));
      && Run(cfg, resolve, tool).events
         == [ShowMessage(Error, ErrorText + "A fatal error occurred"), ShowMessage(Success, DoneText), Finished]
      && !StepSucceeds(tool(Command(cfg, resolve)))
  {
    var line := Sentinel + "\n";
    assert Text.OccursAt(line, Sentinel, 0) by { assert line[0..|Sentinel|] == Sentinel; }
    assert SentinelSeen([line]) by { assert [line][0] == line; }
  }

  /** `run` with Success tied to the same rule the other threads use (clean exit
      and sentinel), so that Error and Success are never both reported. */
  function RunCorrected(cfg: Config, resolve: Resolver, tool: Runner): (t: Trace)
    ensures t.spawned == [Command(cfg, resolve)]
    ensures FinishesOnce(t.events)
    ensures var run := tool(Command(cfg, resolve));
      && (Shows(t.events, Success) <==> StepSucceeds(run))
      && (Shows(t.events, Error) <==> !(run.end.Exited? && run.end.code == 0))
      && !(Shows(t.events, Error) && Shows(t.events, Success))
  {
    var step := RunStep(tool(Command(cfg, resolve)), ErrorText);
    var events := step.log + (if step.ok then [ShowMessage(Success, DoneText)] else []) + [Finished];
    assert FinishesOnce(events) && (Shows(events, Success) <==> step.ok) by {
      if !step.ok {
        ErrorsThenFinish(step.log, []);
        assert events == step.log + [] + [Finished];
      } else {
        assert events == [ShowMessage(Success, DoneText), Finished];
        assert events[0].kind == Success;
      }
    }
    assert step.log != [] ==> events[0] == step.log[0] && step.log[0] in step.log;
    Trace([Command(cfg, resolve)], events)
  }
}
