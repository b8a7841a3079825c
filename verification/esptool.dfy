/**
  What every flashing thread has in common: the `esptool.py` argument list,
  the messages a thread emits, and the rule that decides whether one flashing
  step succeeded (the reset sentinel seen on stdout and exit code 0).

  The external process is abstracted to a `ProcessRun`: the stdout lines it
  produced, then either its exit code with its stderr text or the exception
  raised while spawning or streaming it.
 */
module Esptool {
  import opened Wrappers
  import Text

  const Tool: string := "esptool.py"
  const WriteFlash: string := "write_flash"

  /** The stdout substring esptool prints once it has reset the chip. */
  const Sentinel: string := "Hard resetting via RTS pin..."

  const UnexpectedErrorPrefix: string := "An unexpected error occurred: "

  /** The common head of the non-zero-exit messages; each step appends what it flashed. */
  const FlashingErrorPrefix: string := "An error occurred while flashing the "

  /** How the process ended: it exited (with its stderr text), or spawning or reading it raised. */
  datatype ProcessEnd = Exited(code: int, stderr: string) | Raised(message: string)

  datatype ProcessRun = ProcessRun(stdout: seq<string>, end: ProcessEnd)

  type Command = seq<string>

  /** The external tool: what running a given argument list produces. */
  type Runner = Command -> ProcessRun

  /** The directories `Utils.filepath_*` name, under which images are looked up. */
  datatype ImageDir = FirmwareS3 | CertificatesS3 | FirmwareH2

  /** `Utils.find_bin_path(keyword, dir)`: the image path for a keyword. */
  type Resolver = (string, ImageDir) -> string

  /** The two titles a thread's `show_message` signal carries. */
  datatype Kind = Error | Success

  /** One signal emission of a flashing thread. */
  datatype Event = ShowMessage(kind: Kind, text: string) | Finished

  /** A thread's observable behaviour: the commands it tried to spawn, in order
      (a command is listed even when spawning it raised), and the signals it emitted. */
  datatype Trace = Trace(spawned: seq<Command>, events: seq<Event>)

  // ---------------------------------------------------------------------------
  // Command line

  /** The parts of an esptool invocation: port, baud, subcommand and address/image pairs. */
  datatype Invocation = Invocation(port: string, baud: string, subcommand: string, images: seq<(string, string)>)

  function FlattenPairs(pairs: seq<(string, string)>): (r: seq<string>)
    ensures |r| == 2 * |pairs|
    ensures forall k :: 0 <= k < |pairs| ==> r[2 * k] == pairs[k].0 && r[2 * k + 1] == pairs[k].1
  {
    if pairs == [] then [] else [pairs[0].0, pairs[0].1] + FlattenPairs(pairs[1..])
  }

  function BuildCommand(inv: Invocation): (cmd: Command)
    ensures |cmd| == 6 + 2 * |inv.images|
    ensures cmd[..6] == [Tool, "--port", inv.port, "--baud", inv.baud, inv.subcommand]
    ensures forall k :: 0 <= k < |inv.images| ==>
      cmd[6 + 2 * k] == inv.images[k].0 && cmd[7 + 2 * k] == inv.images[k].1
  {
    [Tool, "--port", inv.port, "--baud", inv.baud, inv.subcommand] + FlattenPairs(inv.images)
  }

  /** Flattening one more leading pair puts its address and path in front. */
  lemma FlattenCons(p: (string, string), rest: seq<(string, string)>)
    ensures FlattenPairs([p] + rest) == [p.0, p.1] + FlattenPairs(rest)
  {
    assert ([p] + rest)[1..] == rest;
  }

  function ParsePairs(args: seq<string>): Option<seq<(string, string)>>
  {
    if args == [] then Some([])
    else if |args| == 1 then None
    else match ParsePairs(args[2..])
      case None => None
      case Some(rest) => Some([(args[0], args[1])] + rest)
  }

  /** Reads an argument list back into its parts; None if it is not an esptool invocation. */
  function ParseCommand(cmd: Command): Option<Invocation>
  {
    if |cmd| < 6 || cmd[0] != Tool || cmd[1] != "--port" || cmd[3] != "--baud" then None
    else match ParsePairs(cmd[6..])
      case None => None
      case Some(images) => Some(Invocation(cmd[2], cmd[4], cmd[5], images))
  }

  lemma {:induction false} ParseFlatten(pairs: seq<(string, string)>)
    ensures ParsePairs(FlattenPairs(pairs)) == Some(pairs)
  {
    if pairs != [] {
      var f := FlattenPairs(pairs);
      assert f[2..] == FlattenPairs(pairs[1..]);
      ParseFlatten(pairs[1..]);
      assert [(pairs[0].0, pairs[0].1)] + pairs[1..] == pairs;
    }
  }

  lemma {:induction false} FlattenParse(args: seq<string>)
    requires ParsePairs(args).Some?
    ensures FlattenPairs(ParsePairs(args).value) == args
  {
    if args != [] {
      FlattenParse(args[2..]);
      var ps := ParsePairs(args).value;
      assert ps[1..] == ParsePairs(args[2..]).value;
      assert args == [args[0], args[1]] + args[2..];
    }
  }

  /** Every invocation is recovered from the argument list built for it. */
  lemma ParseBuild(inv: Invocation)
    ensures ParseCommand(BuildCommand(inv)) == Some(inv)
  {
    var cmd := BuildCommand(inv);
    assert cmd[6..] == FlattenPairs(inv.images);
    ParseFlatten(inv.images);
  }

  /** Every argument list that parses is the one built from its parts. */
  lemma BuildParse(cmd: Command)
    requires ParseCommand(cmd).Some?
    ensures BuildCommand(ParseCommand(cmd).value) == cmd
  {
    FlattenParse(cmd[6..]);
    assert cmd == cmd[..6] + cmd[6..];
  }

  // ---------------------------------------------------------------------------
  // Success rule

  /** Reference definition: some stdout line contains the reset sentinel. */
  ghost predicate SentinelSeen(lines: seq<string>) {
    exists i :: 0 <= i < |lines| && Text.Contains(lines[i], Sentinel)
  }

  /** The streaming loop over stdout: `seen` is the flag as it stands before `lines`. */
  function ScanForSentinel(lines: seq<string>, seen: bool): (r: bool)
    ensures r <==> seen || SentinelSeen(lines)
  {
    if lines == [] then seen
    else
      var r := ScanForSentinel(lines[1..], seen || Text.In(Sentinel, lines[0]));
      assert forall i :: 1 <= i < |lines| ==> lines[i] == lines[1..][i - 1];
      r
  }

  /** Reference definition of a successful step: clean exit with the sentinel observed. */
  ghost predicate StepSucceeds(run: ProcessRun) {
    run.end.Exited? && run.end.code == 0 && SentinelSeen(run.stdout)
  }

  /** One step's verdict and the messages it emitted along the way. */
  datatype StepResult = StepResult(ok: bool, log: seq<Event>)

  /**
    One flashing step (`flash_firmware`, `flash_certificate`): scan stdout for
    the sentinel with a flag that starts false, then judge by the exit code.
    `errorText` is the step's own prefix for a non-zero exit.
   */
  function RunStep(run: ProcessRun, errorText: string): (r: StepResult)
    ensures r.ok <==> StepSucceeds(run)
    ensures run.end.Exited? && run.end.code != 0 ==>
      r.log == [ShowMessage(Error, errorText + run.end.stderr)]
    ensures run.end.Raised? ==> r.log == [ShowMessage(Error, UnexpectedErrorPrefix + run.end.message)]
    ensures run.end.Exited? && run.end.code == 0 ==> r.log == []
    ensures OnlyErrors(r.log)
  {
    match run.end
    case Raised(message) => StepResult(false, [ShowMessage(Error, UnexpectedErrorPrefix + message)])
    case Exited(code, stderr) =>
      var seen := ScanForSentinel(run.stdout, false);
      if code != 0 then StepResult(false, [ShowMessage(Error, errorText + stderr)])
      else StepResult(seen, [])
  }

  // ---------------------------------------------------------------------------
  // Event logs

  /** `finished` is the last event and is emitted exactly once. */
  ghost predicate FinishesOnce(events: seq<Event>) {
    && |events| > 0
    && events[|events| - 1] == Finished
    && forall i :: 0 <= i < |events| - 1 ==> events[i] != Finished
  }

  /** Every event is an Error message. */
  ghost predicate OnlyErrors(log: seq<Event>) {
    forall e :: e in log ==> e.ShowMessage? && e.kind == Error
  }

  /** Error messages followed by `finished`: finished once, and no Success shown. */
  lemma ErrorsThenFinish(log: seq<Event>, tail: seq<Event>)
    requires OnlyErrors(log) && OnlyErrors(tail)
    ensures FinishesOnce(log + tail + [Finished])
    ensures !Shows(log + tail + [Finished], Success)
  {
    var events := log + tail + [Finished];
    forall i | 0 <= i < |events| - 1
      ensures events[i].ShowMessage? && events[i].kind == Error
    {
      if i < |log| { assert events[i] == log[i] && log[i] in log; }
      else { assert events[i] == tail[i - |log|] && tail[i - |log|] in tail; }
    }
  }

  /** Some message of the given kind was shown. */
  ghost predicate Shows(events: seq<Event>, kind: Kind) {
    exists i :: 0 <= i < |events| && events[i].ShowMessage? && events[i].kind == kind
  }

  /** The `run` of a single-step thread: flash once, then emit the failure or the
      success message, then `finished`. */
  function SingleStepRun(cmd: Command, tool: Runner, errorText: string, failedText: string, doneText: string): (t: Trace)
    ensures t.spawned == [cmd]
    ensures FinishesOnce(t.events)
    ensures Shows(t.events, Success) <==> StepSucceeds(tool(cmd))
    ensures StepSucceeds(tool(cmd)) ==> t.events == [ShowMessage(Success, doneText), Finished]
    ensures !StepSucceeds(tool(cmd)) ==>
      t.events == RunStep(tool(cmd), errorText).log + [ShowMessage(Error, failedText), Finished]
  {
    var step := RunStep(tool(cmd), errorText);
    if step.ok then
      var events := [ShowMessage(Success, doneText), Finished];
      assert events[0].ShowMessage? && events[0].kind == Success;
      Trace([cmd], events)
    else
      ErrorsThenFinish(step.log, [ShowMessage(Error, failedText)]);
      Trace([cmd], step.log + [ShowMessage(Error, failedText)] + [Finished])
  }
}
