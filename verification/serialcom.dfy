/**
  components/serialcom/serialcom.py: `SerialReaderThread`, which listens on the
  factory serial port, forwards every received line and latches factory mode
  when the device prints a line consisting of ".".

  The polling loop is a fold over a finite script of what each turn of
  `while self.running` saw: nothing waiting, a line, or a serial exception.
  The script ends where the loop observed `running` false.
 */
module SerialCom {
  import opened Wrappers
  import Text

  /** The line the device prints when it is ready for factory mode. */
  const FactoryPrompt: string := "."

  const ErrorPrefix: string := "Error: "

  /** The `serial.Serial` object the reader holds. */
  datatype Connection = Connection(isOpen: bool)

  /** The reader's fields. */
  datatype Reader = Reader(port: string, baud: string, conn: Option<Connection>, running: bool, factoryStatus: bool)

  /** The two signals the reader emits. */
  datatype SerialEvent = DataReceived(text: string) | FactoryStatusChanged(status: bool)

  /** One turn of the loop: `in_waiting` was 0, or a line was read (already decoded),
      or pyserial raised `SerialException`. */
  datatype Poll = Idle | Incoming(raw: string) | Fault(message: string)

  /** Opening the port: it opened, or `serial.Serial(...)` raised `SerialException`. */
  datatype OpenResult = Opened | OpenFailed(message: string)

  datatype ReaderRun = ReaderRun(reader: Reader, events: seq<SerialEvent>)

  /** `SerialReaderThread.__init__`. */
  function NewReader(port: string, baud: string): (r: Reader)
    ensures r.running && !r.factoryStatus && r.conn.None?
    ensures r.port == port && r.baud == baud
  {
    Reader(port, baud, None, true, false)
  }

  // ---------------------------------------------------------------------------
  // Reference views of a poll script and of an event log

  /** The stripped lines the loop reads before the first serial exception. */
  function Received(polls: seq<Poll>): seq<string> {
    if polls == [] then []
    else match polls[0]
      case Idle => Received(polls[1..])
      case Incoming(raw) => [Text.Strip(raw)] + Received(polls[1..])
      case Fault(_) => []
  }

  /** The message of the first serial exception, if the script has one. */
  function FirstFault(polls: seq<Poll>): Option<string> {
    if polls == [] then None
    else match polls[0]
      case Idle => FirstFault(polls[1..])
      case Incoming(_) => FirstFault(polls[1..])
      case Fault(m) => Some(m)
  }

  /** The texts of the `data_received` emissions, in order. */
  function DataTexts(events: seq<SerialEvent>): seq<string> {
    if events == [] then []
    else if events[0].DataReceived? then [events[0].text] + DataTexts(events[1..])
    else DataTexts(events[1..])
  }

  /** The number of `factory_status_changed` emissions. */
  function StatusChanges(events: seq<SerialEvent>): nat {
    if events == [] then 0
    else (if events[0].FactoryStatusChanged? then 1 else 0) + StatusChanges(events[1..])
  }

  /** The number of received lines equal to the prompt. */
  function Prompts(lines: seq<string>): nat {
    if lines == [] then 0
    else (if lines[0] == FactoryPrompt then 1 else 0) + Prompts(lines[1..])
  }

  /** Every status change carries true and directly follows the prompt line it reacts to. */
  ghost predicate ChangesFollowPrompts(events: seq<SerialEvent>) {
    forall i :: 0 <= i < |events| && events[i].FactoryStatusChanged? ==>
      events[i].status && i > 0 && events[i - 1] == DataReceived(FactoryPrompt)
  }

  lemma DataTextsAppend(a: seq<SerialEvent>, b: seq<SerialEvent>)
    ensures DataTexts(a + b) == DataTexts(a) + DataTexts(b)
    ensures StatusChanges(a + b) == StatusChanges(a) + StatusChanges(b)
  {
    if a == [] {
      assert a + b == b;
    } else {
      assert (a + b)[1..] == a[1..] + b;
      DataTextsAppend(a[1..], b);
    }
  }

  /** The events of one received line, followed by a well-formed log, form a well-formed log. */
  lemma PrependLine(data: string, rest: seq<SerialEvent>)
    requires ChangesFollowPrompts(rest)
    ensures ChangesFollowPrompts(LineEvents(data) + rest)
  {
    var head := LineEvents(data);
    var events := head + rest;
    forall i | 0 <= i < |events| && events[i].FactoryStatusChanged?
      ensures events[i].status && i > 0 && events[i - 1] == DataReceived(FactoryPrompt)
    {
      if i >= |head| {
        assert events[i] == rest[i - |head|];
        if i - |head| > 0 { assert events[i - 1] == rest[i - |head| - 1]; }
      }
    }
  }

  lemma LineEventsCounts(data: string)
    ensures DataTexts(LineEvents(data)) == [data]
    ensures StatusChanges(LineEvents(data)) == if data == FactoryPrompt then 1 else 0
  {
    var e := LineEvents(data);
    var tail := e[1..];
    assert tail == if data == FactoryPrompt then [FactoryStatusChanged(true)] else [];
    assert DataTexts(e) == [data] + DataTexts(tail);
    assert StatusChanges(e) == StatusChanges(tail);
    if data == FactoryPrompt {
      assert tail[1..] == [];
      assert DataTexts(tail) == DataTexts(tail[1..]) == [];
      assert StatusChanges(tail) == 1 + StatusChanges(tail[1..]);
    }
  }

  // ---------------------------------------------------------------------------
  // The loop

  /** What one received line is forwarded as: the line itself, then a status
      change if it is the prompt. */
  function LineEvents(data: string): seq<SerialEvent> {
    [DataReceived(data)] + (if data == FactoryPrompt then [FactoryStatusChanged(true)] else [])
  }

  /**
    The body of `while self.running` in `factory_mode`: each line is stripped
    and forwarded; a line equal to "." latches factory status and emits a
    status change; a serial exception ends the loop with one error line.
   */
  function Listen(rd: Reader, polls: seq<Poll>): (res: ReaderRun)
    decreases |polls|
    ensures StatusChanges(res.events) == Prompts(Received(polls))
    ensures ChangesFollowPrompts(res.events)
    ensures res.reader.factoryStatus <==> rd.factoryStatus || FactoryPrompt in Received(polls)
    ensures res.reader == rd.(factoryStatus := res.reader.factoryStatus)
  {
    if polls == [] then ReaderRun(rd, [])
    else match polls[0]
      case Idle => Listen(rd, polls[1..])
      case Fault(m) => ReaderRun(rd, [DataReceived(ErrorPrefix + m)])
      case Incoming(raw) =>
        var data := Text.Strip(raw);
        var latched := if data == FactoryPrompt then rd.(factoryStatus := true) else rd;
        var head := LineEvents(data);
        var rest := Listen(latched, polls[1..]);
        DataTextsAppend(head, rest.events);
        PrependLine(data, rest.events);
        ReaderRun(rest.reader, head + rest.events)
  }

  /** The error line and the forwarded lines the loop emits for a script. */
  function Forwarded(polls: seq<Poll>): seq<string> {
    Received(polls) + (if FirstFault(polls).Some? then [ErrorPrefix + FirstFault(polls).value] else [])
  }

  /** Every line read is forwarded, stripped and in arrival order; a serial
      exception adds exactly one error line and ends the loop. */
  lemma {:induction false} ListenForwardsLines(rd: Reader, polls: seq<Poll>)
    decreases |polls|
    ensures DataTexts(Listen(rd, polls).events) == Forwarded(polls)
  {
    if polls != [] {
      match polls[0]
      case Idle =>
        ListenForwardsLines(rd, polls[1..]);
        assert Forwarded(polls) == Forwarded(polls[1..]);
      case Fault(m) =>
        assert DataTexts([DataReceived(ErrorPrefix + m)]) == [ErrorPrefix + m];
      case Incoming(raw) =>
        var data := Text.Strip(raw);
        var latched := if data == FactoryPrompt then rd.(factoryStatus := true) else rd;
        ListenForwardsLines(latched, polls[1..]);
        ForwardIncoming(rd, polls, data, latched);
    }
  }

  lemma ListenIncoming(rd: Reader, polls: seq<Poll>, data: string, latched: Reader)
    requires polls != [] && polls[0].Incoming? && data == Text.Strip(polls[0].raw)
    requires latched == if data == FactoryPrompt then rd.(factoryStatus := true) else rd
    ensures Listen(rd, polls).events == LineEvents(data) + Listen(latched, polls[1..]).events
  {
  }

  lemma ForwardedIncoming(polls: seq<Poll>, data: string)
    requires polls != [] && polls[0].Incoming? && data == Text.Strip(polls[0].raw)
    ensures Forwarded(polls) == [data] + Forwarded(polls[1..])
  {
    assert Received(polls) == [data] + Received(polls[1..]);
    assert FirstFault(polls) == FirstFault(polls[1..]);
  }

  /** The inductive step of `ListenForwardsLines` for a turn that read a line. */
  lemma ForwardIncoming(rd: Reader, polls: seq<Poll>, data: string, latched: Reader)
    requires polls != [] && polls[0].Incoming? && data == Text.Strip(polls[0].raw)
    requires latched == if data == FactoryPrompt then rd.(factoryStatus := true) else rd
    requires DataTexts(Listen(latched, polls[1..]).events) == Forwarded(polls[1..])
    ensures DataTexts(Listen(rd, polls).events) == Forwarded(polls)
  {
    var rest := Listen(latched, polls[1..]).events;
    ListenIncoming(rd, polls, data, latched);
    ForwardedIncoming(polls, data);
    DataTextsAppend(LineEvents(data), rest);
    LineEventsCounts(data);
  }

  /**
    `factory_mode`: reset factory status, open the port, then run the loop if
    the reader is still running. A failure to open is reported as one error line.
   */
  function FactoryMode(rd: Reader, open: OpenResult, polls: seq<Poll>): (res: ReaderRun)
    ensures res.reader.factoryStatus <==> rd.running && open.Opened? && FactoryPrompt in Received(polls)
    ensures res.reader.running == rd.running
    ensures res.reader == rd.(factoryStatus := res.reader.factoryStatus, conn := res.reader.conn)
    ensures open.OpenFailed? ==>
      res.events == [DataReceived(ErrorPrefix + open.message)] && res.reader.conn == rd.conn
    ensures open.Opened? ==> res.reader.conn == Some(Connection(true))
    ensures open.Opened? && !rd.running ==> res.events == []
    ensures open.Opened? && rd.running ==>
      && DataTexts(res.events) == Forwarded(polls)
      && StatusChanges(res.events) == Prompts(Received(polls))
    ensures ChangesFollowPrompts(res.events)
  {
    var reset := rd.(factoryStatus := false);
    match open
    case OpenFailed(m) => ReaderRun(reset, [DataReceived(ErrorPrefix + m)])
    case Opened =>
      var connected := reset.(conn := Some(Connection(true)));
      if !rd.running then ReaderRun(connected, [])
      else ListenForwardsLines(connected, polls); Listen(connected, polls)
  }

  // ---------------------------------------------------------------------------
  // Properties of the loop

  function DropIdle(polls: seq<Poll>): (r: seq<Poll>)
    ensures |r| <= |polls|
    ensures forall i :: 0 <= i < |r| ==> !r[i].Idle?
  {
    if polls == [] then []
    else if polls[0].Idle? then DropIdle(polls[1..])
    else [polls[0]] + DropIdle(polls[1..])
  }

  /** Nothing is read and nothing is emitted on a turn where no byte was waiting. */
  lemma {:induction false} IdleTurnsIgnored(rd: Reader, polls: seq<Poll>)
    ensures Listen(rd, DropIdle(polls)) == Listen(rd, polls)
    decreases |polls|
  {
    if polls != [] {
      IdleTurnsIgnored(rd, polls[1..]);
      var d := DropIdle(polls);
      match polls[0]
      case Idle =>
      case Fault(_) =>
        assert d[0] == polls[0];
      case Incoming(raw) =>
        assert d[0] == polls[0] && d[1..] == DropIdle(polls[1..]);
        var data := Text.Strip(raw);
        var latched := if data == FactoryPrompt then rd.(factoryStatus := true) else rd;
        IdleTurnsIgnored(latched, polls[1..]);
    }
  }

  /** What is received from a prefix of the script is a prefix of what is received from all of it. */
  lemma {:induction false} ReceivedPrefix(polls: seq<Poll>, k: nat)
    requires k <= |polls|
    ensures Received(polls[..k]) <= Received(polls)
  {
    if k > 0 {
      assert polls[..k][1..] == polls[1..][..k - 1];
      ReceivedPrefix(polls[1..], k - 1);
    }
  }

  /** Factory status is monotone within one loop run: once latched after some
      prefix of the script, it is still latched after the whole script. */
  lemma FactoryStatusMonotone(rd: Reader, polls: seq<Poll>, k: nat)
    requires k <= |polls|
    requires Listen(rd, polls[..k]).reader.factoryStatus
    ensures Listen(rd, polls).reader.factoryStatus
  {
    ReceivedPrefix(polls, k);
    if !rd.factoryStatus {
      var i :| 0 <= i < |Received(polls[..k])| && Received(polls[..k])[i] == FactoryPrompt;
      assert Received(polls)[i] == FactoryPrompt;
    }
  }

  // ---------------------------------------------------------------------------
  // stop

  /** The reader after `stop`, and whether `close()` was called on the connection. */
  datatype StopResult = StopResult(reader: Reader, closed: bool)

  /** `stop`: clear the running flag; close and drop the connection only if it
      exists and is open. */
  function Stop(rd: Reader): (r: StopResult)
    ensures !r.reader.running
    ensures r.closed <==> rd.conn == Some(Connection(true))
    ensures r.closed ==> r.reader.conn.None?
    ensures !r.closed ==> r.reader.conn == rd.conn
    ensures r.reader == rd.(running := false, conn := r.reader.conn)
  {
    var stopped := rd.(running := false);
    if rd.conn.Some? && rd.conn.value.isOpen then StopResult(stopped.(conn := None), true)
    else StopResult(stopped, false)
  }

  /** A second `stop` changes nothing and closes nothing. */
  lemma StopIdempotent(rd: Reader)
    ensures Stop(Stop(rd).reader) == StopResult(Stop(rd).reader, false)
  {
  }
}
