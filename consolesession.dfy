/**
 * One connection attempt of the console client: how it ends, what it does with
 * the messages the server sends, which typed lines it sends as commands, and
 * the one-shot flag that swallows the disconnect hint after an interrupt the
 * client caused itself. The socket, the handshake and the terminal are
 * abstract: what they report is a parameter.
 */
module ConsoleSession {
  import opened Wrappers
  import opened Strings
  import opened Payloads
  import opened MessageTypes
  import opened Endpoints
  import HandshakeErrors
  import Sessions
  import Caps = ProtocolCapabilities

  // ---------------------------------------------------------------------------
  // How a session ends
  // ---------------------------------------------------------------------------

  datatype DisconnectReason = UserEof | ConnectionClosed | UnrecoverableHandshakeFailure | GenericConnectionError

  /** Whether a reason ends the client by default: the user quitting, or a handshake that cannot succeed. */
  function QuitClientByDefault(reason: DisconnectReason): (quit: bool)
    ensures quit <==> (reason == UserEof || reason == UnrecoverableHandshakeFailure)
  {
    match reason
    case UserEof => true
    case ConnectionClosed => false
    case UnrecoverableHandshakeFailure => true
    case GenericConnectionError => false
  }

  datatype SessionOutcome = SessionOutcome(didConnect: bool, disconnectReason: DisconnectReason)

  datatype AcceptInputResult = UserQuit | InputConnectionClosed

  /** What a connection attempt ran into: the handshake refused, another failure before or after
    * `connect` returned, or the input loop ending. */
  datatype Attempt =
    | HandshakeRefused(fatal: HandshakeErrors.HandshakeFatal)
    | FailedToConnect
    | FailedAfterConnect
    | InputEnded(result: AcceptInputResult)

  /** run's outcome for each way an attempt ends. */
  function RunOutcome(a: Attempt): SessionOutcome {
    match a
    case HandshakeRefused(_) => SessionOutcome(false, UnrecoverableHandshakeFailure)
    case FailedToConnect => SessionOutcome(false, GenericConnectionError)
    case FailedAfterConnect => SessionOutcome(true, GenericConnectionError)
    case InputEnded(result) => SessionOutcome(true, if result == UserQuit then UserEof else ConnectionClosed)
  }

  /** The session connected exactly when connect returned; a handshake refusal is the only
    * unrecoverable end, the user quitting the only one read as end of input. */
  lemma RunOutcomeMapping(a: Attempt)
    ensures RunOutcome(a).didConnect <==> (a.FailedAfterConnect? || a.InputEnded?)
    ensures RunOutcome(a).disconnectReason == UnrecoverableHandshakeFailure <==> a.HandshakeRefused?
    ensures RunOutcome(a).disconnectReason == UserEof <==> a == InputEnded(UserQuit)
    ensures RunOutcome(a).disconnectReason == GenericConnectionError <==> (a.FailedToConnect? || a.FailedAfterConnect?)
    ensures QuitClientByDefault(RunOutcome(a).disconnectReason) <==> (a.HandshakeRefused? || a == InputEnded(UserQuit))
  {
  }

  // ---------------------------------------------------------------------------
  // Typed input
  // ---------------------------------------------------------------------------

  /** The command a typed line becomes: its trimmed text, when that is not empty and the server
    * currently allows interactive commands. */
  function CommandFor(line: string, interactive: bool): (r: Option<string>)
    ensures r.Some? <==> interactive && exists i :: 0 <= i < |line| && !Trimmable(line[i])
    ensures r.Some? ==> r.value == Trim(line) && r.value != []
  {
    TrimEmptyIffAllTrimmable(line);
    var trimmed := Trim(line);
    if trimmed == [] then None
    else if !interactive then None
    else Some(trimmed)
  }

  /** sendCommand: one unsolicited COMMAND_EXECUTE carrying the text. */
  function CommandMessage(text: string): (m: Message)
    ensures m.msgType == COMMAND_EXECUTE && m.requestId.None? && m.payload == CommandExecute(text)
  {
    Message(COMMAND_EXECUTE, None, CommandExecute(text))
  }

  /** A command is a registered message type carrying a payload of its class. */
  lemma CommandMessageIsWellTyped(text: string)
    ensures WellTyped(CommandMessage(text))
  {
  }

  /** A command the console sends is dispatched by a server session that negotiated
    * command_execute while interactivity is available, and refused otherwise. */
  lemma CommandsReachTheServer(text: string, negotiated: map<string, int>, serverInteractive: bool)
    ensures Sessions.Gate(CommandMessage(text), negotiated, serverInteractive) ==
            if Caps.CommandExecute !in negotiated then Sessions.Refuse(Sessions.CapabilityNotNegotiated + Caps.CommandExecute)
            else if !serverInteractive then Sessions.Refuse("Interactivity is currently unavailable")
            else Sessions.Dispatch
  {
  }

  /** What the terminal's line reader reports. */
  datatype ReaderEvent = ReadLine(line: string) | EndOfInput | Interrupted | TerminalIoError

  /** The events read before the first end of input. */
  function BeforeEnd(events: seq<ReaderEvent>): (r: seq<ReaderEvent>)
    ensures |r| <= |events| && r == events[..|r|]
    ensures forall i :: 0 <= i < |r| ==> events[i] != EndOfInput
    ensures |r| < |events| ==> events[|r|] == EndOfInput
    decreases |events|
  {
    if events == [] || events[0] == EndOfInput then []
    else [events[0]] + BeforeEnd(events[1..])
  }

  /** An event other than end of input at position `i` of the read prefix lies inside it. */
  lemma ReadContinues(events: seq<ReaderEvent>, i: int)
    requires 0 <= i <= |BeforeEnd(events)| && i < |events| && events[i] != EndOfInput
    ensures i < |BeforeEnd(events)|
  {
  }

  /** An end of input at position `i` of the read prefix, or no events left, ends it there. */
  lemma ReadEnds(events: seq<ReaderEvent>, i: int)
    requires 0 <= i <= |BeforeEnd(events)| && (i == |events| || events[i] == EndOfInput)
    ensures BeforeEnd(events) == events[..i]
  {
  }

  /** The command one reader event sends: a typed line with something left after trimming, while interactive. */
  function EventCommands(event: ReaderEvent, interactive: bool): (r: seq<Message>)
    ensures |r| <= 1
  {
    match event
    case ReadLine(line) =>
      if CommandFor(line, interactive).Some? then [CommandMessage(CommandFor(line, interactive).value)] else []
    case _ => []
  }

  /** The commands a run of reader events sends. */
  function Commands(events: seq<ReaderEvent>, interactive: bool): (r: seq<Message>)
    ensures |r| <= |events|
    ensures !interactive ==> r == []
    decreases |events|
  {
    if events == [] then []
    else Commands(events[..|events| - 1], interactive) + EventCommands(events[|events| - 1], interactive)
  }

  /** The number of interrupts in a run of reader events. */
  function Interrupts(events: seq<ReaderEvent>): (n: nat)
    ensures n <= |events|
    ensures n == 0 <==> forall i :: 0 <= i < |events| ==> events[i] != Interrupted
    decreases |events|
  {
    if events == [] then 0
    else Interrupts(events[..|events| - 1]) + (if events[|events| - 1] == Interrupted then 1 else 0)
  }

  /** The hint lines printed for `n` interrupts while connected: the first is swallowed when the
    * suppress flag was set. */
  function Hints(n: nat, suppressed: bool): (r: seq<string>)
    ensures |r| == (if n > 0 && suppressed then n - 1 else n)
  {
    if n == 0 then []
    else Hints(n - 1, suppressed) + (if n == 1 && suppressed then [] else [DisconnectHintMessage])
  }

  const TerminalPrompt: string := "> "
  const DisconnectHintMessage: string := "Press Ctrl+D to disconnect from console."

  /** getTerminalPrompt: "> " while interactive, nothing otherwise. */
  function Prompt(interactive: bool): (p: string)
    ensures p == "> " <==> interactive
    ensures p == "" <==> !interactive
  {
    if interactive then TerminalPrompt else ""
  }

  // ---------------------------------------------------------------------------
  // The session
  // ---------------------------------------------------------------------------

  /** The terminal's line reader, as far as the session changes it. */
  class LineReader {
    /** The ERASE_LINE_ON_FINISH option. */
    var eraseLineOnFinish: bool

    constructor ()
      ensures !eraseLineOnFinish
    {
      eraseLineOnFinish := false;
    }
  }

  class RemoteConsoleSession {
    /** The transport the session sends on. */
    const transport: Outbox
    /** The line reader the session reads typed lines with. */
    const reader: LineReader
    /** A transport exists and is connected. */
    var connected: bool
    var interactiveAvailable: bool
    var suppressNextInterruptHint: bool
    /** Lines written to the terminal: forwarded log lines, errors and hints. */
    var printed: seq<string>

    constructor (transport: Outbox, reader: LineReader)
      ensures this.transport == transport && this.reader == reader
      ensures !connected && !interactiveAvailable && !suppressNextInterruptHint && printed == []
    {
      this.transport := transport;
      this.reader := reader;
      connected := false;
      interactiveAvailable := false;
      suppressNextInterruptHint := false;
      printed := [];
    }

    /** run's start: a fresh transport, connected, not yet interactive, subscribed to the log. */
    method Connected()
      modifies this, transport
      ensures connected && !interactiveAvailable
      ensures suppressNextInterruptHint == old(suppressNextInterruptHint) && printed == old(printed)
      ensures transport.sent == old(transport.sent) + [Message(LOG_SUBSCRIBE, None, LogSubscribe)]
    {
      interactiveAvailable := false;
      connected := true;
      transport.Send(Message(LOG_SUBSCRIBE, None, LogSubscribe));
    }

    /** The transport drops: from now on isConnected is false. */
    method Disconnected()
      modifies this
      ensures !connected
      ensures interactiveAvailable == old(interactiveAvailable)
      ensures suppressNextInterruptHint == old(suppressNextInterruptHint) && printed == old(printed)
    {
      connected := false;
    }

    /** handleMessage; `readerInterrupted` is what interrupting the active reader reported. */
    method HandleMessage(m: Message, readerInterrupted: bool)
      modifies this
      ensures connected == old(connected)
      ensures !old(connected) ==>
                interactiveAvailable == old(interactiveAvailable)
                && suppressNextInterruptHint == old(suppressNextInterruptHint) && printed == old(printed)
      ensures old(connected) ==> printed == old(printed) + Shown(m)
      ensures old(connected) && m.msgType == INTERACTIVITY_STATUS && m.payload.InteractivityStatus? ==>
                interactiveAvailable == m.payload.available
                && suppressNextInterruptHint ==
                   (if old(interactiveAvailable) != m.payload.available then readerInterrupted else old(suppressNextInterruptHint))
      ensures old(connected) && !(m.msgType == INTERACTIVITY_STATUS && m.payload.InteractivityStatus?) ==>
                interactiveAvailable == old(interactiveAvailable) && suppressNextInterruptHint == old(suppressNextInterruptHint)
    {
      if !connected {
        return;
      }
      if m.msgType == LOG_FORWARD && m.payload.LogForward? {
        printed := printed + [m.payload.rendered];
        return;
      }
      if m.msgType == ERROR && m.payload.Error? {
        printed := printed + ErrorLines(m.payload.errorMessage, m.payload.details);
        return;
      }
      if m.msgType == INTERACTIVITY_STATUS && m.payload.InteractivityStatus? {
        var changed := interactiveAvailable != m.payload.available;
        interactiveAvailable := m.payload.available;
        if changed {
          suppressNextInterruptHint := readerInterrupted;
        }
      }
    }

    /** consumeSuppressedInterruptHint: report the flag and leave it clear. */
    method ConsumeSuppressedInterruptHint() returns (suppressed: bool)
      modifies this
      ensures suppressed == old(suppressNextInterruptHint) && !suppressNextInterruptHint
      ensures connected == old(connected) && interactiveAvailable == old(interactiveAvailable)
      ensures printed == old(printed)
    {
      if !suppressNextInterruptHint {
        return false;
      }
      suppressNextInterruptHint := false;
      return true;
    }

    /** printDisconnectHint: print the hint unless it is suppressed once, or nothing is connected. */
    method PrintDisconnectHint()
      modifies this
      ensures !suppressNextInterruptHint
      ensures printed == old(printed) + (if !old(suppressNextInterruptHint) && connected then [DisconnectHintMessage] else [])
      ensures connected == old(connected) && interactiveAvailable == old(interactiveAvailable)
    {
      var suppressed := ConsumeSuppressedInterruptHint();
      if suppressed {
        return;
      }
      if !connected {
        return;
      }
      printed := printed + [DisconnectHintMessage];
    }

    /** updateReaderMode: erase the line on finish exactly when not interactive. */
    method UpdateReaderMode()
      modifies reader
      ensures reader.eraseLineOnFinish == !interactiveAvailable
    {
      if interactiveAvailable {
        reader.eraseLineOnFinish := false;
      } else {
        reader.eraseLineOnFinish := true;
      }
    }

    /** acceptInputInteractive over the reader events given, with the connection and the
      * interactivity flag held fixed while it reads. It ends with USER_QUIT at the first end of
      * input, with CONNECTION_CLOSED when nothing is connected, and is still reading (None) when
      * the events run out. */
    method AcceptInputInteractive(events: seq<ReaderEvent>) returns (r: Option<AcceptInputResult>)
      modifies this, transport, reader
      ensures connected == old(connected) && interactiveAvailable == old(interactiveAvailable)
      ensures !old(connected) ==>
                r == Some(InputConnectionClosed) && transport.sent == old(transport.sent)
                && printed == old(printed) && suppressNextInterruptHint == old(suppressNextInterruptHint)
                && reader.eraseLineOnFinish == old(reader.eraseLineOnFinish)
      ensures old(connected) ==>
                var processed := BeforeEnd(events);
                && r == (if |processed| < |events| then Some(UserQuit) else None)
                && reader.eraseLineOnFinish == !interactiveAvailable
                && transport.sent == old(transport.sent) + Commands(processed, interactiveAvailable)
                && printed == old(printed) + Hints(Interrupts(processed), old(suppressNextInterruptHint))
                && suppressNextInterruptHint == (old(suppressNextInterruptHint) && Interrupts(processed) == 0)
    {
      if !connected {
        return Some(InputConnectionClosed);
      }
      r := ReadWhileConnected(events);
    }

    /** acceptInputInteractive when the transport drops once the given events have been read.
      * onDisconnect interrupts the reader; that interrupt prints no hint, since nothing is
      * connected, but still clears the suppress flag, and the next turn's connection check ends
      * the read with CONNECTION_CLOSED. An end of input read before the drop is USER_QUIT. */
    method AcceptInputUntilDisconnect(events: seq<ReaderEvent>) returns (r: AcceptInputResult)
      modifies this, transport, reader
      ensures interactiveAvailable == old(interactiveAvailable)
      ensures !old(connected) ==>
                r == InputConnectionClosed && !connected && transport.sent == old(transport.sent)
                && printed == old(printed) && suppressNextInterruptHint == old(suppressNextInterruptHint)
      ensures old(connected) ==>
                var processed := BeforeEnd(events);
                && (r == UserQuit <==> |processed| < |events|)
                && transport.sent == old(transport.sent) + Commands(processed, interactiveAvailable)
                && printed == old(printed) + Hints(Interrupts(processed), old(suppressNextInterruptHint))
      ensures old(connected) && r == UserQuit ==>
                connected && suppressNextInterruptHint == (old(suppressNextInterruptHint) && Interrupts(BeforeEnd(events)) == 0)
      ensures r == InputConnectionClosed ==> !connected
      ensures old(connected) && r == InputConnectionClosed ==> !suppressNextInterruptHint
    {
      if !connected {
        return InputConnectionClosed;
      }
      var read := ReadWhileConnected(events);
      if read == Some(UserQuit) {
        return UserQuit;
      }
      Disconnected();
      PrintDisconnectHint();
      var closed := AcceptInputInteractive([]);
      assert closed == Some(InputConnectionClosed);
      return InputConnectionClosed;
    }

    /** acceptInputInteractive's loop while connected: it reads up to the first end of input. */
    method ReadWhileConnected(events: seq<ReaderEvent>) returns (r: Option<AcceptInputResult>)
      requires connected
      modifies this, transport, reader
      ensures connected && interactiveAvailable == old(interactiveAvailable)
      ensures reader.eraseLineOnFinish == !interactiveAvailable
      ensures r == (if |BeforeEnd(events)| < |events| then Some(UserQuit) else None)
      ensures ReadSoFar(Commands(BeforeEnd(events), interactiveAvailable), Interrupts(BeforeEnd(events)),
                        old(transport.sent), old(printed), old(suppressNextInterruptHint))
    {
      ghost var sent0, printed0, suppressed0 := transport.sent, printed, suppressNextInterruptHint;
      var i := 0;
      UpdateReaderMode();
      while i < |events|
        invariant 0 <= i <= |BeforeEnd(events)|
        invariant connected && interactiveAvailable == old(interactiveAvailable)
        invariant reader.eraseLineOnFinish == !interactiveAvailable
        invariant ReadSoFar(Commands(events[..i], interactiveAvailable), Interrupts(events[..i]), sent0, printed0, suppressed0)
      {
        var quit := ReadNext(events, i, sent0, printed0, suppressed0);
        if quit {
          return Some(UserQuit);
        }
        i := i + 1;
      }
      ReadEnds(events, i);
      return None;
    }

    /** One turn of the read loop at position `i`: an end of input ends the read prefix there,
      * any other event is handled and the read moves on to position `i + 1`. */
    method ReadNext(events: seq<ReaderEvent>, i: int, ghost sent0: seq<Message>, ghost printed0: seq<string>, ghost suppressed0: bool)
      returns (quit: bool)
      requires connected && 0 <= i <= |BeforeEnd(events)| && i < |events|
      requires ReadSoFar(Commands(events[..i], interactiveAvailable), Interrupts(events[..i]), sent0, printed0, suppressed0)
      modifies this, transport, reader
      ensures connected && interactiveAvailable == old(interactiveAvailable)
      ensures reader.eraseLineOnFinish == !interactiveAvailable
      ensures quit ==> BeforeEnd(events) == events[..i]
                       && ReadSoFar(Commands(events[..i], interactiveAvailable), Interrupts(events[..i]), sent0, printed0, suppressed0)
      ensures !quit ==> i < |BeforeEnd(events)|
                        && ReadSoFar(Commands(events[..i + 1], interactiveAvailable), Interrupts(events[..i + 1]), sent0, printed0, suppressed0)
    {
      UpdateReaderMode();
      if events[i] == EndOfInput {
        ReadEnds(events, i);
        return true;
      }
      ReadContinues(events, i);
      ReadEvent(events, i, sent0, printed0, suppressed0);
      return false;
    }

    /** Reading event `i`, which is not an end of input, moves the read state from the first `i`
      * events to the first `i + 1`. */
    method ReadEvent(events: seq<ReaderEvent>, i: int, ghost sent0: seq<Message>, ghost printed0: seq<string>, ghost suppressed0: bool)
      requires connected && 0 <= i < |events| && events[i] != EndOfInput
      requires ReadSoFar(Commands(events[..i], interactiveAvailable), Interrupts(events[..i]), sent0, printed0, suppressed0)
      modifies this, transport
      ensures connected && interactiveAvailable == old(interactiveAvailable)
      ensures ReadSoFar(Commands(events[..i + 1], interactiveAvailable), Interrupts(events[..i + 1]), sent0, printed0, suppressed0)
    {
      HandleEvent(events[i], Commands(events[..i], interactiveAvailable), Interrupts(events[..i]), sent0, printed0, suppressed0);
      ProgressStep(events, i, interactiveAvailable);
    }

    /** The state after a read that sent `commands` and saw `interrupts` interrupts while
      * connected, from the commands sent, lines printed and suppress flag it started with. */
    ghost predicate ReadSoFar(commands: seq<Message>, interrupts: nat, sent0: seq<Message>, printed0: seq<string>, suppressed0: bool)
      reads this, transport
    {
      SentSoFar(commands, sent0) && PrintedSoFar(interrupts, printed0, suppressed0)
    }

    ghost predicate SentSoFar(commands: seq<Message>, sent0: seq<Message>)
      reads transport
    {
      transport.sent == sent0 + commands
    }

    ghost predicate PrintedSoFar(interrupts: nat, printed0: seq<string>, suppressed0: bool)
      reads this
    {
      && printed == printed0 + Hints(interrupts, suppressed0)
      && suppressNextInterruptHint == (suppressed0 && interrupts == 0)
    }

    /** One reader event other than end of input: an interrupt prints the disconnect hint, a typed
      * line may send a command, a terminal error is ignored. */
    method HandleEvent(event: ReaderEvent, ghost commands: seq<Message>, ghost interrupts: nat,
                       ghost sent0: seq<Message>, ghost printed0: seq<string>, ghost suppressed0: bool)
      requires connected && event != EndOfInput
      requires ReadSoFar(commands, interrupts, sent0, printed0, suppressed0)
      modifies this, transport
      ensures connected && interactiveAvailable == old(interactiveAvailable)
      ensures ReadSoFar(commands + EventCommands(event, interactiveAvailable),
                        interrupts + (if event == Interrupted then 1 else 0), sent0, printed0, suppressed0)
    {
      match event {
        case Interrupted =>
          InterruptRead(commands, interrupts, sent0, printed0, suppressed0);
        case TerminalIoError =>
        case ReadLine(line) =>
          var command := CommandFor(line, interactiveAvailable);
          SendCommand(command, commands, sent0);
      }
    }

    /** An interrupt while reading: the disconnect hint, unless it is swallowed once. */
    method InterruptRead(ghost commands: seq<Message>, ghost interrupts: nat,
                         ghost sent0: seq<Message>, ghost printed0: seq<string>, ghost suppressed0: bool)
      requires connected
      requires ReadSoFar(commands, interrupts, sent0, printed0, suppressed0)
      modifies this
      ensures connected && interactiveAvailable == old(interactiveAvailable)
      ensures ReadSoFar(commands, interrupts + 1, sent0, printed0, suppressed0)
    {
      PrintDisconnectHint();
      assert printed == printed0 + (Hints(interrupts, suppressed0) + (if suppressed0 && interrupts == 0 then [] else [DisconnectHintMessage]));
    }

    /** A typed line's command, if any, is sent. */
    method SendCommand(command: Option<string>, ghost commands: seq<Message>, ghost sent0: seq<Message>)
      requires SentSoFar(commands, sent0)
      modifies transport
      ensures SentSoFar(commands + (if command.Some? then [CommandMessage(command.value)] else []), sent0)
    {
      if command.Some? {
        transport.Send(CommandMessage(command.value));
        assert transport.sent == sent0 + (commands + [CommandMessage(command.value)]);
      } else {
        assert commands + [] == commands;
      }
    }
  }

  /** Reading one more event extends the commands and the interrupt count by that event's share. */
  lemma ProgressStep(events: seq<ReaderEvent>, i: int, interactive: bool)
    requires 0 <= i < |events|
    ensures Commands(events[..i + 1], interactive) == Commands(events[..i], interactive) + EventCommands(events[i], interactive)
    ensures Interrupts(events[..i + 1]) == Interrupts(events[..i]) + (if events[i] == Interrupted then 1 else 0)
  {
    assert events[..i + 1][..i] == events[..i];
  }

  /** The terminal lines for an ERROR: its message, then its details when present. */
  function ErrorLines(message: string, details: Option<string>): (r: seq<string>)
    ensures |r| == (if details.Some? then 2 else 1)
    ensures r[0] == "Error: " + message
    ensures details.Some? ==> r[1] == "Details: " + details.value
  {
    ["Error: " + message] + (if details.Some? then ["Details: " + details.value] else [])
  }

  /** What handleMessage shows on the terminal for a message while connected. */
  function Shown(m: Message): (lines: seq<string>)
    ensures |lines| <= 2
    ensures lines != [] <==> (m.msgType == LOG_FORWARD && m.payload.LogForward?) || (m.msgType == ERROR && m.payload.Error?)
  {
    if m.msgType == LOG_FORWARD && m.payload.LogForward? then [m.payload.rendered]
    else if m.msgType == ERROR && m.payload.Error? then ErrorLines(m.payload.errorMessage, m.payload.details)
    else []
  }

  /** Only typed lines become commands, each one the trimmed line, and nothing is sent while the
    * server disallows interactive commands. */
  lemma CommandsAreTrimmedLines(events: seq<ReaderEvent>, interactive: bool, k: int)
    requires 0 <= k < |Commands(events, interactive)|
    ensures interactive
    ensures exists i ::
              && 0 <= i < |events| && events[i].ReadLine?
              && Commands(events, interactive)[k].payload == CommandExecute(Trim(events[i].line))
              && Trim(events[i].line) != []
  {
    var i := CommandSource(events, interactive, k);
  }

  /** The position of the typed line the `k`-th command came from. */
  lemma {:induction false} CommandSource(events: seq<ReaderEvent>, interactive: bool, k: int) returns (i: int)
    requires 0 <= k < |Commands(events, interactive)|
    ensures interactive
    ensures 0 <= i < |events| && events[i].ReadLine?
    ensures Commands(events, interactive)[k].payload == CommandExecute(Trim(events[i].line))
    ensures Trim(events[i].line) != []
    decreases |events|
  {
    var init := events[..|events| - 1];
    var rest := Commands(init, interactive);
    var last := events[|events| - 1];
    assert Commands(events, interactive) == rest + EventCommands(last, interactive);
    if k < |rest| {
      i := CommandSource(init, interactive, k);
      assert events[i] == init[i];
    } else {
      i := |events| - 1;
      assert last.ReadLine? && CommandFor(last.line, interactive).Some?;
    }
  }
}
