/**
 * Server-side log forwarding: the logging appender hands each event to the
 * current forwarding target, which renders it once per client color level and
 * broadcasts it while the server runs, and counts and rate-limits the
 * diagnostics for failed broadcasts. The server, its broadcast and the clock
 * are abstract: what they report is a parameter.
 */
module LogForwarding {
  import opened Wrappers
  import opened Ansi
  import opened LogContexts

  /** The parts of a log event a layout renders. */
  datatype LogEvent = LogEvent(loggerName: string, level: string, message: string)

  /** A layout renders an event; what it renders may depend on the render color level in force. */
  datatype Layout = Layout(render: (LogEvent, ColorLevel) -> string)

  /** PatternLayout's default layout, the pattern "%m%n": the message, then the platform's line
    * separator (System.lineSeparator()), which is given. */
  function DefaultLayout(lineSeparator: string): Layout {
    Layout((e: LogEvent, _: ColorLevel) => e.message + lineSeparator)
  }

  // ---------------------------------------------------------------------------
  // Rate-limited failure diagnostics
  // ---------------------------------------------------------------------------

  const ErrorLogIntervalMs: int := 60000

  /** A debug diagnostic: the total failures so far, when, and the failure's message. */
  datatype Diagnostic = Diagnostic(totalFailures: int, time: int, message: string)

  /** failureCount, lastErrorLogTime and the diagnostics emitted so far. */
  datatype ErrorLog = ErrorLog(failureCount: int, lastErrorLogTime: int, diagnostics: seq<Diagnostic>)

  const NoErrors: ErrorLog := ErrorLog(0, 0, [])

  /** handleForwardingError at time `now`: count the failure, and emit a diagnostic, moving
    * lastErrorLogTime to `now`, only when more than a minute has passed since the last one. */
  function AfterError(log: ErrorLog, now: int, message: string): (r: ErrorLog)
    ensures r.failureCount == log.failureCount + 1
    ensures now - log.lastErrorLogTime > ErrorLogIntervalMs ==>
              r.lastErrorLogTime == now && r.diagnostics == log.diagnostics + [Diagnostic(r.failureCount, now, message)]
    ensures now - log.lastErrorLogTime <= ErrorLogIntervalMs ==>
              r.lastErrorLogTime == log.lastErrorLogTime && r.diagnostics == log.diagnostics
  {
    var count := log.failureCount + 1;
    if now - log.lastErrorLogTime > ErrorLogIntervalMs then ErrorLog(count, now, log.diagnostics + [Diagnostic(count, now, message)])
    else log.(failureCount := count)
  }

  /** A failure at each of the times given, in order. */
  function AfterErrors(log: ErrorLog, times: seq<int>, message: string): (r: ErrorLog)
    ensures r.failureCount == log.failureCount + |times|
    ensures |log.diagnostics| <= |r.diagnostics| <= |log.diagnostics| + |times|
    decreases |times|
  {
    if times == [] then log else AfterErrors(AfterError(log, times[0], message), times[1..], message)
  }

  /** Consecutive diagnostics are more than a minute apart, and the last one is at lastErrorLogTime. */
  ghost predicate Spaced(log: ErrorLog) {
    && (forall i :: 0 < i < |log.diagnostics| ==> log.diagnostics[i].time - log.diagnostics[i - 1].time > ErrorLogIntervalMs)
    && (log.diagnostics != [] ==> log.diagnostics[|log.diagnostics| - 1].time == log.lastErrorLogTime)
  }

  /** One error keeps the diagnostics spaced and only ever appends to them. */
  lemma ErrorKeepsSpacing(log: ErrorLog, now: int, message: string)
    requires Spaced(log)
    ensures Spaced(AfterError(log, now, message))
    ensures log.diagnostics <= AfterError(log, now, message).diagnostics
  {
    var next := AfterError(log, now, message);
    if now - log.lastErrorLogTime > ErrorLogIntervalMs {
      assert next.diagnostics[..|log.diagnostics|] == log.diagnostics;
    }
  }

  /** Whatever the clock does, emitted diagnostics are more than a minute apart, each error
    * counts exactly once, and earlier diagnostics are never lost. */
  lemma {:induction false} ErrorsAreCountedAndSpaced(log: ErrorLog, times: seq<int>, message: string)
    requires Spaced(log)
    ensures Spaced(AfterErrors(log, times, message))
    ensures AfterErrors(log, times, message).failureCount == log.failureCount + |times|
    ensures log.diagnostics <= AfterErrors(log, times, message).diagnostics
    ensures |AfterErrors(log, times, message).diagnostics| <= |log.diagnostics| + |times|
    decreases |times|
  {
    if times != [] {
      var next := AfterError(log, times[0], message);
      ErrorKeepsSpacing(log, times[0], message);
      ErrorsAreCountedAndSpaced(next, times[1..], message);
    }
  }

  /** Errors more than a minute apart, the first more than a minute after the last diagnostic,
    * each emit a diagnostic. */
  lemma {:induction false} SparseErrorsAreAllReported(log: ErrorLog, times: seq<int>, message: string)
    requires times != [] ==> times[0] - log.lastErrorLogTime > ErrorLogIntervalMs
    requires forall i :: 0 < i < |times| ==> times[i] - times[i - 1] > ErrorLogIntervalMs
    ensures |AfterErrors(log, times, message).diagnostics| == |log.diagnostics| + |times|
    decreases |times|
  {
    if times != [] {
      var next := AfterError(log, times[0], message);
      assert next.lastErrorLogTime == times[0];
      forall i | 0 < i < |times[1..]| ensures times[1..][i] - times[1..][i - 1] > ErrorLogIntervalMs {
        assert times[1..][i] == times[i + 1] && times[1..][i - 1] == times[i];
      }
      SparseErrorsAreAllReported(next, times[1..], message);
    }
  }

  /** With a non-decreasing clock an error within a minute of the last diagnostic emits none. */
  lemma QuickRepeatIsSilent(log: ErrorLog, now: int, message: string)
    requires 0 <= now - log.lastErrorLogTime <= ErrorLogIntervalMs
    ensures AfterError(log, now, message).diagnostics == log.diagnostics
    ensures AfterError(log, now, message).failureCount == log.failureCount + 1
  {
  }

  // ---------------------------------------------------------------------------
  // RemoteLogForwarder
  // ---------------------------------------------------------------------------

  /** What the server's broadcast reported: it sent the renderings, or it threw. */
  datatype BroadcastResult = Broadcast | BroadcastFailed(message: string)

  class RemoteLogForwarder {
    const renderedLogLayout: Layout
    /** The render color context the layout reads. */
    const colorContext: RenderColorContext
    var failureCount: int
    var lastErrorLogTime: int
    var diagnostics: seq<Diagnostic>
    /** Each broadcast's renderings, one per receiving client's level. */
    var broadcasts: seq<seq<string>>
    /** Every event handed to forward, for stating what callers hand over. */
    ghost var received: seq<LogEvent>

    constructor (renderedLogLayout: Layout, colorContext: RenderColorContext)
      ensures this.renderedLogLayout == renderedLogLayout && this.colorContext == colorContext
      ensures ErrorState() == NoErrors && broadcasts == [] && received == []
    {
      this.renderedLogLayout := renderedLogLayout;
      this.colorContext := colorContext;
      failureCount := 0;
      lastErrorLogTime := 0;
      diagnostics := [];
      broadcasts := [];
      received := [];
    }

    function ErrorState(): ErrorLog
      reads this
    {
      ErrorLog(failureCount, lastErrorLogTime, diagnostics)
    }

    /** forward: nothing while the server is not running; otherwise broadcast the event rendered
      * for each level in `levels`, or, when the broadcast fails, handle the error at `now`. */
    method Forward(event: LogEvent, running: bool, levels: seq<ColorLevel>, result: BroadcastResult, now: int)
      modifies this, colorContext
      ensures received == old(received) + [event]
      ensures colorContext.current == old(colorContext.current)
      ensures !running ==> ErrorState() == old(ErrorState()) && broadcasts == old(broadcasts)
      ensures running && result.Broadcast? ==>
                ErrorState() == old(ErrorState())
                && broadcasts == old(broadcasts) + [seq(|levels|, i requires 0 <= i < |levels| => renderedLogLayout.render(event, levels[i]))]
      ensures running && result.BroadcastFailed? ==>
                ErrorState() == AfterError(old(ErrorState()), now, result.message) && broadcasts == old(broadcasts)
    {
      received := received + [event];
      if !running {
        return;
      }
      match result {
        case Broadcast =>
          var rendered := RenderAll(event, levels);
          broadcasts := broadcasts + [rendered];
        case BroadcastFailed(message) =>
          HandleForwardingError(message, now);
      }
    }

    /** The renderings a broadcast asks for, one per level. */
    method RenderAll(event: LogEvent, levels: seq<ColorLevel>) returns (rendered: seq<string>)
      modifies colorContext
      ensures rendered == seq(|levels|, i requires 0 <= i < |levels| => renderedLogLayout.render(event, levels[i]))
      ensures colorContext.current == old(colorContext.current)
    {
      rendered := [];
      var i := 0;
      while i < |levels|
        invariant 0 <= i <= |levels|
        invariant rendered == seq(i, j requires 0 <= j < i => renderedLogLayout.render(event, levels[j]))
        invariant colorContext.current == old(colorContext.current)
      {
        var text := Render(event, levels[i]);
        rendered := rendered + [text];
        i := i + 1;
      }
    }

    /** render: the layout's rendering with the render color context set to the level for the
      * call, restored afterwards. */
    method Render(event: LogEvent, level: ColorLevel) returns (text: string)
      modifies colorContext
      ensures text == renderedLogLayout.render(event, level)
      ensures colorContext.current == old(colorContext.current)
    {
      var scope := colorContext.Push(level);
      text := renderedLogLayout.render(event, colorContext.Current());
      colorContext.Close(scope);
    }

    /** handleForwardingError with the clock read as `now`. */
    method HandleForwardingError(message: string, now: int)
      modifies this
      ensures ErrorState() == AfterError(old(ErrorState()), now, message)
      ensures broadcasts == old(broadcasts) && received == old(received)
    {
      failureCount := failureCount + 1;
      var count := failureCount;
      if now - lastErrorLogTime > ErrorLogIntervalMs {
        lastErrorLogTime := now;
        diagnostics := diagnostics + [Diagnostic(count, now, message)];
      }
    }
  }

  // ---------------------------------------------------------------------------
  // EndermuxForwardingAppender
  // ---------------------------------------------------------------------------

  /** A constructed appender: its name and its layout. */
  class EndermuxForwardingAppender {
    const name: string
    const layout: Layout

    constructor (name: string, layout: Layout)
      ensures this.name == name && this.layout == layout
    {
      this.name := name;
      this.layout := layout;
    }
  }

  const OnlyOneAppender: string := "Only one EndermuxForwardingAppender may exist"
  const AppenderUnavailable: string := "Endermux forwarding appender is unavailable"

  /** The appender's static INSTANCE and TARGET slots. */
  class AppenderSlots {
    var instance: EndermuxForwardingAppender?
    var target: RemoteLogForwarder?

    constructor ()
      ensures instance == null && target == null
    {
      instance := null;
      target := null;
    }

    /** The constructor (and createAppender): a missing layout becomes the default pattern
      * layout, ending each message with `lineSeparator`; a second appender is refused. */
    method CreateAppender(name: string, layout: Option<Layout>, lineSeparator: string) returns (r: Result<EndermuxForwardingAppender, string>)
      modifies this
      ensures old(instance) != null ==> r == Err(OnlyOneAppender) && instance == old(instance)
      ensures old(instance) == null ==>
                r.Ok? && fresh(r.value) && instance == r.value
                && r.value.name == name && r.value.layout == (if layout.Some? then layout.value else DefaultLayout(lineSeparator))
      ensures target == old(target)
    {
      if instance != null {
        return Err(OnlyOneAppender);
      }
      var appender := new EndermuxForwardingAppender(name, if layout.Some? then layout.value else DefaultLayout(lineSeparator));
      instance := appender;
      return Ok(appender);
    }

    /** attach: a new forwarder using the appender's layout becomes the target; without an
      * appender it fails and the target stays. */
    method Attach(colorContext: RenderColorContext) returns (r: Result<RemoteLogForwarder, string>)
      modifies this
      ensures instance == old(instance)
      ensures old(instance) == null ==> r == Err(AppenderUnavailable) && target == old(target)
      ensures old(instance) != null ==>
                r.Ok? && fresh(r.value) && target == r.value
                && r.value.renderedLogLayout == old(instance).layout && r.value.colorContext == colorContext
                && r.value.ErrorState() == NoErrors && r.value.received == []
    {
      if instance == null {
        return Err(AppenderUnavailable);
      }
      var forwarder := new RemoteLogForwarder(instance.layout, colorContext);
      target := forwarder;
      return Ok(forwarder);
    }

    /** detach: no target. */
    method Detach()
      modifies this
      ensures target == null && instance == old(instance)
    {
      target := null;
    }

    /** append: hand the event to the current target, if any, exactly once. */
    method Append(event: LogEvent, running: bool, levels: seq<ColorLevel>, result: BroadcastResult, now: int)
      modifies if target != null then {target, target.colorContext} else {}
      ensures target == old(target) && instance == old(instance)
      ensures target != null ==> target.received == old(target.received) + [event]
    {
      var current := target;
      if current != null {
        current.Forward(event, running, levels, result, now);
      }
    }
  }
}
