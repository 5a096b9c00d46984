/** The profiler's configuration record: its default values, the test for whether any dump
    output was asked for, and the `Error` value that parsing and session control return. */
module Args {
  import opened Machine

  const DEFAULT_INTERVAL: I64 := 10000000
  const DEFAULT_FRAMEBUF: I32 := 1000000

  const EVENT_CPU: string := "cpu"
  const EVENT_ALLOC: string := "alloc"
  const EVENT_LOCK: string := "lock"
  const EVENT_WALL: string := "wall"
  const EVENT_ITIMER: string := "itimer"

  const DEFAULT_TITLE: string := "Flame Graph"
  const DEFAULT_WIDTH: I32 := 1200
  const DEFAULT_HEIGHT: I32 := 16

  datatype Action =
    | ActionNone
    | ActionStart
    | ActionStop
    | ActionStatus
    | ActionList
    | ActionVersion
    | ActionDump

  datatype Counter = CounterSamples | CounterTotal

  datatype Ring = RingAny | RingKernel | RingUser

  /** An error is a message, or NULL for success. */
  datatype Error = Error(text: Option<string>)

  /** `message()`: the message an error was built with, NULL included; the error holds
      nothing else, so rebuilding it from the message gives it back. */
  function Message(e: Error): (m: Option<string>)
    ensures Error(m) == e
  {
    e.text
  }

  /** Conversion to `bool`: true exactly when `message()` is not NULL, i.e. when something failed. */
  function Failed(e: Error): (r: bool)
    ensures r <==> Message(e) != None
  {
    e.text.Some?
  }

  /** `Error(message)`: keeps the message as given, and is true exactly when it is not NULL. */
  function MakeError(message: Option<string>): (e: Error)
    ensures Message(e) == message
    ensures Failed(e) <==> message != None
  {
    Error(message)
  }

  /** The configuration. `file` is NULL when no output file was named; `minwidth` is a C
      `double` and only its default is modelled. */
  datatype Arguments = Arguments(
    action: Action,
    counter: Counter,
    ring: Ring,
    event: string,
    interval: I64,
    jstackdepth: I32,
    framebuf: I32,
    threads: bool,
    simple: bool,
    annotate: bool,
    file: Option<string>,
    dumpCollapsed: bool,
    dumpFlamegraph: bool,
    dumpTree: bool,
    dumpJfr: bool,
    dumpSummary: bool,
    dumpImmediateTrace: bool,
    dumpTraces: I32,
    dumpFlat: I32,
    title: string,
    width: I32,
    height: I32,
    minwidth: real,
    reverse: bool)

  /** No on/off option is switched on. */
  predicate NoFlagSet(a: Arguments)
  {
    && !a.threads && !a.simple && !a.annotate
    && !a.dumpCollapsed && !a.dumpFlamegraph && !a.dumpTree && !a.dumpJfr && !a.dumpSummary
    && !a.dumpImmediateTrace && !a.reverse
  }

  /** `Arguments()`: the configuration before any option is parsed. */
  function DefaultArguments(): (a: Arguments)
    ensures a.action == ActionNone && a.counter == CounterSamples && a.ring == RingAny
    ensures a.event == EVENT_CPU
    ensures a.interval == 0 && a.jstackdepth == 0 && a.framebuf == DEFAULT_FRAMEBUF
    ensures a.file == None
    ensures NoFlagSet(a)
    ensures a.dumpTraces == 0 && a.dumpFlat == 0
    ensures a.title == DEFAULT_TITLE && a.width == DEFAULT_WIDTH && a.height == DEFAULT_HEIGHT
    ensures a.minwidth == 1.0
    ensures !DumpRequested(a)
  {
    Arguments(
      action := ActionNone,
      counter := CounterSamples,
      ring := RingAny,
      event := EVENT_CPU,
      interval := 0,
      jstackdepth := 0,
      framebuf := DEFAULT_FRAMEBUF,
      threads := false,
      simple := false,
      annotate := false,
      file := None,
      dumpCollapsed := false,
      dumpFlamegraph := false,
      dumpTree := false,
      dumpJfr := false,
      dumpSummary := false,
      dumpImmediateTrace := false,
      dumpTraces := 0,
      dumpFlat := 0,
      title := DEFAULT_TITLE,
      width := DEFAULT_WIDTH,
      height := DEFAULT_HEIGHT,
      minwidth := 1.0,
      reverse := false)
  }

  /** `dumpRequested()`: whether the configuration asks for any report at all, i.e. whether
      it selects some report kind. */
  function DumpRequested(a: Arguments): (r: bool)
    ensures r <==> exists o :: Selects(a, o)
  {
    assert Selects(a, Collapsed) == a.dumpCollapsed && Selects(a, FlameGraph) == a.dumpFlamegraph;
    assert Selects(a, Tree) == a.dumpTree && Selects(a, Jfr) == a.dumpJfr;
    assert Selects(a, Summary) == a.dumpSummary;
    assert Selects(a, Traces) == (a.dumpTraces > 0) && Selects(a, Flat) == (a.dumpFlat > 0);
    a.dumpCollapsed || a.dumpFlamegraph || a.dumpTree || a.dumpJfr || a.dumpSummary
    || a.dumpTraces > 0 || a.dumpFlat > 0
  }

  /** The report kinds a configuration can select. */
  datatype Output = Collapsed | FlameGraph | Tree | Jfr | Summary | Traces | Flat

  /** Whether `a` selects report `o`: each kind has its own switch, and the two top-N reports
      are selected by a positive count. */
  predicate Selects(a: Arguments, o: Output)
  {
    match o
    case Collapsed => a.dumpCollapsed
    case FlameGraph => a.dumpFlamegraph
    case Tree => a.dumpTree
    case Jfr => a.dumpJfr
    case Summary => a.dumpSummary
    case Traces => a.dumpTraces > 0
    case Flat => a.dumpFlat > 0
  }

  /** `b` asks for at least every report `a` asks for: each switch on in `a` is on in `b`, and
      neither top-N count is smaller. */
  predicate AsksAtLeast(a: Arguments, b: Arguments)
  {
    && (a.dumpCollapsed ==> b.dumpCollapsed)
    && (a.dumpFlamegraph ==> b.dumpFlamegraph)
    && (a.dumpTree ==> b.dumpTree)
    && (a.dumpJfr ==> b.dumpJfr)
    && (a.dumpSummary ==> b.dumpSummary)
    && a.dumpTraces <= b.dumpTraces
    && a.dumpFlat <= b.dumpFlat
  }

  /** Switching on more reports or raising a top-N count never withdraws a dump request. */
  lemma DumpRequestedMonotone(a: Arguments, b: Arguments)
    requires AsksAtLeast(a, b)
    ensures DumpRequested(a) ==> DumpRequested(b)
  {
  }

  /** Neither the immediate-trace switch nor a zero or negative top-N count has any say in
      whether a dump is requested; in particular the defaults with only those changed request none. */
  lemma DumpRequestedIgnoresOtherFields(a: Arguments, immediate: bool, traces: I32, flat: I32)
    requires traces <= 0 && flat <= 0
    ensures DumpRequested(a.(dumpImmediateTrace := immediate)) == DumpRequested(a)
    ensures DumpRequested(a.(dumpTraces := traces, dumpFlat := flat))
            == DumpRequested(a.(dumpTraces := 0, dumpFlat := 0))
    ensures !DumpRequested(DefaultArguments().(dumpImmediateTrace := true))
    ensures !DumpRequested(DefaultArguments().(dumpTraces := traces, dumpFlat := flat))
  {
  }
}
