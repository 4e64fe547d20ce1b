/** The session as a value, and every handler of CommandMethodList as a
    function from the session before the handler runs to the session after
    it (and the exception, if one escapes the handler). The class in
    SessionClass keeps the same data in fields and is proved against these
    functions; the properties of the session are stated about them. */
module Handlers {
  import opened Wrappers
  import opened Text
  import opened Stopwatch
  import opened TimeSpan
  import opened Commands
  import opened Aliases

  datatype UserStatus = INACTIVE | ACTIVE | ONREST

  datatype PunchOutType = OUT | BREAK

  /** The underlying value of a PunchOutType, (int)isRest. */
  function PunchOutOrdinal(t: PunchOutType): nat
  {
    match t
    case OUT => 0
    case BREAK => 1
  }

  /** A punch timestamp: still the initial "00:00", or the clock reading of the punch. */
  datatype Stamp = Initial | At(time: int)

  /** The entry kinds of the session time log. */
  datatype EntryType = POST | PUNCHIN | PUNCHOUT | PROCESSSTARTREQUEST | SYSTEMPOST | SYSTEMERROR | NULL

  datatype MetricUnit = InHours | InMinutes | InSeconds

  /** What a log entry says, without its wording or colour. */
  datatype Message =
    | NoMessage
    | Posted(text: string)
    | Runtimes(session: nat, cumulative: nat)
    | Opening(target: string)
    | Closing(target: string)
    | HotkeySet(key: string, command: int)
    | Listening(on: bool)
    | ProcessStarted(process: string)
    | ProcessFailed(path: string)
    | AliasAdded(name: string, processes: string)
    | AliasFailed(name: string)
    | KeyGenerated
    | KeyAlreadyGenerated
    | KeyFailed
    | Runtime(unit: MetricUnit, value: real)
    | EndOfSession

  datatype Entry = Entry(kind: EntryType, message: Message)

  /** Calls into the operating system's process control. */
  datatype OsCall = StartProcess(target: string) | ReleaseProcess(index: nat)

  /** Exceptions that escape a handler (and so CallCommand and Validate). */
  datatype Fault = IndexOutOfRange | NullReference | FormatError

  /** What the session reads from outside for one command: the clock reading,
      the raw command string (_commandString), whether the process runs as
      administrator, whether the existing alias key lets this user open it
      for writing, the targets Process.Start fails on, and the names
      Process.GetProcesses returns. */
  datatype Env = Env(now: int, commandString: string, isAdmin: bool, aliasKeyWritable: bool,
                     failing: set<string>, running: seq<string>)

  /** The targets Process.Start throws on: those the environment names, and
      the empty string, for which no file name is provided. */
  function Failing(env: Env): (f: set<string>)
    ensures "" in f && env.failing <= f
  {
    env.failing + {""}
  }

  /** The static state of Session.cs. aliasKey is None when the registry key
      Software\TLCS\Alias is missing; trackedProcesses is None while
      _TrackedProcesses is still null. */
  datatype State = State(
    userStatus: UserStatus,
    inSession: bool,
    includeSystemEvents: bool,
    lastPunchIn: Stamp,
    lastPunchOut: Stamp,
    sessionRuntime: Watch,
    cumulativeSessionRuntime: Watch,
    durationMetrics: seq<real>,
    cumulativeDurationMetrics: seq<real>,
    storedArgs: seq<string>,
    aliasKey: Option<seq<Alias>>,
    trackedProcesses: Option<seq<string>>,
    log: seq<Entry>,
    system: seq<OsCall>)

  /** The metric arrays have their three slots and the clock has not gone
      back past either stopwatch's mark. */
  predicate Ready(st: State, now: int)
  {
    |st.durationMetrics| == 3 && |st.cumulativeDurationMetrics| == 3
    && ReadableAt(st.sessionRuntime, now) && ReadableAt(st.cumulativeSessionRuntime, now)
  }

  /** The result of running a handler: the state it leaves and the exception
      that escaped it, if any; on an exception the state is the one at the throw. */
  datatype Outcome = Outcome(state: State, fault: Option<Fault>)

  function Done(st: State): Outcome
  {
    Outcome(st, None)
  }

  /** The session a new Session() sets up at clock reading now, over the
      alias store found in the registry. */
  function NewSession(now: int, aliasKey: Option<seq<Alias>>): (st: State)
    ensures Ready(st, now) && st.userStatus == INACTIVE && !st.inSession && !st.includeSystemEvents
    ensures st.lastPunchIn == Initial && st.lastPunchOut == Initial
    ensures st.sessionRuntime.running && st.cumulativeSessionRuntime.running
    ensures forall later :: later >= now ==> Elapsed(st.sessionRuntime, later) == later - now
    ensures forall later :: later >= now ==> Elapsed(st.cumulativeSessionRuntime, later) == later - now
    ensures MetricsShow(st.durationMetrics, 0) && MetricsShow(st.cumulativeDurationMetrics, 0)
    ensures st.storedArgs == [] && st.aliasKey == aliasKey && st.trackedProcesses.None?
    ensures st.log == [] && st.system == []
  {
    State(INACTIVE, false, false, Initial, Initial, StartNew(now), StartNew(now),
          [0.0, 0.0, 0.0], [0.0, 0.0, 0.0], [], aliasKey, None, [], [])
  }

  /** SessionTimeLog.AddNewEntry. */
  function AddEntry(st: State, kind: EntryType, message: Message): (r: State)
    ensures r.log == st.log + [Entry(kind, message)]
  {
    st.(log := st.log + [Entry(kind, message)])
  }

  // ------------------------------------------------------ session status

  /** UpdateUserStatus. */
  function UpdateUserStatus(st: State, newStatus: UserStatus): (r: State)
    ensures r.userStatus == newStatus
  {
    st.(userStatus := newStatus)
  }

  /** MarkPunchIn: stamps the punch-in and makes the user active. */
  function MarkPunchIn(st: State, now: int): (r: State)
    ensures r.userStatus == ACTIVE && r.lastPunchIn == At(now)
    ensures r == st.(userStatus := r.userStatus, lastPunchIn := r.lastPunchIn)
  {
    UpdateUserStatus(st.(lastPunchIn := At(now)), ACTIVE)
  }

  /** MarkPunchOut: stamps the punch-out; the user is on rest exactly when
      the punch-out type has the value 1, which is BREAK. */
  function MarkPunchOut(st: State, now: int, isRest: PunchOutType): (r: State)
    ensures r.lastPunchOut == At(now)
    ensures r.userStatus == (if isRest == BREAK then ONREST else INACTIVE)
    ensures r == st.(userStatus := r.userStatus, lastPunchOut := r.lastPunchOut)
  {
    UpdateUserStatus(st.(lastPunchOut := At(now)), if PunchOutOrdinal(isRest) == 1 then ONREST else INACTIVE)
  }

  // ---------------------------------------------------- runtime snapshots

  /** GetSessionRuntime: writes the session stopwatch's totals into
      DurationMetrics. */
  function GetSessionRuntime(st: State, now: int): (r: State)
    requires Ready(st, now)
    ensures Ready(r, now)
    ensures MetricsShow(r.durationMetrics, Elapsed(st.sessionRuntime, now))
    ensures r == st.(durationMetrics := r.durationMetrics)
  {
    st.(durationMetrics := Totals(Elapsed(st.sessionRuntime, now)))
  }

  /** GetCumulativeSessionRuntime: writes the cumulative stopwatch's totals
      into CumulativeDurationMetrics. */
  function GetCumulativeSessionRuntime(st: State, now: int): (r: State)
    requires Ready(st, now)
    ensures Ready(r, now)
    ensures MetricsShow(r.cumulativeDurationMetrics, Elapsed(st.cumulativeSessionRuntime, now))
    ensures r == st.(cumulativeDurationMetrics := r.cumulativeDurationMetrics)
  {
    st.(cumulativeDurationMetrics := Totals(Elapsed(st.cumulativeSessionRuntime, now)))
  }

  /** The message "{GetSessionRuntime()} | {GetCumulativeSessionRuntime()}":
      both elapsed times, read at the same instant. */
  function RuntimesMessage(st: State, now: int): Message
    requires Ready(st, now)
  {
    Runtimes(Elapsed(st.sessionRuntime, now), Elapsed(st.cumulativeSessionRuntime, now))
  }

  /** Both snapshots, as the handlers that log the runtimes take them. */
  function SnapshotBoth(st: State, now: int): (r: State)
    requires Ready(st, now)
    ensures Ready(r, now)
    ensures MetricsShow(r.durationMetrics, Elapsed(st.sessionRuntime, now))
    ensures MetricsShow(r.cumulativeDurationMetrics, Elapsed(st.cumulativeSessionRuntime, now))
    ensures r == st.(durationMetrics := r.durationMetrics, cumulativeDurationMetrics := r.cumulativeDurationMetrics)
  {
    GetCumulativeSessionRuntime(GetSessionRuntime(st, now), now)
  }

  /** The quoted payload: segment 1 of the command string split on '"'. */
  function QuoteSegments(env: Env): seq<string>
  {
    Split(env.commandString, '"')
  }

  // ------------------------------------------------------------- handlers

  /** POST: copies quote segment 1 into args[1] and logs it. */
  function PostCommand(st: State, env: Env): (o: Outcome)
    ensures o.fault.None? <==> |QuoteSegments(env)| >= 2 && |st.storedArgs| >= 2
    ensures o.fault.None? ==> o.state.storedArgs == st.storedArgs[1 := QuoteSegments(env)[1]]
    ensures o.fault.None? ==> o.state.log == st.log + [Entry(EntryType.POST, Posted(QuoteSegments(env)[1]))]
    ensures o.fault.None? ==> o.state == st.(storedArgs := o.state.storedArgs, log := o.state.log)
    ensures o.fault.Some? ==> o.state == st
  {
    var segments := QuoteSegments(env);
    if |segments| < 2 || |st.storedArgs| < 2 then Outcome(st, Some(IndexOutOfRange))
    else
      var st1 := st.(storedArgs := st.storedArgs[1 := segments[1]]);
      Done(AddEntry(st1, EntryType.POST, Posted(segments[1])))
  }

  /** IN: starts both stopwatches anew, from zero, and punches in. */
  function LoginCommand(st: State, env: Env): (o: Outcome)
    requires Ready(st, env.now)
    ensures o.fault.None? && o.state.inSession
    ensures o.state.userStatus == ACTIVE && o.state.lastPunchIn == At(env.now)
    ensures Ready(o.state, env.now)
    ensures Elapsed(o.state.sessionRuntime, env.now) == 0 && o.state.sessionRuntime.running
    ensures Elapsed(o.state.cumulativeSessionRuntime, env.now) == 0 && o.state.cumulativeSessionRuntime.running
    ensures o.state.log == st.log + [Entry(PUNCHIN, NoMessage)]
    ensures o.state == st.(inSession := o.state.inSession, userStatus := o.state.userStatus,
                           lastPunchIn := o.state.lastPunchIn, sessionRuntime := o.state.sessionRuntime,
                           cumulativeSessionRuntime := o.state.cumulativeSessionRuntime, log := o.state.log)
  {
    var now := env.now;
    var st1 := AddEntry(st.(inSession := true), PUNCHIN, NoMessage);
    var st2 := st1.(sessionRuntime := StartNew(now), cumulativeSessionRuntime := StartNew(now));
    Done(MarkPunchIn(st2, now))
  }

  /** REST: logs both runtimes, stops both stopwatches (keeping what they
      counted) and punches out for a break. */
  function RestCommand(st: State, env: Env): (o: Outcome)
    requires Ready(st, env.now)
    ensures o.fault.None? && Ready(o.state, env.now)
    ensures o.state.userStatus == ONREST && o.state.lastPunchOut == At(env.now)
    ensures o.state.inSession == st.inSession
    ensures !o.state.sessionRuntime.running && !o.state.cumulativeSessionRuntime.running
    ensures Elapsed(o.state.sessionRuntime, env.now) == Elapsed(st.sessionRuntime, env.now)
    ensures Elapsed(o.state.cumulativeSessionRuntime, env.now) == Elapsed(st.cumulativeSessionRuntime, env.now)
    ensures o.state.log == st.log + [Entry(PUNCHOUT, RuntimesMessage(st, env.now))]
    ensures MetricsShow(o.state.durationMetrics, Elapsed(st.sessionRuntime, env.now))
    ensures MetricsShow(o.state.cumulativeDurationMetrics, Elapsed(st.cumulativeSessionRuntime, env.now))
    ensures o.state == st.(userStatus := o.state.userStatus, lastPunchOut := o.state.lastPunchOut,
                           sessionRuntime := o.state.sessionRuntime, cumulativeSessionRuntime := o.state.cumulativeSessionRuntime,
                           durationMetrics := o.state.durationMetrics,
                           cumulativeDurationMetrics := o.state.cumulativeDurationMetrics, log := o.state.log)
  {
    var now := env.now;
    var message := RuntimesMessage(st, now);
    var st1 := AddEntry(SnapshotBoth(st, now), PUNCHOUT, message);
    var st2 := st1.(sessionRuntime := Stop(st1.sessionRuntime, now),
                    cumulativeSessionRuntime := Stop(st1.cumulativeSessionRuntime, now));
    Done(MarkPunchOut(st2, now, BREAK))
  }

  /** RESUME: logs both runtimes, restarts the session stopwatch from zero,
      resumes the cumulative one from where it stood, and punches in. */
  function ResumeCommand(st: State, env: Env): (o: Outcome)
    requires Ready(st, env.now)
    ensures o.fault.None? && Ready(o.state, env.now)
    ensures o.state.userStatus == ACTIVE && o.state.lastPunchIn == At(env.now)
    ensures o.state.inSession == st.inSession
    ensures o.state.sessionRuntime.running && o.state.cumulativeSessionRuntime.running
    ensures Elapsed(o.state.sessionRuntime, env.now) == 0
    ensures Elapsed(o.state.cumulativeSessionRuntime, env.now) == Elapsed(st.cumulativeSessionRuntime, env.now)
    ensures o.state.log == st.log + [Entry(PUNCHIN, RuntimesMessage(st, env.now))]
    ensures MetricsShow(o.state.durationMetrics, Elapsed(st.sessionRuntime, env.now))
    ensures MetricsShow(o.state.cumulativeDurationMetrics, Elapsed(st.cumulativeSessionRuntime, env.now))
    ensures o.state == st.(userStatus := o.state.userStatus, lastPunchIn := o.state.lastPunchIn,
                           sessionRuntime := o.state.sessionRuntime, cumulativeSessionRuntime := o.state.cumulativeSessionRuntime,
                           durationMetrics := o.state.durationMetrics,
                           cumulativeDurationMetrics := o.state.cumulativeDurationMetrics, log := o.state.log)
  {
    var now := env.now;
    var message := RuntimesMessage(st, now);
    var st1 := AddEntry(SnapshotBoth(st, now), PUNCHIN, message);
    var st2 := st1.(sessionRuntime := Restart(st1.sessionRuntime, now),
                    cumulativeSessionRuntime := Start(st1.cumulativeSessionRuntime, now));
    Done(MarkPunchIn(st2, now))
  }

  /** OUT: leaves the session, logs both runtimes, stops both stopwatches
      and punches out. */
  function OutCommand(st: State, env: Env): (o: Outcome)
    requires Ready(st, env.now)
    ensures o.fault.None? && Ready(o.state, env.now) && !o.state.inSession
    ensures o.state.userStatus == INACTIVE && o.state.lastPunchOut == At(env.now)
    ensures !o.state.sessionRuntime.running && !o.state.cumulativeSessionRuntime.running
    ensures Elapsed(o.state.sessionRuntime, env.now) == Elapsed(st.sessionRuntime, env.now)
    ensures Elapsed(o.state.cumulativeSessionRuntime, env.now) == Elapsed(st.cumulativeSessionRuntime, env.now)
    ensures o.state.log == st.log + [Entry(PUNCHOUT, RuntimesMessage(st, env.now))]
    ensures MetricsShow(o.state.durationMetrics, Elapsed(st.sessionRuntime, env.now))
    ensures MetricsShow(o.state.cumulativeDurationMetrics, Elapsed(st.cumulativeSessionRuntime, env.now))
    ensures o.state == st.(inSession := false, userStatus := o.state.userStatus, lastPunchOut := o.state.lastPunchOut,
                           sessionRuntime := o.state.sessionRuntime, cumulativeSessionRuntime := o.state.cumulativeSessionRuntime,
                           durationMetrics := o.state.durationMetrics,
                           cumulativeDurationMetrics := o.state.cumulativeDurationMetrics, log := o.state.log)
  {
    var now := env.now;
    var message := RuntimesMessage(st.(inSession := false), now);
    var st1 := AddEntry(SnapshotBoth(st.(inSession := false), now), PUNCHOUT, message);
    var st2 := st1.(sessionRuntime := Stop(st1.sessionRuntime, now),
                    cumulativeSessionRuntime := Stop(st1.cumulativeSessionRuntime, now));
    Done(MarkPunchOut(st2, now, PunchOutType.OUT))
  }

  const MULTI_ALIAS_DELIMITER: char := '|'

  /** The targets before the first one Process.Start fails on. */
  function Launched(targets: seq<string>, failing: set<string>): (r: seq<string>)
    ensures |r| <= |targets| && r == targets[..|r|]
    ensures forall i :: 0 <= i < |r| ==> r[i] !in failing
    ensures |r| < |targets| ==> targets[|r|] in failing
  {
    if targets == [] || targets[0] in failing then []
    else
      var rest := Launched(targets[1..], failing);
      assert targets == [targets[0]] + targets[1..];
      [targets[0]] + rest
  }

  /** The target Process.Start fails on first, if any. */
  function FirstFailed(targets: seq<string>, failing: set<string>): (r: Option<string>)
    ensures r.Some? ==> r.value in failing
  {
    var ok := Launched(targets, failing);
    if |ok| < |targets| then Some(targets[|ok|]) else None
  }

  function StartCalls(targets: seq<string>): (r: seq<OsCall>)
    ensures |r| == |targets| && forall i :: 0 <= i < |targets| ==> r[i] == StartProcess(targets[i])
  {
    if targets == [] then [] else [StartProcess(targets[0])] + StartCalls(targets[1..])
  }

  function StartedEntries(targets: seq<string>): (r: seq<Entry>)
    ensures |r| == |targets| && forall i :: 0 <= i < |targets| ==> r[i] == Entry(SYSTEMPOST, ProcessStarted(targets[i]))
  {
    if targets == [] then [] else [Entry(SYSTEMPOST, ProcessStarted(targets[0]))] + StartedEntries(targets[1..])
  }

  /** The calls the launch loop makes: Process.Start on every target before
      the first failure, and on the failing one. */
  function LaunchCalls(targets: seq<string>, failing: set<string>): seq<OsCall>
  {
    var failed := FirstFailed(targets, failing);
    StartCalls(Launched(targets, failing)) + (if failed.Some? then [StartProcess(failed.value)] else [])
  }

  /** The entries the launch loop logs: one per successful start, and one
      error entry naming the whole launch string when a start fails. */
  function LaunchEntries(targets: seq<string>, applicationPath: string, failing: set<string>): seq<Entry>
  {
    StartedEntries(Launched(targets, failing))
    + (if FirstFailed(targets, failing).Some? then [Entry(SYSTEMERROR, ProcessFailed(applicationPath))] else [])
  }

  /** The launch loop of OpenProcess. Each successful start refreshes the
      process snapshot and logs one success entry; the first failure jumps to
      the one catch block around the whole loop, which logs one error entry
      naming the whole launch string, and no later target is tried. */
  function LaunchTargets(st: State, targets: seq<string>, applicationPath: string, env: Env): (r: State)
    ensures r == st.(system := r.system, log := r.log, trackedProcesses := r.trackedProcesses)
    decreases |targets|
  {
    if targets == [] then st
    else
      var target := targets[0];
      var st1 := st.(system := st.system + [StartProcess(target)]);
      if target in Failing(env) then AddEntry(st1, SYSTEMERROR, ProcessFailed(applicationPath))
      else
        var st2 := AddEntry(st1.(trackedProcesses := Some(env.running)), SYSTEMPOST, ProcessStarted(target));
        LaunchTargets(st2, targets[1..], applicationPath, env)
  }

  /** A Launch applied to the session. */
  function Apply(st: State, l: Launch, env: Env): State
  {
    st.(system := st.system + l.calls, log := st.log + l.entries,
        trackedProcesses := if l.started then Some(env.running) else st.trackedProcesses)
  }

  /** The launch loop adds, as a whole, what LaunchSteps collects. */
  lemma {:induction false} LaunchTargetsSteps(st: State, targets: seq<string>, applicationPath: string, env: Env)
    ensures LaunchTargets(st, targets, applicationPath, env) == Apply(st, LaunchSteps(targets, applicationPath, Failing(env)), env)
    decreases |targets|
  {
    if targets != [] && targets[0] !in Failing(env) {
      var target := targets[0];
      var st2 := AddEntry(st.(system := st.system + [StartProcess(target)], trackedProcesses := Some(env.running)),
                          SYSTEMPOST, ProcessStarted(target));
      var rest := LaunchSteps(targets[1..], applicationPath, Failing(env));
      LaunchTargetsSteps(st2, targets[1..], applicationPath, env);
      ApplyAfterStart(st, target, rest, env);
    }
  }

  lemma ApplyAfterStart(st: State, target: string, rest: Launch, env: Env)
    ensures Apply(AddEntry(st.(system := st.system + [StartProcess(target)], trackedProcesses := Some(env.running)),
                           SYSTEMPOST, ProcessStarted(target)), rest, env)
      == Apply(st, Launch([StartProcess(target)] + rest.calls, [Entry(SYSTEMPOST, ProcessStarted(target))] + rest.entries, true), env)
  {
    assert st.system + [StartProcess(target)] + rest.calls == st.system + ([StartProcess(target)] + rest.calls);
    assert st.log + [Entry(SYSTEMPOST, ProcessStarted(target))] + rest.entries == st.log + ([Entry(SYSTEMPOST, ProcessStarted(target))] + rest.entries);
  }

  /** The launch loop in closed form: Process.Start is called on every
      target up to and including the first that fails; each success is
      logged once, a failure once, and the snapshot is refreshed exactly when
      some target started. */
  lemma LaunchTargetsClosed(st: State, targets: seq<string>, applicationPath: string, env: Env)
    ensures var r := LaunchTargets(st, targets, applicationPath, env);
      && r.system == st.system + LaunchCalls(targets, Failing(env))
      && r.log == st.log + LaunchEntries(targets, applicationPath, Failing(env))
      && r.trackedProcesses == if Launched(targets, Failing(env)) == [] then st.trackedProcesses else Some(env.running)
  {
    LaunchTargetsSteps(st, targets, applicationPath, env);
    LaunchStepsClosed(targets, applicationPath, Failing(env));
  }

  /** What one pass of the launch loop adds, target by target, as the loop
      body does it: a reference for LaunchCalls and LaunchEntries. */
  datatype Launch = Launch(calls: seq<OsCall>, entries: seq<Entry>, started: bool)

  function LaunchSteps(targets: seq<string>, applicationPath: string, failing: set<string>): Launch
  {
    if targets == [] then Launch([], [], false)
    else if targets[0] in failing then
      Launch([StartProcess(targets[0])], [Entry(SYSTEMERROR, ProcessFailed(applicationPath))], false)
    else
      var rest := LaunchSteps(targets[1..], applicationPath, failing);
      Launch([StartProcess(targets[0])] + rest.calls,
             [Entry(SYSTEMPOST, ProcessStarted(targets[0]))] + rest.entries, true)
  }

  /** The target-by-target loop and the closed form of LaunchTargets agree. */
  lemma {:induction false} LaunchStepsClosed(targets: seq<string>, applicationPath: string, failing: set<string>)
    ensures LaunchSteps(targets, applicationPath, failing)
      == Launch(LaunchCalls(targets, failing), LaunchEntries(targets, applicationPath, failing), Launched(targets, failing) != [])
    decreases |targets|
  {
    if targets == [] {
    } else if targets[0] in failing {
      assert Launched(targets, failing) == [];
    } else {
      LaunchStepsClosed(targets[1..], applicationPath, failing);
      LaunchCallsShift(targets, failing);
      LaunchEntriesShift(targets, applicationPath, failing);
    }
  }

  lemma LaunchCallsShift(targets: seq<string>, failing: set<string>)
    requires targets != [] && targets[0] !in failing
    ensures LaunchCalls(targets, failing) == [StartProcess(targets[0])] + LaunchCalls(targets[1..], failing)
  {
    LaunchShift(targets, failing);
    var ok := Launched(targets[1..], failing);
    assert ([targets[0]] + ok)[1..] == ok;
  }

  lemma LaunchEntriesShift(targets: seq<string>, applicationPath: string, failing: set<string>)
    requires targets != [] && targets[0] !in failing
    ensures LaunchEntries(targets, applicationPath, failing)
      == [Entry(SYSTEMPOST, ProcessStarted(targets[0]))] + LaunchEntries(targets[1..], applicationPath, failing)
  {
    LaunchShift(targets, failing);
    var ok := Launched(targets[1..], failing);
    assert ([targets[0]] + ok)[1..] == ok;
  }

  /** How the launch sequences of a target list relate to those of its tail. */
  lemma LaunchShift(targets: seq<string>, failing: set<string>)
    requires targets != [] && targets[0] !in failing
    ensures Launched(targets, failing) == [targets[0]] + Launched(targets[1..], failing)
    ensures FirstFailed(targets, failing) == FirstFailed(targets[1..], failing)
  {
  }

  /** Registry.LocalMachine.OpenSubKey(REG_SUB_KEY_ALIAS, writable) gives
      a usable key: the key exists and, when it is opened for writing, this
      user may write it. A missing key (null, on which the next call
      throws) and a refused write open both end in the caller's catch
      block. Opening for reading is always allowed. */
  predicate AliasKeyOpens(st: State, env: Env, writable: bool)
  {
    st.aliasKey.Some? && (writable ==> env.aliasKeyWritable)
  }

  /** OpenProcess: opens the alias key (for writing when the process runs
      as administrator), resolves args[1] through it (the launch string is
      the alias's value when that is non-empty, the input otherwise) and
      launches it, target by target when it holds '|'. A key that does not
      open throws into the catch block: one error entry and nothing
      launched. */
  function OpenProcess(st: State, applicationPath: string, env: Env): (r: State)
    requires |st.storedArgs| >= 2
    ensures r == st.(log := r.log, system := r.system, trackedProcesses := r.trackedProcesses)
  {
    if !AliasKeyOpens(st, env, env.isAdmin) then AddEntry(st, SYSTEMERROR, ProcessFailed(applicationPath))
    else
      var entries := st.aliasKey.value;
      var processFromAlias := GetAliasProcessString(entries, st.storedArgs[1]);
      var path := if processFromAlias == "" then applicationPath else processFromAlias;
      if MULTI_ALIAS_DELIMITER in path then LaunchTargets(st, Split(path, MULTI_ALIAS_DELIMITER), path, env)
      else LaunchTargets(st, [path], path, env)
  }

  /** OPEN: when system events are on, copies quote segment 1 into args[1],
      logs the start request and opens the process. */
  function OpenCommand(st: State, env: Env): (o: Outcome)
    ensures !st.includeSystemEvents ==> o == Done(st)
    ensures st.includeSystemEvents ==> (o.fault.None? <==> |QuoteSegments(env)| >= 2 && |st.storedArgs| >= 2)
    ensures o.fault.Some? ==> o.state == st
    ensures var q := QuoteSegments(env);
      st.includeSystemEvents && |q| >= 2 && |st.storedArgs| >= 2 ==>
      o.state == OpenProcess(AddEntry(st.(storedArgs := st.storedArgs[1 := q[1]]), PROCESSSTARTREQUEST, Opening(q[1])), q[1], env)
    ensures o.state == st.(storedArgs := o.state.storedArgs, log := o.state.log, system := o.state.system,
                           trackedProcesses := o.state.trackedProcesses)
  {
    if !st.includeSystemEvents then Done(st)
    else
      var segments := QuoteSegments(env);
      if |segments| < 2 || |st.storedArgs| < 2 then Outcome(st, Some(IndexOutOfRange))
      else
        var st1 := st.(storedArgs := st.storedArgs[1 := segments[1]]);
        var st2 := AddEntry(st1, PROCESSSTARTREQUEST, Opening(segments[1]));
        Done(OpenProcess(st2, segments[1], env))
  }

  /** The positions of the snapshot whose process name equals the argument. */
  function MatchingIndices(processes: seq<string>, name: string, from: nat): (r: seq<nat>)
    requires from <= |processes|
    ensures forall i :: i in r <==> from <= i < |processes| && processes[i] == name
    ensures forall a, b :: 0 <= a < b < |r| ==> r[a] < r[b]
    ensures forall a :: 0 <= a < |r| ==> from <= r[a]
    decreases |processes| - from
  {
    if from == |processes| then []
    else (if processes[from] == name then [from] else []) + MatchingIndices(processes, name, from + 1)
  }

  function ReleaseCalls(indices: seq<nat>): (r: seq<OsCall>)
    ensures |r| == |indices| && forall i :: 0 <= i < |indices| ==> r[i] == ReleaseProcess(indices[i])
  {
    if indices == [] then [] else [ReleaseProcess(indices[0])] + ReleaseCalls(indices[1..])
  }

  /** Closing from position i: the call for position i, if it matches,
      then the calls from position i + 1. */
  lemma ReleaseStep(prefix: seq<OsCall>, processes: seq<string>, name: string, i: nat)
    requires i < |processes|
    ensures prefix + ReleaseCalls(MatchingIndices(processes, name, i))
      == (prefix + if processes[i] == name then [ReleaseProcess(i)] else []) + ReleaseCalls(MatchingIndices(processes, name, i + 1))
  {
    var rest := MatchingIndices(processes, name, i + 1);
    if processes[i] == name {
      var m := MatchingIndices(processes, name, i);
      assert m == [i] + rest;
      assert m[1..] == rest;
      assert ReleaseCalls(m) == [ReleaseProcess(i)] + ReleaseCalls(rest);
    } else {
      assert MatchingIndices(processes, name, i) == rest;
    }
  }

  /** CloseProcess: calls Process.Close on every snapshot entry whose name
      equals the argument. */
  function CloseProcess(st: State, applicationPath: string): State
    requires st.trackedProcesses.Some?
  {
    st.(system := st.system + ReleaseCalls(MatchingIndices(st.trackedProcesses.value, applicationPath, 0)))
  }

  /** CLOSE: when system events are on, copies quote segment 1 into args[1],
      logs the request and closes the matching processes; a snapshot never
      taken (null) throws after the log entry. */
  function CloseCommand(st: State, env: Env): (o: Outcome)
    ensures !st.includeSystemEvents ==> o == Done(st)
    ensures st.includeSystemEvents ==> (o.fault.None? <==>
      |QuoteSegments(env)| >= 2 && |st.storedArgs| >= 2 && st.trackedProcesses.Some?)
    ensures var q := QuoteSegments(env);
      st.includeSystemEvents && !(|q| >= 2 && |st.storedArgs| >= 2) ==> o == Outcome(st, Some(IndexOutOfRange))
    ensures var q := QuoteSegments(env);
      st.includeSystemEvents && |q| >= 2 && |st.storedArgs| >= 2 ==>
      o.state == st.(storedArgs := st.storedArgs[1 := q[1]], log := st.log + [Entry(SYSTEMPOST, Closing(q[1]))],
                     system := st.system + if st.trackedProcesses.None? then []
                                           else ReleaseCalls(MatchingIndices(st.trackedProcesses.value, q[1], 0)))
  {
    if !st.includeSystemEvents then Done(st)
    else
      var segments := QuoteSegments(env);
      if |segments| < 2 || |st.storedArgs| < 2 then Outcome(st, Some(IndexOutOfRange))
      else
        var st1 := st.(storedArgs := st.storedArgs[1 := segments[1]]);
        var st2 := AddEntry(st1, SYSTEMPOST, Closing(segments[1]));
        if st2.trackedProcesses.None? then Outcome(st2, Some(NullReference))
        else Done(CloseProcess(st2, segments[1]))
  }

  /** HOTKEY: when system events are on, logs the key in args[1] and the
      command number parsed from args[2]; too few arguments or a number that
      does not parse throw. */
  function HotkeyCommand(st: State, env: Env): (o: Outcome)
    ensures !st.includeSystemEvents ==> o == Done(st)
    ensures st.includeSystemEvents ==> (o.fault.None? <==> |st.storedArgs| >= 3 && ParseInt32(st.storedArgs[2]).Some?)
    ensures st.includeSystemEvents && |st.storedArgs| >= 3 && ParseInt32(st.storedArgs[2]).Some? ==>
      o.state.log == st.log + [Entry(SYSTEMPOST, HotkeySet(st.storedArgs[1], ParseInt32(st.storedArgs[2]).value))]
    ensures o.fault.Some? ==> o.state == st
    ensures o.state == st.(log := o.state.log)
  {
    if !st.includeSystemEvents then Done(st)
    else if |st.storedArgs| < 3 then Outcome(st, Some(IndexOutOfRange))
    else
      match ParseInt32(st.storedArgs[2])
      case None => Outcome(st, Some(FormatError))
      case Some(command) => Done(AddEntry(st, SYSTEMPOST, HotkeySet(st.storedArgs[1], command)))
  }

  /** SYSLIS (not gated): sets the system-events flag from bool.Parse(args[1]). */
  function SystemListenCommand(st: State, env: Env): (o: Outcome)
    ensures o.fault.None? <==> |st.storedArgs| >= 2 && ParseBool(st.storedArgs[1]).Some?
    ensures o.fault.None? ==> o.state.includeSystemEvents == ParseBool(st.storedArgs[1]).value
    ensures o.fault.None? ==> o.state.log == st.log + [Entry(SYSTEMPOST, Listening(o.state.includeSystemEvents))]
    ensures o.fault.None? ==> o.state == st.(includeSystemEvents := o.state.includeSystemEvents, log := o.state.log)
    ensures o.fault.Some? ==> o.state == st
  {
    if |st.storedArgs| < 2 then Outcome(st, Some(IndexOutOfRange))
    else
      match ParseBool(st.storedArgs[1])
      case None => Outcome(st, Some(FormatError))
      case Some(b) => Done(AddEntry(st.(includeSystemEvents := b), SYSTEMPOST, Listening(b)))
  }

  /** SESTIM: snapshots both runtimes and logs them. */
  function SessionTimeCommand(st: State, env: Env): (o: Outcome)
    requires Ready(st, env.now)
    ensures o.fault.None? && Ready(o.state, env.now)
    ensures o.state.log == st.log + [Entry(EntryType.NULL, RuntimesMessage(st, env.now))]
    ensures MetricsShow(o.state.durationMetrics, Elapsed(st.sessionRuntime, env.now))
    ensures MetricsShow(o.state.cumulativeDurationMetrics, Elapsed(st.cumulativeSessionRuntime, env.now))
    ensures o.state == st.(durationMetrics := o.state.durationMetrics,
                           cumulativeDurationMetrics := o.state.cumulativeDurationMetrics, log := o.state.log)
  {
    var message := RuntimesMessage(st, env.now);
    Done(AddEntry(SnapshotBoth(st, env.now), EntryType.NULL, message))
  }

  /** The catch blocks of NEWALI: both log a failure naming args[2], which
      itself throws when args has fewer than three elements. */
  function NewAliasFailed(st: State): (o: Outcome)
    ensures o.fault.None? <==> |st.storedArgs| >= 3
    ensures o.fault.None? ==> o.state == AddEntry(st, SYSTEMERROR, AliasFailed(st.storedArgs[2]))
    ensures o.fault.Some? ==> o.state == st
  {
    if |st.storedArgs| < 3 then Outcome(st, Some(IndexOutOfRange))
    else Done(AddEntry(st, SYSTEMERROR, AliasFailed(st.storedArgs[2])))
  }

  /** NEWALI: when system events are on, stores alias name = quote segment 2
      with value = quote segment 1 (copying both into args[1] and args[2]).
      The key is opened for writing only when the process runs as
      administrator. Missing segments or arguments, a key that does not open,
      or a key opened read-only (SetValue then throws) end in the catch block
      with the store unchanged. */
  function NewAliasCommand(st: State, env: Env): (o: Outcome)
    ensures !st.includeSystemEvents ==> o == Done(st)
    ensures var q := QuoteSegments(env);
      st.includeSystemEvents && |q| >= 3 && |st.storedArgs| >= 3 && st.aliasKey.Some? && env.isAdmin && env.aliasKeyWritable
      ==> o == Done(AddEntry(st.(storedArgs := st.storedArgs[1 := q[1]][2 := q[2]],
                                  aliasKey := Some(SetValue(st.aliasKey.value, q[2], q[1]))),
                             SYSTEMPOST, AliasAdded(q[2], q[1])))
    ensures var q := QuoteSegments(env);
      !(|q| >= 3 && |st.storedArgs| >= 3 && st.aliasKey.Some? && env.isAdmin && env.aliasKeyWritable)
      ==> o.state.aliasKey == st.aliasKey && |o.state.log| <= |st.log| + 1
  {
    if !st.includeSystemEvents then Done(st)
    else
      var segments := QuoteSegments(env);
      if |segments| < 2 || |st.storedArgs| < 2 then NewAliasFailed(st)
      else
        var st1 := st.(storedArgs := st.storedArgs[1 := segments[1]]);
        if |segments| < 3 || |st1.storedArgs| < 3 then NewAliasFailed(st1)
        else
          var st2 := st1.(storedArgs := st1.storedArgs[2 := segments[2]]);
          if !AliasKeyOpens(st2, env, env.isAdmin) || !env.isAdmin then NewAliasFailed(st2)
          else
            var st3 := st2.(aliasKey := Some(SetValue(st2.aliasKey.value, segments[2], segments[1])));
            Done(AddEntry(st3, SYSTEMPOST, AliasAdded(segments[2], segments[1])))
  }

  /** GENALIKEY: when system events are on, opens the alias key for
      writing. A missing key is created ("generated"), which takes
      administrator rights; then the key is always reported as already
      generated. An existing key that this user may not open for writing, or
      a creation without the rights, throws into the catch block. */
  function GenerateAliasKeyCommand(st: State, env: Env): (o: Outcome)
    ensures o.fault.None?
    ensures !st.includeSystemEvents ==> o == Done(st)
    ensures st.includeSystemEvents && st.aliasKey.None? && env.isAdmin ==>
      o.state == st.(aliasKey := Some([]), log := st.log + [Entry(SYSTEMPOST, KeyGenerated), Entry(SYSTEMPOST, KeyAlreadyGenerated)])
    ensures st.includeSystemEvents && st.aliasKey.Some? && env.aliasKeyWritable ==>
      o.state == AddEntry(st, SYSTEMPOST, KeyAlreadyGenerated)
    ensures st.includeSystemEvents && (if st.aliasKey.None? then !env.isAdmin else !env.aliasKeyWritable) ==>
      o.state == AddEntry(st, SYSTEMERROR, KeyFailed)
  {
    if !st.includeSystemEvents then Done(st)
    else if st.aliasKey.Some? then
      if env.aliasKeyWritable then Done(AddEntry(st, SYSTEMPOST, KeyAlreadyGenerated))
      else Done(AddEntry(st, SYSTEMERROR, KeyFailed))
    else if !env.isAdmin then Done(AddEntry(st, SYSTEMERROR, KeyFailed))
    else
      var st1 := AddEntry(st.(aliasKey := Some([])), SYSTEMPOST, KeyGenerated);
      Done(AddEntry(st1, SYSTEMPOST, KeyAlreadyGenerated))
  }

  /** value == 1 ? DurationMetrics[index] : CumulativeDurationMetrics[index]. */
  function SelectMetric(st: State, index: nat, value: int): real
    requires |st.durationMetrics| == 3 && |st.cumulativeDurationMetrics| == 3 && index < 3
  {
    if value == 1 then st.durationMetrics[index] else st.cumulativeDurationMetrics[index]
  }

  /** GETHRS, GETMINS and GETSECS. The selector is evaluated while it still
      holds 0, before args[1] is parsed into it, so the cumulative metric is
      always the one reported; the parse that follows is inside a catch-all
      and its result is never read. */
  function GetRuntimeCommand(st: State, unit: MetricUnit, index: nat): (o: Outcome)
    requires |st.durationMetrics| == 3 && |st.cumulativeDurationMetrics| == 3
    requires index < 3
    ensures o == Done(AddEntry(st, EntryType.NULL, Runtime(unit, st.cumulativeDurationMetrics[index])))
  {
    var value := 0;
    var returnValue := SelectMetric(st, index, value);
    Done(AddEntry(st, EntryType.NULL, Runtime(unit, returnValue)))
  }

  /** END: leaves the session and logs its end; the user status is not touched. */
  function EndCommand(st: State, env: Env): (o: Outcome)
    ensures o.fault.None? && !o.state.inSession && o.state.userStatus == st.userStatus
    ensures o.state.log == st.log + [Entry(PUNCHOUT, EndOfSession)]
    ensures o.state == st.(inSession := false, log := o.state.log)
  {
    Done(AddEntry(st.(inSession := false), PUNCHOUT, EndOfSession))
  }

  /** SessionCallback.Trigger for each handler. LOGTAR, PRINT and HELP are
      empty. */
  function Step(st: State, h: Handler, env: Env): (o: Outcome)
    requires Ready(st, env.now)
    ensures Ready(o.state, env.now)
  {
    match h
    case Post => PostCommand(st, env)
    case Login => LoginCommand(st, env)
    case Rest => RestCommand(st, env)
    case Resume => ResumeCommand(st, env)
    case Out => OutCommand(st, env)
    case Open => OpenCommand(st, env)
    case Close => CloseCommand(st, env)
    case Hotkey => HotkeyCommand(st, env)
    case SystemListen => SystemListenCommand(st, env)
    case LogTarget => Done(st)
    case SessionTime => SessionTimeCommand(st, env)
    case Print => Done(st)
    case NewAlias => NewAliasCommand(st, env)
    case GenerateAliasKey => GenerateAliasKeyCommand(st, env)
    case GetHours => GetRuntimeCommand(st, InHours, HOUR_INDEX)
    case GetMinutes => GetRuntimeCommand(st, InMinutes, MINUTE_INDEX)
    case GetSeconds => GetRuntimeCommand(st, InSeconds, SECOND_INDEX)
    case Help => Done(st)
    case End => EndCommand(st, env)
  }

  /** Triggers handlers in order; an exception stops the rest. */
  function Run(st: State, handlers: seq<Handler>, env: Env): (o: Outcome)
    requires Ready(st, env.now)
    ensures Ready(o.state, env.now)
    decreases |handlers|
  {
    if handlers == [] then Done(st)
    else
      var o := Step(st, handlers[0], env);
      if o.fault.Some? then o else Run(o.state, handlers[1..], env)
  }

  /** One iteration of the CallCommand loop: the callback in table slot
      index runs when the upper-cased token contains its code. */
  function FireSlot(st: State, u: string, index: nat, env: Env): (o: Outcome)
    requires Ready(st, env.now) && 1 <= index < |CommandMethodList|
    ensures Ready(o.state, env.now)
  {
    var cb := Table()[index].value;
    if Contains(u, cb.code) then Step(st, cb.handler, env) else Done(st)
  }

  /** Running the handlers fired from table slot index onwards: the
      callback in that slot first, then the later slots unless it threw. */
  lemma RunFiredFrom(st: State, u: string, index: nat, env: Env)
    requires Ready(st, env.now) && 1 <= index < |CommandMethodList|
    ensures var o := FireSlot(st, u, index, env);
      Run(st, FiredFrom(Table(), u, index), env) == if o.fault.Some? then o else Run(o.state, FiredFrom(Table(), u, index + 1), env)
  {
    var cb := Table()[index].value;
    var rest := FiredFrom(Table(), u, index + 1);
    if Contains(u, cb.code) {
      assert FiredFrom(Table(), u, index) == [cb.handler] + rest;
      assert ([cb.handler] + rest)[1..] == rest;
    } else {
      assert FiredFrom(Table(), u, index) == rest;
    }
  }

  /** CallCommand: triggers every handler whose command name the upper-cased
      token contains. */
  function CallCommand(st: State, command: string, env: Env): (o: Outcome)
    requires Ready(st, env.now)
    ensures Ready(o.state, env.now)
  {
    Run(st, Fired(ToUpper(command)), env)
  }

  /** Validate: stores the caller's argument vector and dispatches on its
      first element; an empty vector throws. */
  function Validate(st: State, args: seq<string>, env: Env): (o: Outcome)
    requires Ready(st, env.now)
    ensures Ready(o.state, env.now)
  {
    var st1 := st.(storedArgs := args);
    if |args| == 0 then Outcome(st1, Some(IndexOutOfRange)) else CallCommand(st1, args[0], env)
  }
}
