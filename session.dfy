/** The session object of Session.cs: the static fields become the fields of
    one Session, the metric arrays, the callback table and the stored
    argument vector stay arrays that the handlers write in place, and every
    handler is a method proved to leave exactly the state, and raise exactly
    the exception, that the function of the same name in Handlers describes. */
module SessionClass {
  import opened Wrappers
  import opened Text
  import opened Stopwatch
  import opened TimeSpan
  import opened Commands
  import opened Aliases
  import opened Handlers

  class Session {
    var userStatus: UserStatus
    var inSession: bool
    var includeSystemEvents: bool
    var lastPunchIn: Stamp
    var lastPunchOut: Stamp
    var sessionRuntime: Watch
    var cumulativeSessionRuntime: Watch
    const durationMetrics: array<real>
    const cumulativeDurationMetrics: array<real>
    /** _storedArgs: after Validate, the caller's own array. */
    var storedArgs: array<string>
    /** The registry key Software\TLCS\Alias, None while it does not exist. */
    var aliasKey: Option<seq<Alias>>
    /** _TrackedProcesses, None while still null. */
    var trackedProcesses: Option<seq<string>>
    /** The entries SessionTimeLog has received. */
    var log: seq<Entry>
    /** The calls made into process control. */
    var system: seq<OsCall>
    const sessionCallbacks: array<Option<SessionCallback>>

    /** Three metric slots in two distinct arrays, and the callback table
        InitCommands built. */
    ghost predicate Valid()
      reads this, sessionCallbacks
    {
      durationMetrics.Length == 3 && cumulativeDurationMetrics.Length == 3
      && durationMetrics != cumulativeDurationMetrics
      && sessionCallbacks[..] == Table()
    }

    /** The fields as the value the handler functions work on. */
    function Abs(): State
      reads this, durationMetrics, cumulativeDurationMetrics, storedArgs
    {
      State(userStatus, inSession, includeSystemEvents, lastPunchIn, lastPunchOut,
            sessionRuntime, cumulativeSessionRuntime,
            durationMetrics[..], cumulativeDurationMetrics[..], storedArgs[..],
            aliasKey, trackedProcesses, log, system)
    }

    /** new Session(): builds the callback table and starts both stopwatches
        at clock reading now; the alias store is whatever the registry holds. */
    constructor (now: int, registry: Option<seq<Alias>>)
      ensures Valid() && Abs() == NewSession(now, registry)
      ensures fresh(storedArgs)
    {
      userStatus := INACTIVE;
      inSession := false;
      includeSystemEvents := false;
      lastPunchIn := Initial;
      lastPunchOut := Initial;
      durationMetrics := new real[3] [0.0, 0.0, 0.0];
      cumulativeDurationMetrics := new real[3] [0.0, 0.0, 0.0];
      storedArgs := new string[0];
      aliasKey := registry;
      trackedProcesses := None;
      log := [];
      system := [];
      var callbacks := InitCommands();
      sessionCallbacks := callbacks;
      sessionRuntime := StartNew(now);
      cumulativeSessionRuntime := StartNew(now);
    }

    // ---------------------------------------------------- session status

    method UpdateUserStatus(newStatus: UserStatus)
      modifies this
      ensures Abs() == Handlers.UpdateUserStatus(old(Abs()), newStatus)
      ensures storedArgs == old(storedArgs)
    {
      userStatus := newStatus;
    }

    method MarkPunchIn(now: int)
      modifies this
      ensures Abs() == Handlers.MarkPunchIn(old(Abs()), now)
      ensures storedArgs == old(storedArgs)
    {
      lastPunchIn := At(now);
      UpdateUserStatus(ACTIVE);
    }

    method MarkPunchOut(now: int, isRest: PunchOutType)
      modifies this
      ensures Abs() == Handlers.MarkPunchOut(old(Abs()), now, isRest)
      ensures storedArgs == old(storedArgs)
    {
      lastPunchOut := At(now);
      UpdateUserStatus(if PunchOutOrdinal(isRest) == 1 then ONREST else INACTIVE);
    }

    // ------------------------------------------------- runtime snapshots

    /** Writes the session stopwatch's totals into DurationMetrics and
        returns its reading rendered as hh:mm:ss.mm. */
    method GetSessionRuntime(now: int) returns (text: string)
      requires Valid() && Ready(Abs(), now)
      modifies durationMetrics
      ensures Valid() && Abs() == Handlers.GetSessionRuntime(old(Abs()), now)
      ensures text == "SESSION RUNTIME: " + Format(Elapsed(sessionRuntime, now))
    {
      var sessionTimeSpan := Elapsed(sessionRuntime, now);
      var totals := Totals(sessionTimeSpan);
      durationMetrics[HOUR_INDEX] := totals[HOUR_INDEX];
      durationMetrics[MINUTE_INDEX] := totals[MINUTE_INDEX];
      durationMetrics[SECOND_INDEX] := totals[SECOND_INDEX];
      assert durationMetrics[..] == totals;
      text := "SESSION RUNTIME: " + Format(sessionTimeSpan);
    }

    /** Writes the cumulative stopwatch's totals into
        CumulativeDurationMetrics and returns its rendered reading. */
    method GetCumulativeSessionRuntime(now: int) returns (text: string)
      requires Valid() && Ready(Abs(), now)
      modifies cumulativeDurationMetrics
      ensures Valid() && Abs() == Handlers.GetCumulativeSessionRuntime(old(Abs()), now)
      ensures text == "CUMULATIVE SESSION RUNTIME: " + Format(Elapsed(cumulativeSessionRuntime, now))
    {
      var cumulativeSessionTimeSpan := Elapsed(cumulativeSessionRuntime, now);
      var totals := Totals(cumulativeSessionTimeSpan);
      cumulativeDurationMetrics[HOUR_INDEX] := totals[HOUR_INDEX];
      cumulativeDurationMetrics[MINUTE_INDEX] := totals[MINUTE_INDEX];
      cumulativeDurationMetrics[SECOND_INDEX] := totals[SECOND_INDEX];
      assert cumulativeDurationMetrics[..] == totals;
      text := "CUMULATIVE SESSION RUNTIME: " + Format(cumulativeSessionTimeSpan);
    }

    /** Logs both runtimes under the given kind, snapshotting both into the
        metric arrays as the interpolated message is built. */
    method LogRuntimes(kind: EntryType, now: int)
      requires Valid() && Ready(Abs(), now)
      modifies this, durationMetrics, cumulativeDurationMetrics
      ensures Valid() && storedArgs == old(storedArgs)
      ensures Abs() == AddEntry(SnapshotBoth(old(Abs()), now), kind, RuntimesMessage(old(Abs()), now))
    {
      var message := RuntimesMessage(Abs(), now);
      var session := GetSessionRuntime(now);
      var cumulative := GetCumulativeSessionRuntime(now);
      log := log + [Entry(kind, message)];
    }

    // ----------------------------------------------------------- handlers

    method PostCommand(env: Env) returns (fault: Option<Fault>)
      requires Valid()
      modifies this, storedArgs
      ensures Valid() && storedArgs == old(storedArgs)
      ensures Outcome(Abs(), fault) == Handlers.PostCommand(old(Abs()), env)
    {
      var segments := QuoteSegments(env);
      if |segments| < 2 || storedArgs.Length < 2 {
        return Some(IndexOutOfRange);
      }
      storedArgs[1] := segments[1];
      log := log + [Entry(EntryType.POST, Posted(storedArgs[1]))];
      fault := None;
    }

    method LoginCommand(env: Env) returns (fault: Option<Fault>)
      requires Valid() && Ready(Abs(), env.now)
      modifies this
      ensures Valid() && storedArgs == old(storedArgs)
      ensures Outcome(Abs(), fault) == Handlers.LoginCommand(old(Abs()), env)
    {
      inSession := true;
      log := log + [Entry(PUNCHIN, NoMessage)];
      sessionRuntime := StartNew(env.now);
      cumulativeSessionRuntime := StartNew(env.now);
      MarkPunchIn(env.now);
      fault := None;
    }

    method RestCommand(env: Env) returns (fault: Option<Fault>)
      requires Valid() && Ready(Abs(), env.now)
      modifies this, durationMetrics, cumulativeDurationMetrics
      ensures Valid() && storedArgs == old(storedArgs)
      ensures Outcome(Abs(), fault) == Handlers.RestCommand(old(Abs()), env)
    {
      LogRuntimes(PUNCHOUT, env.now);
      sessionRuntime := Stop(sessionRuntime, env.now);
      cumulativeSessionRuntime := Stop(cumulativeSessionRuntime, env.now);
      MarkPunchOut(env.now, BREAK);
      fault := None;
    }

    method ResumeCommand(env: Env) returns (fault: Option<Fault>)
      requires Valid() && Ready(Abs(), env.now)
      modifies this, durationMetrics, cumulativeDurationMetrics
      ensures Valid() && storedArgs == old(storedArgs)
      ensures Outcome(Abs(), fault) == Handlers.ResumeCommand(old(Abs()), env)
    {
      LogRuntimes(PUNCHIN, env.now);
      sessionRuntime := Restart(sessionRuntime, env.now);
      cumulativeSessionRuntime := Start(cumulativeSessionRuntime, env.now);
      MarkPunchIn(env.now);
      fault := None;
    }

    method OutCommand(env: Env) returns (fault: Option<Fault>)
      requires Valid() && Ready(Abs(), env.now)
      modifies this, durationMetrics, cumulativeDurationMetrics
      ensures Valid() && storedArgs == old(storedArgs)
      ensures Outcome(Abs(), fault) == Handlers.OutCommand(old(Abs()), env)
    {
      inSession := false;
      LogRuntimes(PUNCHOUT, env.now);
      ghost var st1 := Abs();
      sessionRuntime := Stop(sessionRuntime, env.now);
      cumulativeSessionRuntime := Stop(cumulativeSessionRuntime, env.now);
      assert Abs() == st1.(sessionRuntime := Stop(st1.sessionRuntime, env.now),
                           cumulativeSessionRuntime := Stop(st1.cumulativeSessionRuntime, env.now));
      MarkPunchOut(env.now, PunchOutType.OUT);
      fault := None;
    }

    method OpenCommand(env: Env) returns (fault: Option<Fault>)
      requires Valid()
      modifies this, storedArgs
      ensures Valid() && storedArgs == old(storedArgs)
      ensures Outcome(Abs(), fault) == Handlers.OpenCommand(old(Abs()), env)
    {
      if !includeSystemEvents {
        return None;
      }
      var segments := QuoteSegments(env);
      if |segments| < 2 || storedArgs.Length < 2 {
        return Some(IndexOutOfRange);
      }
      storedArgs[1] := segments[1];
      log := log + [Entry(PROCESSSTARTREQUEST, Opening(storedArgs[1]))];
      OpenProcess(storedArgs[1], env);
      fault := None;
    }

    method CloseCommand(env: Env) returns (fault: Option<Fault>)
      requires Valid()
      modifies this, storedArgs
      ensures Valid() && storedArgs == old(storedArgs)
      ensures Outcome(Abs(), fault) == Handlers.CloseCommand(old(Abs()), env)
    {
      if !includeSystemEvents {
        return None;
      }
      var segments := QuoteSegments(env);
      if |segments| < 2 || storedArgs.Length < 2 {
        return Some(IndexOutOfRange);
      }
      storedArgs[1] := segments[1];
      log := log + [Entry(SYSTEMPOST, Closing(storedArgs[1]))];
      if trackedProcesses.None? {
        return Some(NullReference);
      }
      CloseProcess(storedArgs[1]);
      fault := None;
    }

    method HotkeyCommand(env: Env) returns (fault: Option<Fault>)
      requires Valid()
      modifies this
      ensures Valid() && storedArgs == old(storedArgs)
      ensures Outcome(Abs(), fault) == Handlers.HotkeyCommand(old(Abs()), env)
    {
      if !includeSystemEvents {
        return None;
      }
      if storedArgs.Length < 3 {
        return Some(IndexOutOfRange);
      }
      ghost var st0 := Abs();
      var command := ParseInt32(storedArgs[2]);
      if command.None? {
        return Some(FormatError);
      }
      log := log + [Entry(SYSTEMPOST, HotkeySet(storedArgs[1], command.value))];
      assert Abs() == AddEntry(st0, SYSTEMPOST, HotkeySet(st0.storedArgs[1], command.value));
      fault := None;
    }

    method SystemListenCommand(env: Env) returns (fault: Option<Fault>)
      requires Valid()
      modifies this
      ensures Valid() && storedArgs == old(storedArgs)
      ensures Outcome(Abs(), fault) == Handlers.SystemListenCommand(old(Abs()), env)
    {
      if storedArgs.Length < 2 {
        return Some(IndexOutOfRange);
      }
      var parsed := ParseBool(storedArgs[1]);
      if parsed.None? {
        return Some(FormatError);
      }
      includeSystemEvents := parsed.value;
      log := log + [Entry(SYSTEMPOST, Listening(includeSystemEvents))];
      fault := None;
    }

    method SessionTimeCommand(env: Env) returns (fault: Option<Fault>)
      requires Valid() && Ready(Abs(), env.now)
      modifies this, durationMetrics, cumulativeDurationMetrics
      ensures Valid() && storedArgs == old(storedArgs)
      ensures Outcome(Abs(), fault) == Handlers.SessionTimeCommand(old(Abs()), env)
    {
      LogRuntimes(EntryType.NULL, env.now);
      fault := None;
    }

    /** The catch blocks of NEWALI. */
    method NewAliasFailed() returns (fault: Option<Fault>)
      modifies this
      ensures storedArgs == old(storedArgs)
      ensures Outcome(Abs(), fault) == Handlers.NewAliasFailed(old(Abs()))
    {
      if storedArgs.Length < 3 {
        return Some(IndexOutOfRange);
      }
      log := log + [Entry(SYSTEMERROR, AliasFailed(storedArgs[2]))];
      fault := None;
    }

    method NewAliasCommand(env: Env) returns (fault: Option<Fault>)
      requires Valid()
      modifies this, storedArgs
      ensures Valid() && storedArgs == old(storedArgs)
      ensures Outcome(Abs(), fault) == Handlers.NewAliasCommand(old(Abs()), env)
    {
      if !includeSystemEvents {
        return None;
      }
      var segments := QuoteSegments(env);
      if |segments| < 2 || storedArgs.Length < 2 {
        fault := NewAliasFailed();
        return;
      }
      storedArgs[1] := segments[1];
      if |segments| < 3 || storedArgs.Length < 3 {
        fault := NewAliasFailed();
        return;
      }
      storedArgs[2] := segments[2];
      if aliasKey.None? || !env.isAdmin || !env.aliasKeyWritable {
        fault := NewAliasFailed();
        return;
      }
      aliasKey := Some(SetValue(aliasKey.value, storedArgs[2], storedArgs[1]));
      log := log + [Entry(SYSTEMPOST, AliasAdded(storedArgs[2], storedArgs[1]))];
      fault := None;
    }

    method GenerateAliasKeyCommand(env: Env) returns (fault: Option<Fault>)
      requires Valid()
      modifies this
      ensures Valid() && storedArgs == old(storedArgs)
      ensures Outcome(Abs(), fault) == Handlers.GenerateAliasKeyCommand(old(Abs()), env)
    {
      fault := None;
      if !includeSystemEvents {
        return;
      }
      if aliasKey.None? {
        if !env.isAdmin {
          log := log + [Entry(SYSTEMERROR, KeyFailed)];
          return;
        }
        aliasKey := Some([]);
        log := log + [Entry(SYSTEMPOST, KeyGenerated)];
      } else if !env.aliasKeyWritable {
        log := log + [Entry(SYSTEMERROR, KeyFailed)];
        return;
      }
      log := log + [Entry(SYSTEMPOST, KeyAlreadyGenerated)];
    }

    /** value == 1 ? DurationMetrics[index] : CumulativeDurationMetrics[index]. */
    method SelectMetric(index: nat, value: int) returns (r: real)
      requires Valid() && index < 3
      ensures r == Handlers.SelectMetric(Abs(), index, value)
    {
      r := if value == 1 then durationMetrics[index] else cumulativeDurationMetrics[index];
    }

    /** GETHRS, GETMINS and GETSECS: the selector is read before args[1] is
        parsed into it; the parse result is never used. */
    method GetRuntimeCommand(unit: MetricUnit, index: nat) returns (fault: Option<Fault>)
      requires Valid() && index < 3
      modifies this
      ensures Valid() && storedArgs == old(storedArgs)
      ensures Outcome(Abs(), fault) == Handlers.GetRuntimeCommand(old(Abs()), unit, index)
    {
      var value := 0;
      var returnValue := SelectMetric(index, value);
      var parsed := if storedArgs.Length >= 2 then ParseInt32(storedArgs[1]) else None;
      value := if parsed.Some? then parsed.value else 0;
      log := log + [Entry(EntryType.NULL, Runtime(unit, returnValue))];
      fault := None;
    }

    method EndCommand(env: Env) returns (fault: Option<Fault>)
      modifies this
      ensures storedArgs == old(storedArgs)
      ensures Outcome(Abs(), fault) == Handlers.EndCommand(old(Abs()), env)
    {
      inSession := false;
      log := log + [Entry(PUNCHOUT, EndOfSession)];
      fault := None;
    }

    // ------------------------------------------------- process control

    /** OpenProcess: opens the alias key (for writing when running as
        administrator) and resolves the alias, then starts the launch string, or
        each of its '|'-separated targets in order; the first start that
        fails ends the whole launch in the one catch block. */
    method OpenProcess(applicationPath: string, env: Env)
      requires storedArgs.Length >= 2
      modifies this
      ensures storedArgs == old(storedArgs)
      ensures Abs() == Handlers.OpenProcess(old(Abs()), applicationPath, env)
    {
      if aliasKey.None? || (env.isAdmin && !env.aliasKeyWritable) {
        log := log + [Entry(SYSTEMERROR, ProcessFailed(applicationPath))];
        return;
      }
      var input := applicationPath;
      var processFromAlias := GetAliasProcessString(aliasKey.value, storedArgs[1]);
      var path := if processFromAlias == "" then input else processFromAlias;
      if MULTI_ALIAS_DELIMITER in path {
        var processes := Split(path, MULTI_ALIAS_DELIMITER);
        LaunchEach(processes, path, env);
      } else {
        assert [path][1..] == [];
        system := system + [StartProcess(path)];
        if path in Failing(env) {
          log := log + [Entry(SYSTEMERROR, ProcessFailed(path))];
          return;
        }
        trackedProcesses := Some(env.running);
        log := log + [Entry(SYSTEMPOST, ProcessStarted(path))];
        assert LaunchTargets(Abs(), [], path, env) == Abs();
      }
    }

    /** The foreach loop of OpenProcess over the '|'-separated targets:
        each start is followed by a fresh process snapshot and a success
        entry; the first start that fails leaves the loop for the catch
        block, which logs the whole launch string. */
    method LaunchEach(processes: seq<string>, applicationPath: string, env: Env)
      modifies this
      ensures storedArgs == old(storedArgs)
      ensures Abs() == LaunchTargets(old(Abs()), processes, applicationPath, env)
    {
      var i := 0;
      while i < |processes|
        invariant i <= |processes| && storedArgs == old(storedArgs)
        invariant LaunchTargets(Abs(), processes[i..], applicationPath, env) == LaunchTargets(old(Abs()), processes, applicationPath, env)
      {
        var process := processes[i];
        assert processes[i..][1..] == processes[i + 1..];
        system := system + [StartProcess(process)];
        if process in Failing(env) {
          log := log + [Entry(SYSTEMERROR, ProcessFailed(applicationPath))];
          return;
        }
        trackedProcesses := Some(env.running);
        log := log + [Entry(SYSTEMPOST, ProcessStarted(process))];
        i := i + 1;
      }
    }

    /** CloseProcess: Process.Close on every snapshot entry whose name is the
        argument, in snapshot order. */
    method CloseProcess(applicationPath: string)
      requires trackedProcesses.Some?
      modifies this
      ensures storedArgs == old(storedArgs)
      ensures Abs() == Handlers.CloseProcess(old(Abs()), applicationPath)
    {
      var processes := trackedProcesses.value;
      for index := 0 to |processes|
        invariant storedArgs == old(storedArgs)
        invariant old(system) + ReleaseCalls(MatchingIndices(processes, applicationPath, 0))
          == system + ReleaseCalls(MatchingIndices(processes, applicationPath, index))
        invariant Abs() == old(Abs()).(system := system)
      {
        ReleaseStep(system, processes, applicationPath, index);
        if processes[index] == applicationPath {
          system := system + [ReleaseProcess(index)];
        } else {
          assert system + [] == system;
        }
      }
    }
    // ------------------------------------------------------------ dispatch

    /** SessionCallback.Trigger: runs the handler of one table slot. LOGTAR,
        PRINT and HELP do nothing. */
    method Trigger(h: Handler, env: Env) returns (fault: Option<Fault>)
      requires Valid() && Ready(Abs(), env.now)
      modifies this, storedArgs, durationMetrics, cumulativeDurationMetrics
      ensures Valid() && storedArgs == old(storedArgs)
      ensures Outcome(Abs(), fault) == Step(old(Abs()), h, env)
    {
      match h
      case Post => fault := PostCommand(env);
      case Login => fault := LoginCommand(env);
      case Rest => fault := RestCommand(env);
      case Resume => fault := ResumeCommand(env);
      case Out => fault := OutCommand(env);
      case Open => fault := OpenCommand(env);
      case Close => fault := CloseCommand(env);
      case Hotkey => fault := HotkeyCommand(env);
      case SystemListen => fault := SystemListenCommand(env);
      case LogTarget => fault := None;
      case SessionTime => fault := SessionTimeCommand(env);
      case Print => fault := None;
      case NewAlias => fault := NewAliasCommand(env);
      case GenerateAliasKey => fault := GenerateAliasKeyCommand(env);
      case GetHours => fault := GetRuntimeCommand(InHours, HOUR_INDEX);
      case GetMinutes => fault := GetRuntimeCommand(InMinutes, MINUTE_INDEX);
      case GetSeconds => fault := GetRuntimeCommand(InSeconds, SECOND_INDEX);
      case Help => fault := None;
      case End => fault := EndCommand(env);
    }

    /** CallCommand: walks slots 1 to 18 of the callback table and triggers
        every callback whose code the upper-cased command contains; an
        exception from a handler ends the walk. */
    method CallCommand(command: string, env: Env) returns (fault: Option<Fault>)
      requires Valid() && Ready(Abs(), env.now)
      modifies this, storedArgs, durationMetrics, cumulativeDurationMetrics
      ensures Valid() && storedArgs == old(storedArgs)
      ensures Outcome(Abs(), fault) == Handlers.CallCommand(old(Abs()), command, env)
    {
      fault := None;
      var u := ToUpper(command);
      ghost var target := Handlers.CallCommand(Abs(), command, env);
      for index := 1 to |CommandMethodList|
        invariant Valid() && Ready(Abs(), env.now) && storedArgs == old(storedArgs) && fault.None?
        invariant Run(Abs(), FiredFrom(Table(), u, index), env) == target
      {
        fault := CallStep(u, index, env, target);
        if fault.Some? {
          return;
        }
      }
    }

    /** One pass of the CallCommand loop, seen from the dispatch it belongs
        to: the handlers still to fire from this slot on give the outcome
        target; after the pass, either this slot's handler threw with that
        outcome, or the handlers from the next slot on give it. */
    method CallStep(u: string, index: nat, env: Env, ghost target: Outcome) returns (fault: Option<Fault>)
      requires Valid() && Ready(Abs(), env.now) && 1 <= index < |CommandMethodList|
      requires Run(Abs(), FiredFrom(Table(), u, index), env) == target
      modifies this, storedArgs, durationMetrics, cumulativeDurationMetrics
      ensures Valid() && Ready(Abs(), env.now) && storedArgs == old(storedArgs)
      ensures fault.Some? ==> Outcome(Abs(), fault) == target
      ensures fault.None? ==> Run(Abs(), FiredFrom(Table(), u, index + 1), env) == target
    {
      RunFiredFrom(Abs(), u, index, env);
      fault := FireSlot(u, index, env);
    }

    /** The body of the CallCommand loop for one table slot. */
    method FireSlot(u: string, index: nat, env: Env) returns (fault: Option<Fault>)
      requires Valid() && Ready(Abs(), env.now) && 1 <= index < |CommandMethodList|
      modifies this, storedArgs, durationMetrics, cumulativeDurationMetrics
      ensures Valid() && storedArgs == old(storedArgs)
      ensures Outcome(Abs(), fault) == Handlers.FireSlot(old(Abs()), u, index, env)
    {
      var callback := sessionCallbacks[index].value;
      if Contains(u, callback.code) {
        fault := Trigger(callback.handler, env);
      } else {
        fault := None;
      }
    }

    /** Validate: keeps the caller's argument array as _storedArgs (the
        handlers then write into it) and dispatches on its first element. */
    method Validate(args: array<string>, env: Env) returns (fault: Option<Fault>)
      requires Valid() && Ready(Abs(), env.now)
      modifies this, args, durationMetrics, cumulativeDurationMetrics
      ensures Valid() && storedArgs == args
      ensures Outcome(Abs(), fault) == Handlers.Validate(old(Abs()), old(args[..]), env)
    {
      storedArgs := args;
      if args.Length == 0 {
        return Some(IndexOutOfRange);
      }
      fault := CallCommand(args[0], env);
    }
  }
}
