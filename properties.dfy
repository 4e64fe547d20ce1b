/** Properties of whole dispatches and of handler sequences: which handlers
    a command token fires, how the status and the stopwatches evolve over a
    working day, the system-events gate, the alias store and the launch
    sequence of OPEN. */
module Properties {
  import opened Wrappers
  import opened Text
  import opened Stopwatch
  import opened TimeSpan
  import opened Commands
  import opened Aliases
  import opened Handlers

  // ------------------------------------------------------------- dispatch

  /** The keyword test of CallCommand for one handler, with the keyword
      written out, so that it can be evaluated on a given token. */
  predicate KeywordIn(u: string, h: Handler)
  {
    match h
    case Post => Contains(u, "POST") case Login => Contains(u, "IN") case Rest => Contains(u, "REST")
    case Resume => Contains(u, "RESUME") case Out => Contains(u, "OUT") case Open => Contains(u, "OPEN")
    case Close => Contains(u, "CLOSE") case Hotkey => Contains(u, "HOTKEY")
    case SystemListen => Contains(u, "SYSLIS") case LogTarget => Contains(u, "LOGTAR")
    case SessionTime => Contains(u, "SESTIM") case Print => Contains(u, "PRINT")
    case NewAlias => Contains(u, "NEWALI") case GenerateAliasKey => Contains(u, "GENALIKEY")
    case GetHours => Contains(u, "GETHRS") case GetMinutes => Contains(u, "GETMINS")
    case GetSeconds => Contains(u, "GETSECS") case Help => Contains(u, "HELP")
    case End => Contains(u, "END")
  }

  lemma KeywordInIsName(u: string)
    ensures forall h :: KeywordIn(u, h) == Contains(u, Name(WrittenFor(h)))
  {
    forall h ensures KeywordIn(u, h) == Contains(u, Name(WrittenFor(h))) {
      match h
    case Post => case Login => case Rest => case Resume => case Out => case Open =>
    case Close => case Hotkey => case SystemListen => case LogTarget => case SessionTime =>
    case Print => case NewAlias => case GenerateAliasKey => case GetHours =>
    case GetMinutes => case GetSeconds => case Help => case End =>
    }
  }

  /** Fired, checked one handler at a time against the written-out keywords. */
  lemma FiredByKeywords(u: string, hs: seq<Handler>)
    requires forall i, j :: 0 <= i < j < |hs| ==> Slot(hs[i]) < Slot(hs[j])
    requires forall h :: h in hs <==> h != End && KeywordIn(u, h)
    ensures Fired(u) == hs
  {
    KeywordInIsName(u);
    FiredExactly(u, hs);
  }

  /** "getmins" upper-cases to "GETMINS", which contains "IN" as well as
      "GETMINS": the punch-in handler fires first, then the minutes query. */
  lemma GetMinutesAlsoPunchesIn()
    ensures Fired(ToUpper("getmins")) == [Login, GetMinutes]
  {
    UpperLetters("getmins", "GETMINS");
    GetMinutesFires();
  }

  lemma GetMinutesFires()
    ensures Fired("GETMINS") == [Login, GetMinutes]
  {
    forall h ensures h in [Login, GetMinutes] <==> h != End && KeywordIn("GETMINS", h) {
      match h
      case Post => case Login => case Rest => case Resume => case Out => case Open =>
      case Close => case Hotkey => case SystemListen => case LogTarget => case SessionTime =>
      case Print => case NewAlias => case GenerateAliasKey => case GetHours =>
      case GetMinutes => case GetSeconds => case Help => case End =>
    }
    FiredByKeywords("GETMINS", [Login, GetMinutes]);
  }

  /** "PRINT" contains "IN" too. */
  lemma PrintAlsoPunchesIn()
    ensures Fired("PRINT") == [Login, Print]
  {
    forall h ensures h in [Login, Print] <==> h != End && KeywordIn("PRINT", h) {
      match h
      case Post => case Login => case Rest => case Resume => case Out => case Open =>
      case Close => case Hotkey => case SystemListen => case LogTarget => case SessionTime =>
      case Print => case NewAlias => case GenerateAliasKey => case GetHours =>
      case GetMinutes => case GetSeconds => case Help => case End =>
    }
    FiredByKeywords("PRINT", [Login, Print]);
  }

  /** Handlers fire in enumeration order, not in the order their keywords
      appear in the token. */
  lemma FiringFollowsEnumeration()
    ensures Fired("OUTREST") == [Rest, Out]
  {
    forall h ensures h in [Rest, Out] <==> h != End && KeywordIn("OUTREST", h) {
      match h
      case Post => case Login => case Rest => case Resume => case Out => case Open =>
      case Close => case Hotkey => case SystemListen => case LogTarget => case SessionTime =>
      case Print => case NewAlias => case GenerateAliasKey => case GetHours =>
      case GetMinutes => case GetSeconds => case Help => case End =>
    }
    FiredByKeywords("OUTREST", [Rest, Out]);
  }

  /** "END" fires nothing: its handler was never registered and the token
      contains no other keyword. */
  lemma EndFiresNothing()
    ensures Fired("END") == []
  {
    forall h ensures h in [] <==> h != End && KeywordIn("END", h) {
      match h
      case Post => case Login => case Rest => case Resume => case Out => case Open =>
      case Close => case Hotkey => case SystemListen => case LogTarget => case SessionTime =>
      case Print => case NewAlias => case GenerateAliasKey => case GetHours =>
      case GetMinutes => case GetSeconds => case Help => case End =>
    }
    FiredByKeywords("END", []);
  }
  /** "IN" fires the punch-in handler alone. */
  lemma InFiresLogin()
    ensures Fired("IN") == [Login]
  {
    forall h ensures h in [Login] <==> h != End && KeywordIn("IN", h) {
      match h
      case Post => case Login => case Rest => case Resume => case Out => case Open =>
      case Close => case Hotkey => case SystemListen => case LogTarget => case SessionTime =>
      case Print => case NewAlias => case GenerateAliasKey => case GetHours =>
      case GetMinutes => case GetSeconds => case Help => case End =>
    }
    FiredByKeywords("IN", [Login]);
  }

  /** "REST" fires the break handler alone. */
  lemma RestFiresRest()
    ensures Fired("REST") == [Rest]
  {
    forall h ensures h in [Rest] <==> h != End && KeywordIn("REST", h) {
      match h
      case Post => case Login => case Rest => case Resume => case Out => case Open =>
      case Close => case Hotkey => case SystemListen => case LogTarget => case SessionTime =>
      case Print => case NewAlias => case GenerateAliasKey => case GetHours =>
      case GetMinutes => case GetSeconds => case Help => case End =>
    }
    FiredByKeywords("REST", [Rest]);
  }

  /** "RESUME" fires the resume handler alone. */
  lemma ResumeFiresResume()
    ensures Fired("RESUME") == [Resume]
  {
    forall h ensures h in [Resume] <==> h != End && KeywordIn("RESUME", h) {
      match h
      case Post => case Login => case Rest => case Resume => case Out => case Open =>
      case Close => case Hotkey => case SystemListen => case LogTarget => case SessionTime =>
      case Print => case NewAlias => case GenerateAliasKey => case GetHours =>
      case GetMinutes => case GetSeconds => case Help => case End =>
    }
    FiredByKeywords("RESUME", [Resume]);
  }

  /** "OUT" fires the punch-out handler alone. */
  lemma OutFiresOut()
    ensures Fired("OUT") == [Out]
  {
    forall h ensures h in [Out] <==> h != End && KeywordIn("OUT", h) {
      match h
      case Post => case Login => case Rest => case Resume => case Out => case Open =>
      case Close => case Hotkey => case SystemListen => case LogTarget => case SessionTime =>
      case Print => case NewAlias => case GenerateAliasKey => case GetHours =>
      case GetMinutes => case GetSeconds => case Help => case End =>
    }
    FiredByKeywords("OUT", [Out]);
  }

  /** "GETHRS" fires the hours query alone. */
  lemma GetHoursFires()
    ensures Fired("GETHRS") == [GetHours]
  {
    forall h ensures h in [GetHours] <==> h != End && KeywordIn("GETHRS", h) {
      match h
      case Post => case Login => case Rest => case Resume => case Out => case Open =>
      case Close => case Hotkey => case SystemListen => case LogTarget => case SessionTime =>
      case Print => case NewAlias => case GenerateAliasKey => case GetHours =>
      case GetMinutes => case GetSeconds => case Help => case End =>
    }
    FiredByKeywords("GETHRS", [GetHours]);
  }

  /** A token that contains no registered keyword fires nothing. */
  lemma NothingFires(u: string)
    requires forall h :: h != End ==> !Contains(u, Name(WrittenFor(h)))
    ensures Fired(u) == []
  {
    FiredExactly(u, []);
  }

  /** Validate on such a token only stores the arguments. */
  lemma UnmatchedTokenOnlyStoresArgs(st: State, args: seq<string>, env: Env)
    requires Ready(st, env.now) && |args| >= 1 && Fired(ToUpper(args[0])) == []
    ensures Validate(st, args, env) == Done(st.(storedArgs := args))
  {
  }

  /** Validate on a token that fires one handler is that handler, run on
      the stored arguments. */
  lemma ValidateFiresOne(st: State, args: seq<string>, h: Handler, env: Env)
    requires Ready(st, env.now) && |args| >= 1 && Fired(ToUpper(args[0])) == [h]
    ensures Validate(st, args, env) == Step(st.(storedArgs := args), h, env)
  {
    RunOne(st.(storedArgs := args), h, env);
  }

  /** Running a single handler is that handler's step. */
  lemma RunOne(st: State, h: Handler, env: Env)
    requires Ready(st, env.now)
    ensures Run(st, [h], env) == Step(st, h, env)
  {
    var o := Step(st, h, env);
    assert [h][1..] == [];
    assert Run(o.state, [], env) == Done(o.state);
  }

  // --------------------------------------------------------- working day

  /** Validating a one-token command whose token fires one handler. */
  lemma ValidateToken(st: State, token: string, h: Handler, env: Env)
    requires Ready(st, env.now) && ToUpper(token) == token && Fired(token) == [h]
    ensures Validate(st, [token], env) == Step(st.(storedArgs := [token]), h, env)
  {
    ValidateFiresOne(st, [token], h, env);
  }

  /** The Login handler's step. */
  lemma StepLogin(st: State, env: Env)
    requires Ready(st, env.now)
    ensures var o := Step(st, Login, env);
      && o.fault.None? && o.state.inSession && o.state.userStatus == ACTIVE
      && o.state.sessionRuntime.running && o.state.cumulativeSessionRuntime.running
      && Elapsed(o.state.sessionRuntime, env.now) == 0
      && Elapsed(o.state.cumulativeSessionRuntime, env.now) == 0
      && o.state.log == st.log + [Entry(PUNCHIN, NoMessage)]
  {
  }

  /** IN punches in: a new session with both stopwatches restarted from zero. */
  lemma ValidateLogin(st: State, env: Env)
    requires Ready(st, env.now)
    ensures var o := Validate(st, ["IN"], env);
      && o.fault.None? && o.state.inSession && o.state.userStatus == ACTIVE
      && o.state.sessionRuntime.running && o.state.cumulativeSessionRuntime.running
      && Elapsed(o.state.sessionRuntime, env.now) == 0
      && Elapsed(o.state.cumulativeSessionRuntime, env.now) == 0
      && o.state.log == st.log + [Entry(PUNCHIN, NoMessage)]
  {
    var st1 := st.(storedArgs := ["IN"]);
    assert Validate(st, ["IN"], env) == Step(st1, Login, env) by {
      assert ToUpper("IN") == "IN" by { UpperLetters("IN", "IN"); }
      assert Fired("IN") == [Login] by { InFiresLogin(); }
      ValidateToken(st, "IN", Login, env);
    }
    StepLogin(st1, env);
    assert RuntimesMessage(st1, env.now) == RuntimesMessage(st, env.now);
  }

  /** The Rest handler's step. */
  lemma StepRest(st: State, env: Env)
    requires Ready(st, env.now)
    ensures var o := Step(st, Rest, env);
      && o.fault.None? && o.state.inSession == st.inSession && o.state.userStatus == ONREST
      && !o.state.sessionRuntime.running && !o.state.cumulativeSessionRuntime.running
      && Elapsed(o.state.sessionRuntime, env.now) == Elapsed(st.sessionRuntime, env.now)
      && Elapsed(o.state.cumulativeSessionRuntime, env.now) == Elapsed(st.cumulativeSessionRuntime, env.now)
      && o.state.log == st.log + [Entry(PUNCHOUT, RuntimesMessage(st, env.now))]
  {
  }

  /** REST punches out for a break: both stopwatches stop, keeping what they counted. */
  lemma ValidateRest(st: State, env: Env)
    requires Ready(st, env.now)
    ensures var o := Validate(st, ["REST"], env);
      && o.fault.None? && o.state.inSession == st.inSession && o.state.userStatus == ONREST
      && !o.state.sessionRuntime.running && !o.state.cumulativeSessionRuntime.running
      && Elapsed(o.state.sessionRuntime, env.now) == Elapsed(st.sessionRuntime, env.now)
      && Elapsed(o.state.cumulativeSessionRuntime, env.now) == Elapsed(st.cumulativeSessionRuntime, env.now)
      && o.state.log == st.log + [Entry(PUNCHOUT, RuntimesMessage(st, env.now))]
  {
    var st1 := st.(storedArgs := ["REST"]);
    assert Validate(st, ["REST"], env) == Step(st1, Rest, env) by {
      assert ToUpper("REST") == "REST" by { UpperLetters("REST", "REST"); }
      assert Fired("REST") == [Rest] by { RestFiresRest(); }
      ValidateToken(st, "REST", Rest, env);
    }
    StepRest(st1, env);
    assert RuntimesMessage(st1, env.now) == RuntimesMessage(st, env.now);
  }

  /** The Resume handler's step. */
  lemma StepResume(st: State, env: Env)
    requires Ready(st, env.now)
    ensures var o := Step(st, Resume, env);
      && o.fault.None? && o.state.inSession == st.inSession && o.state.userStatus == ACTIVE
      && o.state.sessionRuntime.running && o.state.cumulativeSessionRuntime.running
      && Elapsed(o.state.sessionRuntime, env.now) == 0
      && Elapsed(o.state.cumulativeSessionRuntime, env.now) == Elapsed(st.cumulativeSessionRuntime, env.now)
      && o.state.log == st.log + [Entry(PUNCHIN, RuntimesMessage(st, env.now))]
  {
  }

  /** RESUME punches back in: the session stopwatch restarts from zero, the
      cumulative one carries on from what it had counted. */
  lemma ValidateResume(st: State, env: Env)
    requires Ready(st, env.now)
    ensures var o := Validate(st, ["RESUME"], env);
      && o.fault.None? && o.state.inSession == st.inSession && o.state.userStatus == ACTIVE
      && o.state.sessionRuntime.running && o.state.cumulativeSessionRuntime.running
      && Elapsed(o.state.sessionRuntime, env.now) == 0
      && Elapsed(o.state.cumulativeSessionRuntime, env.now) == Elapsed(st.cumulativeSessionRuntime, env.now)
      && o.state.log == st.log + [Entry(PUNCHIN, RuntimesMessage(st, env.now))]
  {
    var st1 := st.(storedArgs := ["RESUME"]);
    assert Validate(st, ["RESUME"], env) == Step(st1, Resume, env) by {
      assert ToUpper("RESUME") == "RESUME" by { UpperLetters("RESUME", "RESUME"); }
      assert Fired("RESUME") == [Resume] by { ResumeFiresResume(); }
      ValidateToken(st, "RESUME", Resume, env);
    }
    StepResume(st1, env);
    assert RuntimesMessage(st1, env.now) == RuntimesMessage(st, env.now);
  }

  /** The Out handler's step. */
  lemma StepOut(st: State, env: Env)
    requires Ready(st, env.now)
    ensures var o := Step(st, Out, env);
      && o.fault.None? && !o.state.inSession && o.state.userStatus == INACTIVE
      && !o.state.sessionRuntime.running && !o.state.cumulativeSessionRuntime.running
      && Elapsed(o.state.sessionRuntime, env.now) == Elapsed(st.sessionRuntime, env.now)
      && Elapsed(o.state.cumulativeSessionRuntime, env.now) == Elapsed(st.cumulativeSessionRuntime, env.now)
      && o.state.log == st.log + [Entry(PUNCHOUT, RuntimesMessage(st, env.now))]
      && MetricsShow(o.state.durationMetrics, Elapsed(st.sessionRuntime, env.now))
      && MetricsShow(o.state.cumulativeDurationMetrics, Elapsed(st.cumulativeSessionRuntime, env.now))
  {
  }

  /** OUT punches out and leaves the session: both stopwatches stop, and
      the metrics hold what each had counted. */
  lemma ValidateOut(st: State, env: Env)
    requires Ready(st, env.now)
    ensures var o := Validate(st, ["OUT"], env);
      && o.fault.None? && !o.state.inSession && o.state.userStatus == INACTIVE
      && !o.state.sessionRuntime.running && !o.state.cumulativeSessionRuntime.running
      && Elapsed(o.state.sessionRuntime, env.now) == Elapsed(st.sessionRuntime, env.now)
      && Elapsed(o.state.cumulativeSessionRuntime, env.now) == Elapsed(st.cumulativeSessionRuntime, env.now)
      && o.state.log == st.log + [Entry(PUNCHOUT, RuntimesMessage(st, env.now))]
      && MetricsShow(o.state.durationMetrics, Elapsed(st.sessionRuntime, env.now))
      && MetricsShow(o.state.cumulativeDurationMetrics, Elapsed(st.cumulativeSessionRuntime, env.now))
  {
    var st1 := st.(storedArgs := ["OUT"]);
    assert Validate(st, ["OUT"], env) == Step(st1, Out, env) by {
      assert ToUpper("OUT") == "OUT" by { UpperLetters("OUT", "OUT"); }
      assert Fired("OUT") == [Out] by { OutFiresOut(); }
      ValidateToken(st, "OUT", Out, env);
    }
    StepOut(st1, env);
    assert RuntimesMessage(st1, env.now) == RuntimesMessage(st, env.now);
  }

  /** The stopwatch and log arithmetic of a working day, over the four
      states the punches leave. */
  lemma DayLedger(st: State, s1: State, s2: State, s3: State, s4: State,
                  t0: int, t1: int, t2: int, t3: int)
    requires t0 <= t1 <= t2 <= t3
    requires Ready(s1, t0) && Ready(s2, t1) && Ready(s3, t2) && Ready(s4, t3)
    requires s1.sessionRuntime.running && s1.cumulativeSessionRuntime.running
    requires Elapsed(s1.sessionRuntime, t0) == 0 && Elapsed(s1.cumulativeSessionRuntime, t0) == 0
    requires s1.log == st.log + [Entry(PUNCHIN, NoMessage)]
    requires !s2.sessionRuntime.running && !s2.cumulativeSessionRuntime.running
    requires Elapsed(s2.sessionRuntime, t1) == Elapsed(s1.sessionRuntime, t1)
    requires Elapsed(s2.cumulativeSessionRuntime, t1) == Elapsed(s1.cumulativeSessionRuntime, t1)
    requires s2.log == s1.log + [Entry(PUNCHOUT, RuntimesMessage(s1, t1))]
    requires s3.sessionRuntime.running && s3.cumulativeSessionRuntime.running
    requires Elapsed(s3.sessionRuntime, t2) == 0
    requires Elapsed(s3.cumulativeSessionRuntime, t2) == Elapsed(s2.cumulativeSessionRuntime, t2)
    requires s3.log == s2.log + [Entry(PUNCHIN, RuntimesMessage(s2, t2))]
    requires Elapsed(s4.sessionRuntime, t3) == Elapsed(s3.sessionRuntime, t3)
    requires Elapsed(s4.cumulativeSessionRuntime, t3) == Elapsed(s3.cumulativeSessionRuntime, t3)
    requires s4.log == s3.log + [Entry(PUNCHOUT, RuntimesMessage(s3, t3))]
    ensures Elapsed(s4.cumulativeSessionRuntime, t3) == (t1 - t0) + (t3 - t2)
    ensures Elapsed(s4.sessionRuntime, t3) == t3 - t2
    ensures s4.log == st.log + [
              Entry(PUNCHIN, NoMessage),
              Entry(PUNCHOUT, Runtimes(t1 - t0, t1 - t0)),
              Entry(PUNCHIN, Runtimes(t1 - t0, t1 - t0)),
              Entry(PUNCHOUT, Runtimes(t3 - t2, (t1 - t0) + (t3 - t2)))]
  {
    ElapsedAfter(s1.sessionRuntime, t0, t1);
    ElapsedAfter(s1.cumulativeSessionRuntime, t0, t1);
    ElapsedAfter(s2.sessionRuntime, t1, t2);
    ElapsedAfter(s2.cumulativeSessionRuntime, t1, t2);
    ElapsedAfter(s3.sessionRuntime, t2, t3);
    ElapsedAfter(s3.cumulativeSessionRuntime, t2, t3);
  }

  /** One working day: IN at t0, REST at t1, RESUME at t2 and OUT at t3.
      The cumulative stopwatch counts the time worked since IN with the
      break left out, the session stopwatch the time since RESUME; the user
      ends INACTIVE and out of the session, the metrics hold both counts,
      and the log holds the four punch entries with the runtimes read at
      each punch. */
  lemma WorkingDay(st: State, env: Env, t0: int, t1: int, t2: int, t3: int)
    requires Ready(st, t0) && t0 <= t1 <= t2 <= t3
    ensures var o1 := Validate(st, ["IN"], env.(now := t0));
      var o2 := Validate(o1.state, ["REST"], env.(now := t1));
      var o3 := Validate(o2.state, ["RESUME"], env.(now := t2));
      var o4 := Validate(o3.state, ["OUT"], env.(now := t3));
      && o1.fault.None? && o2.fault.None? && o3.fault.None? && o4.fault.None?
      && o4.state.userStatus == INACTIVE && !o4.state.inSession
      && Elapsed(o4.state.cumulativeSessionRuntime, t3) == (t1 - t0) + (t3 - t2)
      && Elapsed(o4.state.sessionRuntime, t3) == t3 - t2
      && MetricsShow(o4.state.cumulativeDurationMetrics, (t1 - t0) + (t3 - t2))
      && MetricsShow(o4.state.durationMetrics, t3 - t2)
      && o4.state.log == st.log + [
           Entry(PUNCHIN, NoMessage),
           Entry(PUNCHOUT, Runtimes(t1 - t0, t1 - t0)),
           Entry(PUNCHIN, Runtimes(t1 - t0, t1 - t0)),
           Entry(PUNCHOUT, Runtimes(t3 - t2, (t1 - t0) + (t3 - t2)))]
  {
    var o1 := Validate(st, ["IN"], env.(now := t0));
    ValidateLogin(st, env.(now := t0));
    var o2 := Validate(o1.state, ["REST"], env.(now := t1));
    ValidateRest(o1.state, env.(now := t1));
    var o3 := Validate(o2.state, ["RESUME"], env.(now := t2));
    ValidateResume(o2.state, env.(now := t2));
    var o4 := Validate(o3.state, ["OUT"], env.(now := t3));
    ValidateOut(o3.state, env.(now := t3));
    DayLedger(st, o1.state, o2.state, o3.state, o4.state, t0, t1, t2, t3);
  }

  /** GETHRS after that working day, at any later clock reading t4, logs
      the hours worked, the hour total of the worked ticks (t1 - t0) +
      (t3 - t2), as OUT left them in the cumulative metrics. */
  lemma WorkingDayHours(st: State, env: Env, t0: int, t1: int, t2: int, t3: int, t4: int, worked: nat)
    requires Ready(st, t0) && t0 <= t1 <= t2 <= t3 <= t4
    requires worked == (t1 - t0) + (t3 - t2)
    ensures var o1 := Validate(st, ["IN"], env.(now := t0));
      var o2 := Validate(o1.state, ["REST"], env.(now := t1));
      var o3 := Validate(o2.state, ["RESUME"], env.(now := t2));
      var o4 := Validate(o3.state, ["OUT"], env.(now := t3));
      Validate(o4.state, ["GETHRS"], env.(now := t4))
        == Done(AddEntry(o4.state.(storedArgs := ["GETHRS"]), EntryType.NULL, Runtime(InHours, Totals(worked)[HOUR_INDEX])))
  {
    WorkingDay(st, env, t0, t1, t2, t3);
    var o1 := Validate(st, ["IN"], env.(now := t0));
    var o2 := Validate(o1.state, ["REST"], env.(now := t1));
    var o3 := Validate(o2.state, ["RESUME"], env.(now := t2));
    var o4 := Validate(o3.state, ["OUT"], env.(now := t3));
    HoursOfSnapshot(o4.state, env.(now := t4), worked);
  }

  /** GETHRS on a state whose cumulative metrics show ticks logs the hour
      total of ticks (Totals: ticks / 36_000_000_000 hours). */
  lemma HoursOfSnapshot(st: State, env: Env, ticks: nat)
    requires Ready(st, env.now) && MetricsShow(st.cumulativeDurationMetrics, ticks)
    ensures Validate(st, ["GETHRS"], env)
      == Done(AddEntry(st.(storedArgs := ["GETHRS"]), EntryType.NULL,
                       Runtime(InHours, Totals(ticks)[HOUR_INDEX])))
  {
    MetricsShowTotals(st.cumulativeDurationMetrics, ticks);
    ValidateGetHours(st, env);
  }

  /** GETHRS logs the cumulative hours metric as it stands. */
  lemma ValidateGetHours(st: State, env: Env)
    requires Ready(st, env.now)
    ensures Validate(st, ["GETHRS"], env)
      == Done(AddEntry(st.(storedArgs := ["GETHRS"]), EntryType.NULL,
                       Runtime(InHours, st.cumulativeDurationMetrics[HOUR_INDEX])))
  {
    var st1 := st.(storedArgs := ["GETHRS"]);
    assert Validate(st, ["GETHRS"], env) == Step(st1, GetHours, env) by {
      assert ToUpper("GETHRS") == "GETHRS" by { UpperLetters("GETHRS", "GETHRS"); }
      assert Fired("GETHRS") == [GetHours] by { GetHoursFires(); }
      ValidateToken(st, "GETHRS", GetHours, env);
    }
    StepGetHours(st1, env);
  }


  // ------------------------------------------------------ duration queries

  /** The GETHRS handler's step. */
  lemma StepGetHours(st: State, env: Env)
    requires Ready(st, env.now)
    ensures Step(st, GetHours, env)
      == Done(AddEntry(st, EntryType.NULL, Runtime(InHours, st.cumulativeDurationMetrics[HOUR_INDEX])))
  {
  }

  /** GETHRS reports the cumulative hours whatever its argument says: the
      argument "1" that would select the session metric makes no difference. */
  lemma HoursQueryIgnoresArgument(st: State, selector: string, env: Env)
    requires Ready(st, env.now)
    ensures Validate(st, ["GETHRS", selector], env)
      == Done(AddEntry(st.(storedArgs := ["GETHRS", selector]), EntryType.NULL,
                       Runtime(InHours, st.cumulativeDurationMetrics[HOUR_INDEX])))
  {
    var args := ["GETHRS", selector];
    assert Validate(st, args, env) == Step(st.(storedArgs := args), GetHours, env) by {
      assert ToUpper(args[0]) == "GETHRS" by { UpperLetters("GETHRS", "GETHRS"); }
      assert Fired("GETHRS") == [GetHours] by { GetHoursFires(); }
      ValidateFiresOne(st, args, GetHours, env);
    }
    StepGetHours(st.(storedArgs := args), env);
  }

  // ------------------------------------------------------ system events

  /** With system events off, OPEN, CLOSE, HOTKEY, NEWALI and GENALIKEY
      return at once: the session, its log, the alias store and the
      processes are all left alone, and nothing is thrown. */
  lemma GateClosed(st: State, h: Handler, env: Env)
    requires Ready(st, env.now) && !st.includeSystemEvents
    requires h == Open || h == Close || h == Hotkey || h == NewAlias || h == GenerateAliasKey
    ensures Step(st, h, env) == Done(st)
  {
    match h
    case Open =>
    case Close =>
    case Hotkey =>
    case NewAlias =>
    case GenerateAliasKey =>
  }

  /** SYSLIS is not behind the gate: "True" turns system events on even
      when they are off, and logs that it did. */
  lemma SystemListenOpensGate(st: State, env: Env)
    requires Ready(st, env.now) && !st.includeSystemEvents
    requires |st.storedArgs| >= 2 && st.storedArgs[1] == BoolText(true)
    ensures var o := Step(st, SystemListen, env);
      && o.fault.None? && o.state.includeSystemEvents
      && o.state.log == st.log + [Entry(SYSTEMPOST, Listening(true))]
  {
    ParseBoolText(true);
  }

  /** SYSLIS "False" closes the gate again: a following gated handler then
      does nothing. */
  lemma SystemListenClosesGate(st: State, h: Handler, env: Env)
    requires Ready(st, env.now) && |st.storedArgs| >= 2 && st.storedArgs[1] == BoolText(false)
    requires h == Open || h == Close || h == Hotkey || h == NewAlias || h == GenerateAliasKey
    ensures var o := Step(st, SystemListen, env);
      && o.fault.None? && !o.state.includeSystemEvents
      && Step(o.state, h, env) == o
  {
    ParseBoolText(false);
    var o := Step(st, SystemListen, env);
    GateClosed(o.state, h, env);
  }

  // ----------------------------------------------------------- alias store

  /** GENALIKEY is idempotent: once it has run with system events on, on
      a key it may open for writing and that exists or that an
      administrator may create, the key exists, and running it again leaves
      the store as it is and only logs "already generated". */
  lemma GenerateAliasKeyIdempotent(st: State, env: Env)
    requires st.includeSystemEvents && env.aliasKeyWritable && (st.aliasKey.Some? || env.isAdmin)
    ensures var o1 := GenerateAliasKeyCommand(st, env);
      var o2 := GenerateAliasKeyCommand(o1.state, env);
      && o1.state.aliasKey.Some? && o2.state.aliasKey == o1.state.aliasKey
      && o2.state == AddEntry(o1.state, SYSTEMPOST, KeyAlreadyGenerated)
  {
  }

  /** NEWALI, when it succeeds, stores the process list under the alias
      name, so that every spelling of it that differs only in case finds the
      new value; it overwrites an earlier value in place, changes no other
      name's value and keeps the names of the key unique. */
  lemma NewAliasStores(st: State, env: Env)
    requires st.includeSystemEvents && env.isAdmin && env.aliasKeyWritable && st.aliasKey.Some?
    requires |QuoteSegments(env)| >= 3 && |st.storedArgs| >= 3
    requires UniqueNames(st.aliasKey.value)
    ensures var q := QuoteSegments(env);
      var o := NewAliasCommand(st, env);
      && o.fault.None? && o.state.aliasKey.Some?
      && (forall n :: SameName(n, q[2]) ==> ValueOf(o.state.aliasKey.value, n) == Some(q[1]))
      && (forall n :: !SameName(n, q[2]) ==> ValueOf(o.state.aliasKey.value, n) == ValueOf(st.aliasKey.value, n))
      && (ValueOf(st.aliasKey.value, q[2]).Some? ==> |o.state.aliasKey.value| == |st.aliasKey.value|)
      && UniqueNames(o.state.aliasKey.value)
      && o.state.log == st.log + [Entry(SYSTEMPOST, AliasAdded(q[2], q[1]))]
  {
    var q := QuoteSegments(env);
    SetValueLookup(st.aliasKey.value, q[2], q[1]);
    SetValueKeepsNamesUnique(st.aliasKey.value, q[2], q[1]);
  }

  /** Registry names match in any case but alias resolution does not: a
      name set as "note" overwrites the value stored as "Note" and keeps
      that spelling, which "ote" then finds and "note" does not. */
  lemma CaseOnlyOverwrite()
    ensures SetValue([Alias("Note", "a.exe")], "note", "b.exe") == [Alias("Note", "b.exe")]
    ensures GetAliasProcessString([Alias("Note", "b.exe")], "ote") == "b.exe"
    ensures GetAliasProcessString([Alias("Note", "b.exe")], "note") == ""
  {
    assert SameName("Note", "note") by {
      UpperLetters("Note", "NOTE");
      UpperLetters("note", "NOTE");
    }
    assert Contains("Note", "ote");
    assert !Contains("Note", "note");
  }

  /** NEWALI without a key, without administrator rights (the key is then
      opened read-only), or with a key this administrator may not open for
      writing, logs one failure and leaves the store as it was. */
  lemma NewAliasFailure(st: State, env: Env)
    requires st.includeSystemEvents && (st.aliasKey.None? || !env.isAdmin || !env.aliasKeyWritable)
    requires |QuoteSegments(env)| >= 3 && |st.storedArgs| >= 3
    ensures var q := QuoteSegments(env);
      var o := NewAliasCommand(st, env);
      && o.fault.None? && o.state.aliasKey == st.aliasKey
      && o.state.log == st.log + [Entry(SYSTEMERROR, AliasFailed(q[2]))]
  {
  }

  /** Alias resolution takes the first name that contains the query, not the
      one equal to it: with "notepad" stored before "note", "note" resolves
      to notepad's value. */
  lemma FirstContainingNameWins()
    ensures GetAliasProcessString([Alias("notepad", "a.exe"), Alias("note", "b.exe")], "note") == "a.exe"
  {
    assert Contains("notepad", "note");
  }

  /** A query no name contains resolves to the empty string, so OPEN falls
      back to the raw input. */
  lemma UnknownAliasFallsBack(st: State, applicationPath: string, env: Env)
    requires |st.storedArgs| >= 2 && AliasKeyOpens(st, env, env.isAdmin)
    requires forall i :: 0 <= i < |st.aliasKey.value| ==> !Contains(st.aliasKey.value[i].name, st.storedArgs[1])
    requires MULTI_ALIAS_DELIMITER !in applicationPath
    ensures OpenProcess(st, applicationPath, env) == LaunchTargets(st, [applicationPath], applicationPath, env)
  {
  }

  // -------------------------------------------------------- OPEN and CLOSE

  /** OpenProcess in closed form. When the alias key does not open (it is
      missing, or an administrator, who opens it for writing, may not write
      it) one error entry is logged and nothing is started. When it opens,
      the launch string is the
      resolved alias when that is non-empty and the input otherwise, and its
      '|'-separated targets are launched in order (a string without '|' is a
      single target); only the call list, the log and the process snapshot
      change. */
  lemma OpenProcessOutcomes(st: State, applicationPath: string, env: Env)
    requires |st.storedArgs| >= 2
    ensures !AliasKeyOpens(st, env, env.isAdmin) ==>
      OpenProcess(st, applicationPath, env) == st.(log := st.log + [Entry(SYSTEMERROR, ProcessFailed(applicationPath))])
    ensures AliasKeyOpens(st, env, env.isAdmin) ==>
      var alias := GetAliasProcessString(st.aliasKey.value, st.storedArgs[1]);
      var path := if alias == "" then applicationPath else alias;
      var targets := Split(path, MULTI_ALIAS_DELIMITER);
      var r := OpenProcess(st, applicationPath, env);
      && r == st.(system := r.system, log := r.log, trackedProcesses := r.trackedProcesses)
      && r.system == st.system + LaunchCalls(targets, Failing(env))
      && r.log == st.log + LaunchEntries(targets, path, Failing(env))
      && r.trackedProcesses == if Launched(targets, Failing(env)) == [] then st.trackedProcesses else Some(env.running)
  {
    if AliasKeyOpens(st, env, env.isAdmin) {
      var alias := GetAliasProcessString(st.aliasKey.value, st.storedArgs[1]);
      var path := if alias == "" then applicationPath else alias;
      if MULTI_ALIAS_DELIMITER !in path {
        SplitWithoutSeparator(path, MULTI_ALIAS_DELIMITER);
      }
      LaunchTargetsClosed(st, Split(path, MULTI_ALIAS_DELIMITER), path, env);
    }
  }

  /** The first failing target ends the launch: Process.Start is called on
      the targets up to and including it, each earlier one is logged as
      started, one error entry follows, and no later target is tried. */
  lemma FirstFailureStopsLaunch(targets: seq<string>, applicationPath: string, failing: set<string>, k: nat)
    requires k < |targets| && targets[k] in failing
    requires forall i :: 0 <= i < k ==> targets[i] !in failing
    ensures LaunchCalls(targets, failing) == StartCalls(targets[..k + 1])
    ensures LaunchEntries(targets, applicationPath, failing)
      == StartedEntries(targets[..k]) + [Entry(SYSTEMERROR, ProcessFailed(applicationPath))]
  {
    var ok := Launched(targets, failing);
    assert ok == targets[..k];
    var calls := StartCalls(targets[..k + 1]);
    assert StartCalls(ok) + [StartProcess(targets[k])] == calls;
  }

  /** When every target starts, each is started once, in order, and logged
      as started; no error entry is logged. */
  lemma AllTargetsStart(targets: seq<string>, applicationPath: string, failing: set<string>)
    requires forall i :: 0 <= i < |targets| ==> targets[i] !in failing
    ensures LaunchCalls(targets, failing) == StartCalls(targets)
    ensures LaunchEntries(targets, applicationPath, failing) == StartedEntries(targets)
  {
    var ok := Launched(targets, failing);
    assert |ok| == |targets|;
    assert ok == targets;
    assert FirstFailed(targets, failing) == None;
    assert LaunchCalls(targets, failing) == StartCalls(ok) + [];
    assert LaunchEntries(targets, applicationPath, failing) == StartedEntries(ok) + [];
  }

  /** The release calls name exactly the given positions, in their order. */
  lemma ReleaseCallsMembers(m: seq<nat>)
    requires forall a, b :: 0 <= a < b < |m| ==> m[a] < m[b]
    ensures var added := ReleaseCalls(m);
      && (forall c :: c in added ==> c.ReleaseProcess?)
      && (forall i: nat :: ReleaseProcess(i) in added <==> i in m)
      && (forall a, b :: 0 <= a < b < |added| ==> added[a].index < added[b].index)
  {
    var added := ReleaseCalls(m);
    forall i: nat ensures ReleaseProcess(i) in added <==> i in m {
      if ReleaseProcess(i) in added {
        var j :| 0 <= j < |added| && added[j] == ReleaseProcess(i);
        assert m[j] == i;
      }
      if i in m {
        var j :| 0 <= j < |m| && m[j] == i;
        assert added[j] == ReleaseProcess(i);
      }
    }
  }

  /** CloseProcess calls Process.Close on exactly the snapshot positions
      whose name equals the argument, in snapshot order, and changes nothing
      else. */
  lemma CloseReleasesMatching(st: State, applicationPath: string)
    requires st.trackedProcesses.Some?
    ensures var r := CloseProcess(st, applicationPath);
      var processes := st.trackedProcesses.value;
      && r == st.(system := r.system)
      && |r.system| >= |st.system| && r.system[..|st.system|] == st.system
      && (forall c :: c in r.system[|st.system|..] ==> c.ReleaseProcess?)
      && (forall i: nat :: ReleaseProcess(i) in r.system[|st.system|..] <==> i < |processes| && processes[i] == applicationPath)
      && (forall a, b :: |st.system| <= a < b < |r.system| ==> r.system[a].index < r.system[b].index)
  {
    var r := CloseProcess(st, applicationPath);
    var m := MatchingIndices(st.trackedProcesses.value, applicationPath, 0);
    var added := ReleaseCalls(m);
    ReleaseCallsMembers(m);
    assert r.system[|st.system|..] == added;
    forall a, b | |st.system| <= a < b < |r.system| ensures r.system[a].index < r.system[b].index {
      assert r.system[a] == added[a - |st.system|];
      assert r.system[b] == added[b - |st.system|];
    }
  }

  /** OPEN with system events on and a quoted target: the target goes into
      args[1], the request is logged, and then, when the alias key does not
      open, one error entry; when it does, the alias the target names (or
      the target itself) is launched as OpenProcessOutcomes describes. */
  lemma OpenRequestOutcome(st: State, env: Env)
    requires st.includeSystemEvents && |QuoteSegments(env)| >= 2 && |st.storedArgs| >= 2
    ensures var q := QuoteSegments(env);
      var o := OpenCommand(st, env);
      && o.fault.None? && o.state.storedArgs == st.storedArgs[1 := q[1]]
      && (!AliasKeyOpens(st, env, env.isAdmin) ==>
            o.state == st.(storedArgs := o.state.storedArgs,
                           log := st.log + [Entry(PROCESSSTARTREQUEST, Opening(q[1])), Entry(SYSTEMERROR, ProcessFailed(q[1]))]))
      && (AliasKeyOpens(st, env, env.isAdmin) ==>
            var alias := GetAliasProcessString(st.aliasKey.value, q[1]);
            var path := if alias == "" then q[1] else alias;
            var targets := Split(path, MULTI_ALIAS_DELIMITER);
            && o.state.system == st.system + LaunchCalls(targets, Failing(env))
            && o.state.log == st.log + [Entry(PROCESSSTARTREQUEST, Opening(q[1]))] + LaunchEntries(targets, path, Failing(env))
            && o.state.trackedProcesses == if Launched(targets, Failing(env)) == [] then st.trackedProcesses else Some(env.running))
  {
    var q := QuoteSegments(env);
    var st2 := AddEntry(st.(storedArgs := st.storedArgs[1 := q[1]]), PROCESSSTARTREQUEST, Opening(q[1]));
    OpenProcessOutcomes(st2, q[1], env);
  }

  /** CLOSE with system events on, a quoted name and a process snapshot:
      the name goes into args[1], the request is logged, and Process.Close
      is called on exactly the snapshot positions holding that name, in
      order; nothing else changes. */
  lemma CloseRequestOutcome(st: State, env: Env)
    requires st.includeSystemEvents && |QuoteSegments(env)| >= 2 && |st.storedArgs| >= 2
    requires st.trackedProcesses.Some?
    ensures var q := QuoteSegments(env);
      var o := CloseCommand(st, env);
      var processes := st.trackedProcesses.value;
      && o.fault.None?
      && o.state == st.(storedArgs := st.storedArgs[1 := q[1]], log := st.log + [Entry(SYSTEMPOST, Closing(q[1]))],
                        system := o.state.system)
      && |o.state.system| >= |st.system| && o.state.system[..|st.system|] == st.system
      && (forall c :: c in o.state.system[|st.system|..] ==> c.ReleaseProcess?)
      && (forall i: nat :: ReleaseProcess(i) in o.state.system[|st.system|..] <==> i < |processes| && processes[i] == q[1])
      && (forall a, b :: |st.system| <= a < b < |o.state.system| ==> o.state.system[a].index < o.state.system[b].index)
  {
    var q := QuoteSegments(env);
    var st2 := AddEntry(st.(storedArgs := st.storedArgs[1 := q[1]]), SYSTEMPOST, Closing(q[1]));
    CloseReleasesMatching(st2, q[1]);
  }
}
