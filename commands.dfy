/** The command registry and the dispatch rule of Session.cs: the CommandList
    enumeration, the handler list CommandMethodList, the callback table that
    InitCommands builds from the two, and which handlers CallCommand triggers
    for a command token. The handlers themselves are modelled in Handlers. */
module Commands {
  import opened Wrappers
  import opened Text

  /** CommandList, in declaration order; NULL holds position 0. */
  datatype CommandList =
    | NULL | POST | IN | REST | RESUME | OUT | OPEN | CLOSE | HOTKEY | SYSLIS
    | LOGTAR | SESTIM | PRINT | NEWALI | GENALIKEY | GETHRS | GETMINS | GETSECS
    | HELP | END

  /** Enum.GetValues(typeof(CommandList)).Length. */
  const CommandListLength: nat := 20

  /** The underlying value of an enumerator, (int)c. */
  function Ordinal(c: CommandList): (i: nat)
    ensures i < CommandListLength
  {
    match c
    case NULL => 0 case POST => 1 case IN => 2 case REST => 3 case RESUME => 4
    case OUT => 5 case OPEN => 6 case CLOSE => 7 case HOTKEY => 8 case SYSLIS => 9
    case LOGTAR => 10 case SESTIM => 11 case PRINT => 12 case NEWALI => 13
    case GENALIKEY => 14 case GETHRS => 15 case GETMINS => 16 case GETSECS => 17
    case HELP => 18 case END => 19
  }

  /** The cast (CommandList)i. */
  function FromOrdinal(i: nat): (c: CommandList)
    requires i < CommandListLength
    ensures Ordinal(c) == i
  {
    [NULL, POST, IN, REST, RESUME, OUT, OPEN, CLOSE, HOTKEY, SYSLIS, LOGTAR, SESTIM,
     PRINT, NEWALI, GENALIKEY, GETHRS, GETMINS, GETSECS, HELP, END][i]
  }

  /** Enum.ToString(): the enumerator's identifier, which is also its keyword. */
  function Name(c: CommandList): (r: string)
    ensures r != [] && forall i :: 0 <= i < |r| ==> 'A' <= r[i] <= 'Z'
  {
    match c
    case NULL => "NULL" case POST => "POST" case IN => "IN" case REST => "REST"
    case RESUME => "RESUME" case OUT => "OUT" case OPEN => "OPEN" case CLOSE => "CLOSE"
    case HOTKEY => "HOTKEY" case SYSLIS => "SYSLIS" case LOGTAR => "LOGTAR"
    case SESTIM => "SESTIM" case PRINT => "PRINT" case NEWALI => "NEWALI"
    case GENALIKEY => "GENALIKEY" case GETHRS => "GETHRS" case GETMINS => "GETMINS"
    case GETSECS => "GETSECS" case HELP => "HELP" case END => "END"
  }

  /** The handler lambdas of CommandMethodList, named after the comment that
      introduces each one. */
  datatype Handler =
    | Post | Login | Rest | Resume | Out | Open | Close | Hotkey | SystemListen
    | LogTarget | SessionTime | Print | NewAlias | GenerateAliasKey | GetHours
    | GetMinutes | GetSeconds | Help | End

  /** CommandMethodList: one handler per command after NULL, written in
      enumeration order. */
  const CommandMethodList: seq<Handler> :=
    [Post, Login, Rest, Resume, Out, Open, Close, Hotkey, SystemListen, LogTarget,
     SessionTime, Print, NewAlias, GenerateAliasKey, GetHours, GetMinutes, GetSeconds,
     Help, End]

  /** The command a handler was written for. */
  function WrittenFor(h: Handler): (c: CommandList)
    ensures c != NULL
  {
    match h
    case Post => POST case Login => IN case Rest => REST case Resume => RESUME
    case Out => OUT case Open => OPEN case Close => CLOSE case Hotkey => HOTKEY
    case SystemListen => SYSLIS case LogTarget => LOGTAR case SessionTime => SESTIM
    case Print => PRINT case NewAlias => NEWALI case GenerateAliasKey => GENALIKEY
    case GetHours => GETHRS case GetMinutes => GETMINS case GetSeconds => GETSECS
    case Help => HELP case End => END
  }

  /** The ordinal of the command a handler was written for. */
  function Slot(h: Handler): nat
  {
    Ordinal(WrittenFor(h))
  }

  /** Each handler sits in CommandMethodList one place before the ordinal of
      its command, and no two handlers share a command. */
  lemma HandlerListAligned()
    ensures |CommandMethodList| == CommandListLength - 1
    ensures forall i :: 0 <= i < |CommandMethodList| ==> Slot(CommandMethodList[i]) == i + 1
    ensures forall h: Handler :: 1 <= Slot(h) <= |CommandMethodList| && CommandMethodList[Slot(h) - 1] == h
    ensures forall c: CommandList :: FromOrdinal(Ordinal(c)) == c
  {
    HandlerSlots();
    PositionsAligned();
    forall c: CommandList ensures FromOrdinal(Ordinal(c)) == c {
    }
  }

  lemma PositionsAligned()
    ensures forall i :: 0 <= i < |CommandMethodList| ==> Slot(CommandMethodList[i]) == i + 1
  {
    forall i | 0 <= i < |CommandMethodList| ensures Slot(CommandMethodList[i]) == i + 1 {
      PositionIsSlot(i);
    }
  }

  lemma HandlerSlots()
    ensures forall h: Handler :: 1 <= Slot(h) <= |CommandMethodList| && CommandMethodList[Slot(h) - 1] == h
  {
    forall h: Handler
      ensures 1 <= Slot(h) <= |CommandMethodList| && CommandMethodList[Slot(h) - 1] == h
    {
      match h
      case Post => case Login => case Rest => case Resume => case Out => case Open =>
      case Close => case Hotkey => case SystemListen => case LogTarget => case SessionTime =>
      case Print => case NewAlias => case GenerateAliasKey => case GetHours =>
      case GetMinutes => case GetSeconds => case Help => case End =>
    }
  }

  lemma PositionIsSlot(i: nat)
    requires i < |CommandMethodList|
    ensures Slot(CommandMethodList[i]) == i + 1
  {
    if i < 10 {
      if i == 0 {} else if i == 1 {} else if i == 2 {} else if i == 3 {} else if i == 4 {}
      else if i == 5 {} else if i == 6 {} else if i == 7 {} else if i == 8 {} else {}
    } else {
      if i == 10 {} else if i == 11 {} else if i == 12 {} else if i == 13 {} else if i == 14 {}
      else if i == 15 {} else if i == 16 {} else if i == 17 {} else {}
    }
  }

  /** SessionCallback.Create(code, handler). */
  datatype SessionCallback = SessionCallback(code: string, handler: Handler)

  /** Slot index of _SessionCallbacks as InitCommands fills it: slot 0 stays
      null, slot i gets the name of command i and CommandMethodList[i - 1]. */
  function Registration(index: nat): Option<SessionCallback>
    requires index < CommandListLength - 1
  {
    if index > 0 then Some(SessionCallback(Name(FromOrdinal(index)), CommandMethodList[index - 1])) else None
  }

  /** The whole callback table. It has one slot fewer than CommandList has
      enumerators, so the last enumerator, END, never receives its handler. */
  function Table(): (t: seq<Option<SessionCallback>>)
    ensures |t| == CommandListLength - 1 == |CommandMethodList|
    ensures t[0] == None
    ensures forall i :: 1 <= i < |t| ==>
      t[i].Some? && t[i].value.code == Name(FromOrdinal(i)) && Slot(t[i].value.handler) == i
    ensures forall i :: 0 <= i < |t| && t[i].Some? ==> t[i].value.handler != End
  {
    PositionsAligned();
    seq(CommandListLength - 1, i requires 0 <= i < CommandListLength - 1 => Registration(i))
  }

  /** InitCommands: fills a fresh callback array slot by slot. */
  method InitCommands() returns (callbacks: array<Option<SessionCallback>>)
    ensures fresh(callbacks)
    ensures callbacks[..] == Table()
  {
    var commandListCount := CommandListLength - 1;
    callbacks := new Option<SessionCallback>[commandListCount];
    for index := 0 to commandListCount
      invariant forall k :: 0 <= k < index ==> callbacks[k] == Table()[k]
    {
      var newCommandEntry: Option<SessionCallback> := None;
      if index > 0 {
        newCommandEntry := Some(SessionCallback(Name(FromOrdinal(index)), CommandMethodList[index - 1]));
      }
      callbacks[index] := newCommandEntry;
    }
  }

  /** Every slot of a callback table after the first is filled. */
  predicate Filled(t: seq<Option<SessionCallback>>)
  {
    forall i :: 1 <= i < |t| ==> t[i].Some?
  }

  /** Every slot after the first holds the handler of that slot's command. */
  predicate SlotsInOrder(t: seq<Option<SessionCallback>>)
  {
    Filled(t) && forall i :: 1 <= i < |t| ==> Slot(t[i].value.handler) == i
  }

  /** What the CallCommand loop relies on in a callback table: it has a slot
      per handler, and every slot after the first holds the handler of that
      slot's command under the name of the command it was written for. */
  predicate Registered(t: seq<Option<SessionCallback>>)
  {
    && |t| == |CommandMethodList|
    && SlotsInOrder(t)
    && forall i :: 1 <= i < |t| ==> t[i].value.code == Name(WrittenFor(t[i].value.handler))
  }

  /** InitCommands registers every handler as CallCommand needs. */
  lemma TableRegistered()
    ensures Registered(Table())
  {
    var t := Table();
    forall i | 1 <= i < |t| ensures t[i].value.code == Name(WrittenFor(t[i].value.handler)) {
      assert WrittenFor(t[i].value.handler) == FromOrdinal(i) by {
        HandlerListAligned();
      }
    }
  }

  /** The handlers CallCommand triggers for the upper-cased token u while its
      loop over the callback table t runs from index to the end: the handler
      of each slot whose code u contains, in table order. */
  function FiredFrom(t: seq<Option<SessionCallback>>, u: string, index: nat): (r: seq<Handler>)
    requires Filled(t) && 1 <= index <= |t|
    ensures |r| <= |t| - index
    decreases |t| - index
  {
    if index == |t| then []
    else
      var cb := t[index].value;
      (if Contains(u, cb.code) then [cb.handler] else []) + FiredFrom(t, u, index + 1)
  }

  /** From slot index on, exactly the handlers whose command name u
      contains fire. */
  lemma {:induction false} FiredFromMembers(t: seq<Option<SessionCallback>>, u: string, index: nat)
    requires Registered(t) && 1 <= index <= |t|
    ensures forall h :: h in FiredFrom(t, u, index) <==>
      index <= Slot(h) < |t| && Contains(u, Name(WrittenFor(h)))
    decreases |t| - index
  {
    if index < |t| {
      var cb := t[index].value;
      var rest := FiredFrom(t, u, index + 1);
      FiredFromMembers(t, u, index + 1);
      forall h ensures h in FiredFrom(t, u, index) <==>
        index <= Slot(h) < |t| && Contains(u, Name(WrittenFor(h)))
      {
        if h == cb.handler {
          assert Slot(h) == index;
        } else {
          assert Slot(h) != index by {
            HandlerSlots();
          }
          assert h in FiredFrom(t, u, index) <==> h in rest;
        }
      }
    }
  }

  /** From slot index on, the handlers fire in strictly increasing slot
      order. */
  lemma {:induction false} FiredFromOrdered(t: seq<Option<SessionCallback>>, u: string, index: nat)
    requires SlotsInOrder(t) && 1 <= index <= |t|
    ensures forall k :: 0 <= k < |FiredFrom(t, u, index)| ==> index <= Slot(FiredFrom(t, u, index)[k])
    ensures forall a, b :: 0 <= a < b < |FiredFrom(t, u, index)| ==>
      Slot(FiredFrom(t, u, index)[a]) < Slot(FiredFrom(t, u, index)[b])
    decreases |t| - index
  {
    if index < |t| {
      var cb := t[index].value;
      FiredFromOrdered(t, u, index + 1);
      if Contains(u, cb.code) {
        PrependInOrder(cb.handler, FiredFrom(t, u, index + 1), index);
      }
    }
  }

  /** A handler of slot index in front of handlers of later slots that are
      in slot order keeps them in slot order. */
  lemma PrependInOrder(h: Handler, rest: seq<Handler>, index: nat)
    requires Slot(h) == index
    requires forall k :: 0 <= k < |rest| ==> index + 1 <= Slot(rest[k])
    requires forall a, b :: 0 <= a < b < |rest| ==> Slot(rest[a]) < Slot(rest[b])
    ensures forall k :: 0 <= k < |[h] + rest| ==> index <= Slot(([h] + rest)[k])
    ensures forall a, b :: 0 <= a < b < |[h] + rest| ==> Slot(([h] + rest)[a]) < Slot(([h] + rest)[b])
  {
    var r := [h] + rest;
    forall k | 0 < k < |r| ensures r[k] == rest[k - 1] {
    }
  }

  /** Over a whole registered table, exactly the handlers other than END
      whose command name u contains fire, strictly in enumeration order. */
  lemma FiredFromStart(t: seq<Option<SessionCallback>>, u: string)
    requires Registered(t)
    ensures forall h :: h in FiredFrom(t, u, 1) <==> h != End && Contains(u, Name(WrittenFor(h)))
    ensures forall a, b :: 0 <= a < b < |FiredFrom(t, u, 1)| ==>
      Slot(FiredFrom(t, u, 1)[a]) < Slot(FiredFrom(t, u, 1)[b])
  {
    FiredFromMembers(t, u, 1);
    FiredFromOrdered(t, u, 1);
    EndIsLast();
  }

  /** Every handler fired for u, in firing order. The contract: exactly the
      handlers whose command name u contains, strictly in enumeration order,
      and never the END handler. */
  function Fired(u: string): (r: seq<Handler>)
    ensures forall h :: h in r <==> h != End && Contains(u, Name(WrittenFor(h)))
    ensures forall a, b :: 0 <= a < b < |r| ==> Slot(r[a]) < Slot(r[b])
  {
    TableRegistered();
    FiredFromStart(Table(), u);
    FiredFrom(Table(), u, 1)
  }

  /** Two handler sequences in strictly increasing slot order that hold the
      same handlers are equal: Fired is determined by its contract. */
  lemma {:induction false} SlotOrderedUnique(a: seq<Handler>, b: seq<Handler>)
    requires forall i, j :: 0 <= i < j < |a| ==> Slot(a[i]) < Slot(a[j])
    requires forall i, j :: 0 <= i < j < |b| ==> Slot(b[i]) < Slot(b[j])
    requires forall h :: h in a <==> h in b
    ensures a == b
    decreases |a|
  {
    if a == [] {
      FirstIsMember(b);
    } else {
      HeadsAgree(a, b);
      forall h ensures h in a[1..] <==> h in b[1..] {
        FirstNotLater(a, h);
        FirstNotLater(b, h);
      }
      SlotOrderedUnique(a[1..], b[1..]);
      assert a == [a[0]] + a[1..] && b == [b[0]] + b[1..];
    }
  }

  lemma FirstIsMember(b: seq<Handler>)
    ensures |b| > 0 ==> b[0] in b
  {
  }

  /** Two non-empty slot-ordered sequences with the same handlers start
      with the same handler: the one of least slot. */
  lemma HeadsAgree(a: seq<Handler>, b: seq<Handler>)
    requires a != [] && forall i, j :: 0 <= i < j < |a| ==> Slot(a[i]) < Slot(a[j])
    requires forall i, j :: 0 <= i < j < |b| ==> Slot(b[i]) < Slot(b[j])
    requires forall h :: h in a <==> h in b
    ensures b != [] && a[0] == b[0]
  {
    assert a[0] in b;
    var j :| 0 <= j < |b| && b[j] == a[0];
    assert b[0] in a;
    var i :| 0 <= i < |a| && a[i] == b[0];
    assert Slot(a[0]) == Slot(b[0]) by {
      assert Slot(b[0]) <= Slot(b[j]);
      assert Slot(a[0]) <= Slot(a[i]);
    }
    SlotInjective(a[0], b[0]);
  }

  /** In a sequence in strictly increasing slot order, the rest after the
      first element holds everything but the first element. */
  lemma FirstNotLater(a: seq<Handler>, h: Handler)
    requires a != [] && forall i, j :: 0 <= i < j < |a| ==> Slot(a[i]) < Slot(a[j])
    ensures h in a[1..] <==> h in a && h != a[0]
  {
    if h in a[1..] {
      var k :| 0 <= k < |a[1..]| && a[1..][k] == h;
      assert a[k + 1] == h;
    }
  }

  /** No two handlers share a slot. */
  lemma SlotInjective(g: Handler, h: Handler)
    requires Slot(g) == Slot(h)
    ensures g == h
  {
    HandlerSlots();
  }

  /** Fired is the one slot-ordered sequence of the handlers other than END
      whose command name u contains. */
  lemma FiredExactly(u: string, hs: seq<Handler>)
    requires forall i, j :: 0 <= i < j < |hs| ==> Slot(hs[i]) < Slot(hs[j])
    requires forall h :: h in hs <==> h != End && Contains(u, Name(WrittenFor(h)))
    ensures Fired(u) == hs
  {
    SlotOrderedUnique(Fired(u), hs);
  }

  /** Only the END handler has the last slot. */
  lemma EndIsLast()
    ensures forall h :: 1 <= Slot(h) && (Slot(h) < |CommandMethodList| <==> h != End)
  {
    HandlerSlots();
  }
}
