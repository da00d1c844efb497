/** The engine's session rules as values: what one long-poll cycle, a login and
    the start/stop switches do to the engine's fields and which notifications
    they raise. Network replies, the clock and the device's port count are
    inputs. */
module PollRules {
  import opened Strings
  import opened Records
  import opened Classifier

  /** LastPooling: DateTime.MinValue, or the instant of the last successful cycle. */
  datatype Stamp = MinValue | At(time: int)

  /** The engine's fields, apart from its notification log. cancelled is the
      cancellation state of the current token source; hasTask is whether a
      background polling task is held. */
  datatype State = State(
    connected: bool,
    connectId: int,
    numberOfPorts: int,
    cookieToken: Option<string>,
    lastPooling: Stamp,
    active: bool,
    hasTask: bool,
    cancelled: bool)

  /** The fields as the constructor leaves them. */
  const Initial: State := State(false, -1, 0, None, MinValue, false, false, false)

  /** An exception: an HttpRequestException with its message, or any other kind. */
  datatype Fault = HttpFailure(message: string) | OtherFailure

  /** The outcome of a request: a value or an exception. */
  datatype Reply<T> = Ok(value: T) | Fails(fault: Fault)

  /** The response to the wait-for-events request: status OK with its batch, or
      another status. */
  datatype EventsAnswer = Batch(batch: seq<EventData>) | NotOk

  /** What the device answers during one cycle: the connection id request
      (made only while ConnectId is -1), the events request, the port count
      (read only on a mode change; None when its conversion throws) and the
      clock. */
  datatype CycleInput = CycleInput(
    connectId: Reply<int>,
    events: Reply<EventsAnswer>,
    ports: Option<int>,
    now: int)

  /** New fields and the notifications raised, in order. */
  datatype Step = Step(state: State, notes: seq<Notification>)

  /** What GetEvents hands back: the event, the notifications it raised itself
      and the port count after it. */
  datatype Fetched = Fetched(view: EventView, raised: seq<Notification>, numberOfPorts: int)

  /** The message that marks a long poll that timed out on the device side. */
  const ExpectationFailed: string := "Request failed with status code ExpectationFailed"

  /** GetEvents after its request: a non-OK status or an empty batch gives the
      empty event; a mode change refreshes the port count, raises
      SignalSwitchingModeChanged and gives the empty event; otherwise the
      classified batch. None when something other than an HTTP failure is
      thrown (a port number or the port count that cannot be converted). */
  function EventsOf(numberOfPorts: int, answer: EventsAnswer, ports: Option<int>): Option<Fetched>
  {
    match answer
    case NotOk => Some(Fetched(EmptyView, [], numberOfPorts))
    case Batch(batch) =>
      match Classify(batch, numberOfPorts)
      case None => None
      case Some(Reset) =>
        if ports.None? then None else Some(Fetched(EmptyView, [SignalSwitchingModeChanged], ports.value))
      case Some(Changes(view)) => Some(Fetched(view, [], numberOfPorts))
  }

  /** The notifications PollEvents raises for one event, in its order. */
  function EventNotes(v: EventView): seq<Notification>
  {
    (if v.portMap != [] then [MatrixChanged(v.portMap)] else [])
    + (if v.temperature > -1 then [TemperatureChanged(v.temperature)] else [])
    + (if v.texts != [] then [TextChanged(v.texts)] else [])
    + (if v.colors != [] then [ColorChanged(v.colors)] else [])
    + (if v.locks != [] then [LockedChanged(v.locks)] else [])
  }

  /** The connectivity rules of the two catch blocks of PollEvents. */
  function AfterFault(s: State, fault: Fault): Step
  {
    match fault
    case HttpFailure(message) =>
      if Contains(message, ExpectationFailed) then
        if s.connected then Step(s, []) else Step(s.(connected := true), [ConnectionStateChanged(true)])
      else
        Step(s.(connected := false), if s.connected then [ConnectionStateChanged(false)] else [])
    case OtherFailure => Step(s, [])
  }

  /** One PollEvents call. A cancelled token makes the wait for the lock throw,
      so nothing happens. The connection id is requested while it is -1; then
      the events are fetched and every non-empty category is announced, the
      poll instant is recorded and the engine is connected. */
  function Cycle(s: State, inp: CycleInput): Step
  {
    if s.cancelled then Step(s, [])
    else if s.connectId == -1 && inp.connectId.Fails? then AfterFault(s, inp.connectId.fault)
    else
      var s1 := if s.connectId == -1 then s.(connectId := inp.connectId.value) else s;
      if inp.events.Fails? then AfterFault(s1, inp.events.fault)
      else
        match EventsOf(s1.numberOfPorts, inp.events.value, inp.ports)
        case None => Step(s1, [])
        case Some(f) =>
          Step(s1.(numberOfPorts := f.numberOfPorts, lastPooling := At(inp.now), connected := true),
               f.raised + EventNotes(f.view) + (if s1.connected then [] else [ConnectionStateChanged(true)]))
  }

  /** A cycle whose events were fetched and classified. */
  predicate Succeeds(s: State, inp: CycleInput)
  {
    && !s.cancelled
    && (s.connectId != -1 || inp.connectId.Ok?)
    && inp.events.Ok?
    && EventsOf(s.numberOfPorts, inp.events.value, inp.ports).Some?
  }

  /** EventOn: nothing while already active; otherwise active, and a task is
      started when none is held or the token was cancelled (a live task held
      is kept), so a task is held either way. */
  function EventOnOf(s: State): State
  {
    if s.active then s
    else s.(active := true, hasTask := true)
  }

  /** StartPollingEvents: a fresh token source, then EventOn. */
  function StartOf(s: State): State
  {
    EventOnOf(s.(cancelled := false))
  }

  /** StopPollingEvents (and Dispose): only while active and not yet
      cancelled; then cancel, drop the task, clear active and forget the
      connection id. */
  function StopOf(s: State): State
  {
    if s.active && !s.cancelled then s.(cancelled := true, hasTask := false, active := false, connectId := -1)
    else s
  }

  /** The response to the login request: an exception, or a status, whether it
      has content, and the Set-Cookie header's value if the header is there. */
  datatype LoginAnswer = LoginThrows | LoginResponse(ok: bool, hasContent: bool, cookie: Option<string>)

  /** New fields, the one notification raised and the result. */
  datatype LoginStep = LoginStep(state: State, note: Notification, accepted: bool)

  /** Login: a missing cookie header, or a port count that cannot be converted,
      throws and leaves Connected as it was; a cookie that is empty or mentions
      "invalid" is stored but refused; a non-OK or empty response disconnects. */
  function LoginOf(s: State, answer: LoginAnswer, ports: Option<int>): LoginStep
  {
    match answer
    case LoginThrows => LoginStep(s, ConnectionStateChanged(false), false)
    case LoginResponse(ok, hasContent, cookie) =>
      if !(hasContent && ok) then LoginStep(s.(connected := false), ConnectionStateChanged(false), false)
      else if cookie.None? then LoginStep(s, ConnectionStateChanged(false), false)
      else
        var s1 := s.(cookieToken := cookie);
        if cookie.value == [] || Contains(cookie.value, "invalid") then
          LoginStep(s1.(connected := false), ConnectionStateChanged(false), false)
        else if ports.None? then LoginStep(s1, ConnectionStateChanged(false), false)
        else LoginStep(s1.(numberOfPorts := ports.value, connected := true), ConnectionStateChanged(true), true)
  }

  // ---------------------------------------------------------------------------
  // Properties

  /** Each category is announced exactly when it is non-empty (temperature when
      above -1), with the event's own payload, and nothing else is announced;
      the empty event announces nothing. */
  lemma EventNotesMeaning(v: EventView)
    ensures forall n :: n in EventNotes(v) <==>
              || (v.portMap != [] && n == MatrixChanged(v.portMap))
              || (v.temperature > -1 && n == TemperatureChanged(v.temperature))
              || (v.texts != [] && n == TextChanged(v.texts))
              || (v.colors != [] && n == ColorChanged(v.colors))
              || (v.locks != [] && n == LockedChanged(v.locks))
    ensures EventNotes(EmptyView) == []
  {
    var m: seq<Notification> := if v.portMap != [] then [MatrixChanged(v.portMap)] else [];
    var t: seq<Notification> := if v.temperature > -1 then [TemperatureChanged(v.temperature)] else [];
    var x: seq<Notification> := if v.texts != [] then [TextChanged(v.texts)] else [];
    var c: seq<Notification> := if v.colors != [] then [ColorChanged(v.colors)] else [];
    var l: seq<Notification> := if v.locks != [] then [LockedChanged(v.locks)] else [];
    assert EventNotes(v) == m + t + x + c + l;
  }

  /** Each category is announced at most once, in PollEvents' order: the
      matrix, the temperature, the labels, the colours, the locks. */
  lemma EventNotesOrder(v: EventView)
    ensures |EventNotes(v)| <= 5
    ensures forall i, j :: 0 <= i < j < |EventNotes(v)| ==> Rank(EventNotes(v)[i]) < Rank(EventNotes(v)[j])
  {
    var m: seq<Notification> := if v.portMap != [] then [MatrixChanged(v.portMap)] else [];
    var t: seq<Notification> := if v.temperature > -1 then [TemperatureChanged(v.temperature)] else [];
    var x: seq<Notification> := if v.texts != [] then [TextChanged(v.texts)] else [];
    var c: seq<Notification> := if v.colors != [] then [ColorChanged(v.colors)] else [];
    var l: seq<Notification> := if v.locks != [] then [LockedChanged(v.locks)] else [];
    assert EventNotes(v) == m + t + x + c + l;
    RankedAppend(m, 0, t, 1);
    RankedAppend(m + t, 1, x, 2);
    RankedAppend(m + t + x, 2, c, 3);
    RankedAppend(m + t + x + c, 3, l, 4);
  }

  /** The position of a category in PollEvents' announcement order. */
  function Rank(n: Notification): int
  {
    match n
    case MatrixChanged(_) => 0
    case TemperatureChanged(_) => 1
    case TextChanged(_) => 2
    case ColorChanged(_) => 3
    case LockedChanged(_) => 4
    case _ => 5
  }

  /** Ranks strictly increase along the list and stay at most bound. */
  predicate RankedBelow(ns: seq<Notification>, bound: int)
  {
    && (forall i, j :: 0 <= i < j < |ns| ==> Rank(ns[i]) < Rank(ns[j]))
    && (forall i :: 0 <= i < |ns| ==> Rank(ns[i]) <= bound)
    && |ns| <= bound + 1
  }

  /** Appending at most one notification of a higher rank keeps the ranks increasing. */
  lemma RankedAppend(a: seq<Notification>, b: int, n: seq<Notification>, rank: int)
    requires 0 <= b < rank
    requires a == [] || RankedBelow(a, b)
    requires |n| <= 1 && forall k :: 0 <= k < |n| ==> Rank(n[k]) == rank
    ensures RankedBelow(a + n, rank)
  {
  }

  /** The connectivity values among a list of notifications, in order. */
  function Connectivity(notes: seq<Notification>): seq<bool>
  {
    if notes == [] then []
    else Connectivity(notes[..|notes| - 1])
         + (if notes[|notes| - 1].ConnectionStateChanged? then [notes[|notes| - 1].connected] else [])
  }

  lemma {:induction false} ConnectivityAppend(a: seq<Notification>, b: seq<Notification>)
    ensures Connectivity(a + b) == Connectivity(a) + Connectivity(b)
    decreases |b|
  {
    if b == [] {
      assert a + b == a;
    } else {
      var b' := b[..|b| - 1];
      assert (a + b)[..|a + b| - 1] == a + b';
      assert (a + b)[|a + b| - 1] == b[|b| - 1];
      ConnectivityAppend(a, b');
    }
  }

  /** A cycle raises a connectivity notification exactly when it changes
      Connected, carrying the new value, and records the poll instant exactly
      when it succeeds; the connection id is kept once set. */
  lemma CycleMeaning(s: State, inp: CycleInput)
    ensures Connectivity(Cycle(s, inp).notes)
            == if Cycle(s, inp).state.connected == s.connected then [] else [Cycle(s, inp).state.connected]
    ensures Cycle(s, inp).state.lastPooling == if Succeeds(s, inp) then At(inp.now) else s.lastPooling
    ensures Succeeds(s, inp) ==> Cycle(s, inp).state.connected
    ensures s.connectId != -1 ==> Cycle(s, inp).state.connectId == s.connectId
  {
    if s.cancelled {
    } else if s.connectId == -1 && inp.connectId.Fails? {
      assert Cycle(s, inp) == AfterFault(s, inp.connectId.fault);
      assert !Succeeds(s, inp);
      FaultConnectivity(s, inp.connectId.fault);
    } else {
      var s1 := if s.connectId == -1 then s.(connectId := inp.connectId.value) else s;
      if inp.events.Fails? {
        assert Cycle(s, inp) == AfterFault(s1, inp.events.fault);
        assert !Succeeds(s, inp);
        FaultConnectivity(s1, inp.events.fault);
      } else {
        var e := EventsOf(s1.numberOfPorts, inp.events.value, inp.ports);
        assert s1.numberOfPorts == s.numberOfPorts;
        assert Succeeds(s, inp) <==> e.Some?;
        if e.Some? {
          EventsOfRaised(s1.numberOfPorts, inp.events.value, inp.ports);
          var f := e.value;
          assert Cycle(s, inp) == Step(s1.(numberOfPorts := f.numberOfPorts, lastPooling := At(inp.now), connected := true),
               f.raised + EventNotes(f.view) + (if s1.connected then [] else [ConnectionStateChanged(true)]));
          SuccessConnectivity(s1.connected, f.raised, f.view);
        } else {
          assert Cycle(s, inp) == Step(s1, []);
        }
      }
    }
  }

  /** GetEvents raises nothing but the mode change. */
  lemma EventsOfRaised(numberOfPorts: int, answer: EventsAnswer, ports: Option<int>)
    requires EventsOf(numberOfPorts, answer, ports).Some?
    ensures EventsOf(numberOfPorts, answer, ports).value.raised == []
            || EventsOf(numberOfPorts, answer, ports).value.raised == [SignalSwitchingModeChanged]
  {
  }

  /** The catch blocks report connectivity exactly when they change it. */
  lemma FaultConnectivity(s: State, fault: Fault)
    ensures AfterFault(s, fault).state == s.(connected := AfterFault(s, fault).state.connected)
    ensures Connectivity(AfterFault(s, fault).notes)
            == if AfterFault(s, fault).state.connected == s.connected then [] else [AfterFault(s, fault).state.connected]
  {
    assert Connectivity([ConnectionStateChanged(true)]) == Connectivity([]) + [true];
    assert Connectivity([ConnectionStateChanged(false)]) == Connectivity([]) + [false];
  }

  /** Which way each fault moves Connected: ExpectationFailed connects,
      announcing true only when the engine was disconnected; any other HTTP
      failure disconnects, announcing false only when it was connected; any
      other exception changes nothing. */
  lemma FaultDirection(s: State, fault: Fault)
    ensures fault.HttpFailure? && Contains(fault.message, ExpectationFailed) ==>
              AfterFault(s, fault) == Step(s.(connected := true), if s.connected then [] else [ConnectionStateChanged(true)])
    ensures fault.HttpFailure? && !Contains(fault.message, ExpectationFailed) ==>
              AfterFault(s, fault) == Step(s.(connected := false), if s.connected then [ConnectionStateChanged(false)] else [])
    ensures fault.OtherFailure? ==> AfterFault(s, fault) == Step(s, [])
  {
  }

  /** A successful cycle reports connectivity only when it was disconnected. */
  lemma SuccessConnectivity(connected: bool, raised: seq<Notification>, v: EventView)
    requires raised == [] || raised == [SignalSwitchingModeChanged]
    ensures Connectivity(raised + EventNotes(v) + (if connected then [] else [ConnectionStateChanged(true)]))
            == if connected then [] else [true]
  {
    var tail: seq<Notification> := if connected then [] else [ConnectionStateChanged(true)];
    ConnectivityAppend(raised, EventNotes(v));
    ConnectivityAppend(raised + EventNotes(v), tail);
    assert Connectivity(raised) == [] by {
      assert Connectivity([SignalSwitchingModeChanged]) == Connectivity([]) + [];
    }
    ConnectivityOfEventNotes(v);
    assert Connectivity([ConnectionStateChanged(true)]) == Connectivity([]) + [true];
  }

  /** A list of at most one notification that is not a connectivity change. */
  lemma QuietConnectivity(n: seq<Notification>)
    requires |n| <= 1 && forall k :: 0 <= k < |n| ==> !n[k].ConnectionStateChanged?
    ensures Connectivity(n) == []
  {
    if |n| == 1 {
      assert n[..0] == [];
    }
  }

  /** Two lists without connectivity values make one. */
  lemma QuietAppend(a: seq<Notification>, b: seq<Notification>)
    requires Connectivity(a) == [] && Connectivity(b) == []
    ensures Connectivity(a + b) == []
  {
    ConnectivityAppend(a, b);
  }

  /** Announcing an event reports no connectivity change. */
  lemma ConnectivityOfEventNotes(v: EventView)
    ensures Connectivity(EventNotes(v)) == []
  {
    var m: seq<Notification> := if v.portMap != [] then [MatrixChanged(v.portMap)] else [];
    var t: seq<Notification> := if v.temperature > -1 then [TemperatureChanged(v.temperature)] else [];
    var x: seq<Notification> := if v.texts != [] then [TextChanged(v.texts)] else [];
    var c: seq<Notification> := if v.colors != [] then [ColorChanged(v.colors)] else [];
    var l: seq<Notification> := if v.locks != [] then [LockedChanged(v.locks)] else [];
    QuietConnectivity(m);
    QuietConnectivity(t);
    QuietConnectivity(x);
    QuietConnectivity(c);
    QuietConnectivity(l);
    QuietAppend(m, t);
    QuietAppend(m + t, x);
    QuietAppend(m + t + x, c);
    QuietAppend(m + t + x + c, l);
  }

  /** Once the connection id is set, the connection id request plays no part. */
  lemma ConnectIdRequestedOnlyWhileUnset(s: State, inp: CycleInput, other: Reply<int>)
    requires s.connectId != -1
    ensures Cycle(s, inp) == Cycle(s, inp.(connectId := other))
  {
  }

  /** The fields after a run of cycles and every notification raised, in order. */
  function Run(s: State, inputs: seq<CycleInput>): Step
  {
    if inputs == [] then Step(s, [])
    else
      var before := Run(s, inputs[..|inputs| - 1]);
      var last := Cycle(before.state, inputs[|inputs| - 1]);
      Step(last.state, before.notes + last.notes)
  }

  /** The latest of a list of connectivity values, or start when there is none. */
  function Latest(bs: seq<bool>, start: bool): bool
  {
    if bs == [] then start else bs[|bs| - 1]
  }

  /** Each value differs from the one before it; the first from start. */
  predicate Alternates(bs: seq<bool>, start: bool)
  {
    bs == [] || (Alternates(bs[..|bs| - 1], start) && bs[|bs| - 1] == !Latest(bs[..|bs| - 1], start))
  }

  /** Over any run of cycles the connectivity notifications alternate between
      true and false, starting opposite the initial state, and the latest one
      always matches Connected: subscribers never see the same state twice. */
  lemma {:induction false} RunConnectivity(s: State, inputs: seq<CycleInput>)
    ensures Alternates(Connectivity(Run(s, inputs).notes), s.connected)
    ensures Latest(Connectivity(Run(s, inputs).notes), s.connected) == Run(s, inputs).state.connected
  {
    if inputs != [] {
      var front := inputs[..|inputs| - 1];
      var inp := inputs[|inputs| - 1];
      var before := Run(s, front);
      var c := Cycle(before.state, inp);
      assert Run(s, inputs) == Step(c.state, before.notes + c.notes);
      RunConnectivity(s, front);
      CycleMeaning(before.state, inp);
      ConnectivityAppend(before.notes, c.notes);
      AlternatesStep(Connectivity(before.notes), s.connected, Connectivity(c.notes), c.state.connected);
    }
  }

  /** A step that reports its new connectivity exactly when it changes keeps
      the reports alternating and the latest one current. */
  lemma AlternatesStep(bs: seq<bool>, start: bool, cs: seq<bool>, next: bool)
    requires Alternates(bs, start)
    requires cs == if next == Latest(bs, start) then [] else [next]
    ensures Alternates(bs + cs, start) && Latest(bs + cs, start) == next
  {
    if cs == [] {
      assert bs + cs == bs;
    } else {
      assert (bs + cs)[..|bs|] == bs;
    }
  }

  /** After a stop that acted, or on a cancelled token, a cycle changes nothing
      and raises nothing, ForcePolling included. */
  lemma StoppedCycleIsInert(s: State, inp: CycleInput)
    requires s.active || s.cancelled
    ensures Cycle(StopOf(s), inp) == Step(StopOf(s), [])
    ensures Cycle(StopOf(s).(lastPooling := MinValue), inp) == Step(StopOf(s).(lastPooling := MinValue), [])
  {
  }

  /** Stopping twice is stopping once, starting while active only clears the
      cancellation, and a stop after a start always acts. */
  lemma LifecycleLaws(s: State)
    ensures StopOf(StopOf(s)) == StopOf(s)
    ensures EventOnOf(EventOnOf(s)) == EventOnOf(s)
    ensures s.active ==> EventOnOf(s) == s
    ensures StartOf(s).active && !StartOf(s).cancelled
    ensures !s.active ==> StartOf(s).hasTask
    ensures s.active ==> StartOf(s) == s.(cancelled := false)
    ensures StopOf(StartOf(s)) == StartOf(s).(cancelled := true, hasTask := false, active := false, connectId := -1)
  {
  }

  /** A login raises exactly one notification, whose value is its result; it
      succeeds exactly on an OK response with content, a usable cookie and a
      readable port count, and then the engine is connected with that port
      count. A non-OK or empty response, or an empty or "invalid" cookie,
      disconnects; a missing cookie header or an unreadable port count throws,
      which leaves Connected as it was. Nothing but the cookie, the port count
      and Connected changes. */
  lemma LoginMeaning(s: State, answer: LoginAnswer, ports: Option<int>)
    ensures LoginOf(s, answer, ports).note == ConnectionStateChanged(LoginOf(s, answer, ports).accepted)
    ensures LoginOf(s, answer, ports).accepted
            <==> && answer.LoginResponse? && answer.ok && answer.hasContent && answer.cookie.Some?
                 && answer.cookie.value != [] && !Contains(answer.cookie.value, "invalid") && ports.Some?
    ensures LoginOf(s, answer, ports).accepted ==>
              LoginOf(s, answer, ports).state == s.(cookieToken := answer.cookie, numberOfPorts := ports.value, connected := true)
    ensures answer.LoginResponse?
            && (!(answer.ok && answer.hasContent)
                || (answer.cookie.Some? && (answer.cookie.value == [] || Contains(answer.cookie.value, "invalid"))))
            ==> LoginOf(s, answer, ports).state == s.(cookieToken := LoginOf(s, answer, ports).state.cookieToken, connected := false)
    ensures (|| answer.LoginThrows?
             || (answer.ok && answer.hasContent && answer.cookie.None?)
             || (answer.ok && answer.hasContent && answer.cookie.Some? && answer.cookie.value != []
                 && !Contains(answer.cookie.value, "invalid") && ports.None?))
            ==> LoginOf(s, answer, ports).state == s.(cookieToken := LoginOf(s, answer, ports).state.cookieToken)
    ensures LoginOf(s, answer, ports).state.cookieToken
            == if answer.LoginResponse? && answer.ok && answer.hasContent && answer.cookie.Some? then answer.cookie else s.cookieToken
  {
  }

  /** A login that throws while connected announces false yet stays connected. */
  lemma LoginThrowKeepsConnection(s: State, ports: Option<int>)
    requires s.connected
    ensures LoginOf(s, LoginThrows, ports).note == ConnectionStateChanged(false)
    ensures LoginOf(s, LoginThrows, ports).state.connected
  {
  }
}
