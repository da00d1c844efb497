/** The router client engine: its session fields, login, the long-poll cycle
    that fetches, classifies and announces the device's changes, and the
    switches that start and stop background polling. Requests are replaced by
    their replies, given as parameters; notifications are appended to a log. */
module Engine {
  import opened Strings
  import opened Records
  import opened PortText
  import opened KumoEvents
  import opened Classifier
  import opened PollRules

  class KumoApi {
    var connected: bool
    var connectId: int
    var numberOfPorts: int
    /** _cookieToken; None stands for null. */
    var cookieToken: Option<string>
    var lastPooling: Stamp
    var isEventsPoolingActive: bool
    /** Whether onReportTask is set. */
    var hasReportTask: bool
    /** Whether the current cancellation token source was cancelled. */
    var cancellationRequested: bool
    /** Every notification raised to subscribers, oldest first. */
    var notifications: seq<Notification>
    /** KumoEvent.Empty: the one "nothing changed" event every empty path returns. */
    const emptyEvent: KumoEvent

    /** The shared empty event still holds its defaults. */
    predicate Valid()
      reads this, emptyEvent
    {
      && emptyEvent.temperatureValue == -1
      && emptyEvent.portMap == []
      && emptyEvent.textValues == []
      && emptyEvent.colorValues == []
      && emptyEvent.lockValue == []
    }

    /** The session fields as a value. */
    function View(): State
      reads this
    {
      State(connected, connectId, numberOfPorts, cookieToken, lastPooling,
            isEventsPoolingActive, hasReportTask, cancellationRequested)
    }

    /** No connection id, not polling, not connected, no poll recorded. */
    constructor ()
      ensures Valid()
      ensures View() == Initial && notifications == []
    {
      connected := false;
      connectId := -1;
      numberOfPorts := 0;
      cookieToken := None;
      lastPooling := MinValue;
      isEventsPoolingActive := false;
      hasReportTask := false;
      cancellationRequested := false;
      notifications := [];
      emptyEvent := new KumoEvent();
    }

    /** Login, given the response to the login request and the converted port
        count read after a usable cookie. */
    method Login(answer: LoginAnswer, ports: Option<int>) returns (accepted: bool)
      modifies this
      ensures View() == LoginOf(old(View()), answer, ports).state
      ensures notifications == old(notifications) + [LoginOf(old(View()), answer, ports).note]
      ensures accepted == LoginOf(old(View()), answer, ports).accepted
    {
      match answer
      case LoginThrows =>
        notifications := notifications + [ConnectionStateChanged(false)];
        return false;
      case LoginResponse(ok, hasContent, cookie) =>
        if hasContent && ok {
          if cookie.None? {
            // reading the value of the missing header throws
            notifications := notifications + [ConnectionStateChanged(false)];
            return false;
          }
          cookieToken := cookie;
          if cookie.value == [] || Contains(cookie.value, "invalid") {
            connected := false;
            notifications := notifications + [ConnectionStateChanged(false)];
            return false;
          }
          if ports.None? {
            notifications := notifications + [ConnectionStateChanged(false)];
            return false;
          }
          numberOfPorts := ports.value;
          connected := true;
          notifications := notifications + [ConnectionStateChanged(true)];
          return true;
        }
        connected := false;
        notifications := notifications + [ConnectionStateChanged(false)];
        return false;
    }

    /** GetEvents after its request. Empty paths return the shared empty event;
        a classified batch gives a new event. None when the classification or
        the port count conversion throws. */
    method GetEvents(answer: EventsAnswer, ports: Option<int>) returns (r: Option<KumoEvent>)
      requires Valid()
      modifies this
      ensures Valid()
      ensures r.None? <==> EventsOf(old(numberOfPorts), answer, ports).None?
      ensures r.Some? ==> r.value.View() == EventsOf(old(numberOfPorts), answer, ports).value.view
      ensures r.Some? && (answer.NotOk? || answer.batch == [] || HasSignalSwitching(answer.batch)) ==> r.value == emptyEvent
      ensures r.Some? && answer.Batch? && answer.batch != [] && !HasSignalSwitching(answer.batch) ==> fresh(r.value)
      ensures View() == old(View()).(numberOfPorts := if r.Some? then EventsOf(old(numberOfPorts), answer, ports).value.numberOfPorts
                                                      else old(numberOfPorts))
      ensures notifications == old(notifications) + if r.Some? then EventsOf(old(numberOfPorts), answer, ports).value.raised else []
    {
      if answer.NotOk? {
        return Some(emptyEvent);
      }
      var batch := answer.batch;
      if |batch| == 0 {
        return Some(emptyEvent);
      }
      if HasSignalSwitching(batch) {
        if ports.None? {
          return None;
        }
        numberOfPorts := ports.value;
        notifications := notifications + [SignalSwitchingModeChanged];
        return Some(emptyEvent);
      }
      r := Categorize(batch);
    }

    /** The classification half of GetEvents for a non-empty batch without a
        mode change: the temperature and the four categories in a new event,
        or None when one of them throws. */
    method Categorize(batch: seq<EventData>) returns (r: Option<KumoEvent>)
      requires batch != [] && !HasSignalSwitching(batch)
      ensures r.None? <==> Classify(batch, numberOfPorts).None?
      ensures r.Some? ==> fresh(r.value) && Classify(batch, numberOfPorts) == Some(Changes(r.value.View()))
    {
      var tempValue := Temperature(batch);
      var sourcePortMap := GetChangedMatrix(batch);
      if sourcePortMap.None? {
        return None;
      }
      var kumoPortTextList := GetChangedText(batch);
      if kumoPortTextList.None? {
        return None;
      }
      var kumoColorList := GetChangedColor(batch, numberOfPorts);
      if kumoColorList.None? {
        return None;
      }
      var kumoLockList := GetLockedStatus(batch);
      if kumoLockList.None? {
        return None;
      }
      ghost var v := EventView(tempValue, sourcePortMap.value, Views(kumoPortTextList.value),
                               kumoColorList.value, kumoLockList.value);
      assert Classify(batch, numberOfPorts) == Some(Changes(v));
      var kE := new KumoEvent.Of(tempValue, sourcePortMap.value, kumoPortTextList.value,
                                 kumoColorList.value, kumoLockList.value);
      assert kE.View() == v;
      return Some(kE);
    }

    /** The two catch blocks of PollEvents. */
    method Catch(fault: Fault)
      modifies this
      ensures View() == AfterFault(old(View()), fault).state
      ensures notifications == old(notifications) + AfterFault(old(View()), fault).notes
    {
      match fault
      case HttpFailure(message) =>
        if Contains(message, ExpectationFailed) {
          if !connected {
            notifications := notifications + [ConnectionStateChanged(true)];
            connected := true;
          }
          return;
        }
        if connected {
          notifications := notifications + [ConnectionStateChanged(false)];
        }
        connected := false;
      case OtherFailure =>
    }

    /** Announce every non-empty category of an event, in PollEvents' order. */
    method Announce(kE: KumoEvent)
      modifies this
      ensures View() == old(View())
      ensures notifications == old(notifications) + EventNotes(old(kE.View()))
    {
      var v := kE.View();
      ghost var m: seq<Notification> := if v.portMap != [] then [MatrixChanged(v.portMap)] else [];
      ghost var t: seq<Notification> := if v.temperature > -1 then [TemperatureChanged(v.temperature)] else [];
      ghost var x: seq<Notification> := if v.texts != [] then [TextChanged(v.texts)] else [];
      ghost var c: seq<Notification> := if v.colors != [] then [ColorChanged(v.colors)] else [];
      var raised: seq<Notification> := [];
      if |v.portMap| > 0 {
        raised := raised + [MatrixChanged(v.portMap)];
      }
      assert raised == m;
      if v.temperature > -1 {
        raised := raised + [TemperatureChanged(v.temperature)];
      }
      assert raised == m + t;
      if |v.texts| > 0 {
        raised := raised + [TextChanged(v.texts)];
      }
      assert raised == m + t + x;
      if |v.colors| > 0 {
        raised := raised + [ColorChanged(v.colors)];
      }
      assert raised == m + t + x + c;
      if |v.locks| > 0 {
        raised := raised + [LockedChanged(v.locks)];
      }
      assert raised == EventNotes(v);
      notifications := notifications + raised;
    }

    /** One PollEvents call, given the replies the device gives during it. */
    method PollEvents(inp: CycleInput)
      requires Valid()
      modifies this
      ensures Valid()
      ensures View() == Cycle(old(View()), inp).state
      ensures notifications == old(notifications) + Cycle(old(View()), inp).notes
    {
      ghost var s0 := View();
      if cancellationRequested {
        assert Cycle(s0, inp) == Step(s0, []);
        assert notifications == old(notifications) + [];
        return;
      }
      if connectId == -1 {
        if inp.connectId.Fails? {
          assert Cycle(s0, inp) == AfterFault(s0, inp.connectId.fault);
          Catch(inp.connectId.fault);
          return;
        }
        connectId := inp.connectId.value;
      }
      ghost var s1 := View();
      assert s1 == if s0.connectId == -1 then s0.(connectId := inp.connectId.value) else s0;
      if inp.events.Fails? {
        assert Cycle(s0, inp) == AfterFault(s1, inp.events.fault);
        Catch(inp.events.fault);
        return;
      }
      ghost var log := notifications;
      var kE := GetEvents(inp.events.value, inp.ports);
      if kE.None? {
        assert Cycle(s0, inp) == Step(s1, []);
        assert notifications == old(notifications) + [];
        return;
      }
      ghost var f := EventsOf(s1.numberOfPorts, inp.events.value, inp.ports).value;
      assert Cycle(s0, inp) == Step(s1.(numberOfPorts := f.numberOfPorts, lastPooling := At(inp.now), connected := true),
                                    f.raised + EventNotes(f.view) + (if s1.connected then [] else [ConnectionStateChanged(true)]));
      Succeed(kE.value, inp.now);
      AppendAssociates(log, f.raised, EventNotes(f.view), if s1.connected then [] else [ConnectionStateChanged(true)]);
    }

    /** The end of a PollEvents call that fetched an event: announce it, record
        the poll instant, and report the connection when it was down. */
    method Succeed(kE: KumoEvent, now: int)
      modifies this
      ensures View() == old(View()).(lastPooling := At(now), connected := true)
      ensures notifications == old(notifications) + EventNotes(old(kE.View()))
                               + (if old(connected) then [] else [ConnectionStateChanged(true)])
    {
      Announce(kE);
      lastPooling := At(now);
      if !connected {
        notifications := notifications + [ConnectionStateChanged(true)];
      }
      connected := true;
    }

    /** ForcePolling: forget the last poll instant, then run one cycle. */
    method ForcePolling(inp: CycleInput)
      requires Valid()
      modifies this
      ensures Valid()
      ensures View() == Cycle(old(View()).(lastPooling := MinValue), inp).state
      ensures notifications == old(notifications) + Cycle(old(View()).(lastPooling := MinValue), inp).notes
    {
      lastPooling := MinValue;
      PollEvents(inp);
    }

    /** EventOn: start the background polling task unless already active. */
    method EventOn()
      modifies this
      ensures View() == EventOnOf(old(View()))
      ensures notifications == old(notifications)
    {
      if isEventsPoolingActive {
        return;
      }
      isEventsPoolingActive := true;
      if !hasReportTask || cancellationRequested {
        hasReportTask := true;
      }
    }

    /** StartPollingEvents: a fresh cancellation token source, then EventOn. */
    method StartPollingEvents()
      modifies this
      ensures View() == StartOf(old(View()))
      ensures notifications == old(notifications)
    {
      cancellationRequested := false;
      EventOn();
    }

    /** StopPollingEvents: cancel and reset, only while active and not cancelled. */
    method StopPollingEvents()
      modifies this
      ensures View() == StopOf(old(View()))
      ensures notifications == old(notifications)
    {
      if isEventsPoolingActive && !cancellationRequested {
        cancellationRequested := true;
        hasReportTask := false;
        isEventsPoolingActive := false;
        connectId := -1;
      }
    }

    /** Dispose: stop polling. */
    method Dispose()
      modifies this
      ensures View() == StopOf(old(View()))
      ensures notifications == old(notifications)
    {
      StopPollingEvents();
    }
  }

  /** A proof helper for PollEvents: regrouping appended notification lists. */
  lemma AppendAssociates<T>(a: seq<T>, b: seq<T>, c: seq<T>, d: seq<T>)
    ensures a + b + c + d == a + (b + c + d)
  {
  }
}
