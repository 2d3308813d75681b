/**
 * AmbiguityAnalyzerServiceImpl: the debounce window. Events are buffered;
 * every arrival (re)arms a close timer of WindowSize ms; when the timer fires
 * the buffer is handed on as one window (a singleton or an ambiguous batch)
 * and cleared. The scheduler thread is modelled by an explicit Fire step.
 */
module Analyzer {
  import opened Wrappers
  import opened Text
  import opened Events
  import opened Json
  import opened WindowText

  /** What a closed window asks of the router. */
  datatype RouterCall =
    | PublishUnambiguous(jsonEvent: string, windowId: string)
    | ResolveAmbiguity(jsonEvents: string, windowId: string)

  /** onWindowClosed as a function of the snapshot. */
  function CallFor(snapshot: seq<ProcessEvent>): (c: RouterCall)
    requires snapshot != []
    ensures c.PublishUnambiguous? <==> |snapshot| == 1
    ensures StartsWith(c.windowId, "ID") && c.windowId[2..] == InstantText(snapshot[0].receivedAt)
  {
    if |snapshot| == 1 then PublishUnambiguous(SingleText(snapshot[0]), WindowId(snapshot[0]))
    else ResolveAmbiguity(AmbiguousText(snapshot), WindowId(snapshot[0]))
  }

  /** The tree a JSON reader builds from the text a window hands on. */
  function CallDocument(c: RouterCall): Option<Json>
  {
    match c
    case PublishUnambiguous(t, _) => DecodeWindow(t)
    case ResolveAmbiguity(t, _) => DecodeWindow(t)
  }

  /**
   * The text of a window carries exactly its events: one object for a
   * singleton, an array of one object per event, in arrival order, otherwise.
   */
  lemma CallCarriesWindow(snapshot: seq<ProcessEvent>)
    requires snapshot != [] && AllEncodable(snapshot)
    ensures CallDocument(CallFor(snapshot)) ==
      Some(WindowDoc(if |snapshot| == 1 then EventDoc(snapshot[0]) else JArr(EventDocs(snapshot))))
  {
    if |snapshot| == 1 {
      SingleTextRoundTrip(snapshot[0]);
    } else {
      AmbiguousTextRoundTrip(snapshot);
    }
  }

  /**
   * Conversely, a raw control character in any label (escapeJson leaves all
   * but \n, \r and \t as they are) makes the text one the reader refuses.
   */
  lemma CallRejectsWindow(snapshot: seq<ProcessEvent>)
    requires snapshot != [] && !AllEncodable(snapshot)
    ensures CallDocument(CallFor(snapshot)) == None
  {
    if |snapshot| == 1 {
      assert !Encodable(snapshot[0].eventLabel);
      SingleTextRejected(snapshot[0]);
    } else {
      AmbiguousTextRejected(snapshot);
    }
  }

  /** So the text a window hands on reads back exactly when every label is encodable. */
  lemma CallReadsIff(snapshot: seq<ProcessEvent>)
    requires snapshot != []
    ensures CallDocument(CallFor(snapshot)).Some? <==> AllEncodable(snapshot)
  {
    if AllEncodable(snapshot) {
      CallCarriesWindow(snapshot);
    } else {
      CallRejectsWindow(snapshot);
    }
  }

  /** onWindowClosed, handleSingleEvent and handleMultipleEvents. */
  method OnWindowClosed(records: seq<ProcessEvent>) returns (c: RouterCall)
    requires records != []
    ensures c == CallFor(records)
  {
    var windowId := "ID" + InstantText(records[0].receivedAt);
    if |records| == 1 {
      var pe := records[0];
      EscapeJsonPerChar(pe.eventLabel);
      var event := EventsOpen + (LabelOpen + EscapeJson(Some(pe.eventLabel)) + "\"" + TimestampOpen
                                 + InstantText(pe.receivedAt) + "\"" + "}");
      event := event + "}";
      c := PublishUnambiguous(event, windowId);
    } else {
      var events := BuildAmbiguousText(records);
      c := ResolveAmbiguity(events, windowId);
    }
  }

  /** The events of successive windows, concatenated. */
  function Flatten(windows: seq<seq<ProcessEvent>>): seq<ProcessEvent>
  {
    if windows == [] then [] else Flatten(windows[..|windows| - 1]) + windows[|windows| - 1]
  }

  lemma FlattenSnoc(windows: seq<seq<ProcessEvent>>, w: seq<ProcessEvent>)
    ensures Flatten(windows + [w]) == Flatten(windows) + w
  {
    assert (windows + [w])[..|windows|] == windows;
  }

  /** Every window handed on is non-empty, and each gave exactly its router call. */
  ghost predicate WindowsLogged(ws: seq<seq<ProcessEvent>>, cs: seq<RouterCall>)
  {
    && |cs| == |ws|
    && (forall i :: 0 <= i < |ws| ==> ws[i] != [])
    && (forall i {:trigger cs[i]} :: 0 <= i < |ws| ==> cs[i] == CallFor(ws[i]))
  }

  lemma LogStep(ws: seq<seq<ProcessEvent>>, cs: seq<RouterCall>, w: seq<ProcessEvent>, c: RouterCall)
    requires WindowsLogged(ws, cs)
    requires w != [] && c == CallFor(w)
    ensures WindowsLogged(ws + [w], cs + [c])
  {
    var ws', cs' := ws + [w], cs + [c];
    forall i | 0 <= i < |ws'| ensures ws'[i] != [] {
      if i < |ws| {
        assert ws'[i] == ws[i];
      }
    }
    forall i | 0 <= i < |ws'| ensures cs'[i] == CallFor(ws'[i]) {
      if i < |ws| {
        assert ws'[i] == ws[i] && cs'[i] == cs[i];
      }
    }
  }

  class AmbiguityAnalyzer {
    /** Events of the window that is still open, in arrival order. */
    var buffer: seq<ProcessEvent>
    /** Deadline of the one scheduled close that has neither run nor been cancelled. */
    var pendingDeadline: Option<int>
    /** pendingClose refers to that scheduled close (it is non-null and not done). */
    var pendingLive: bool
    var schedulerShutdown: bool
    /** The router calls made so far, in order. */
    var calls: seq<RouterCall>

    /** The windows handed on so far, every cached event, and the arrival time of the last accepted one. */
    ghost var dispatched: seq<seq<ProcessEvent>>
    ghost var arrivals: seq<ProcessEvent>
    ghost var lastArrival: int

    /** Every window handed on is non-empty, and each gave exactly its router call. */
    ghost predicate Logged()
      reads this
    {
      WindowsLogged(dispatched, calls)
    }

    /** Conservation: the windows handed on, then the open one, are the arrivals. */
    ghost predicate Conserved()
      reads this
    {
      Flatten(dispatched) + buffer == arrivals
    }

    ghost predicate Valid()
      reads this
    {
      && Logged()
      && Conserved()
      && (pendingLive ==> pendingDeadline.Some?)
      && (!schedulerShutdown ==>
            (pendingDeadline.Some? <==> buffer != []) &&
            (pendingDeadline.Some? ==> pendingLive && pendingDeadline.value == lastArrival + WindowSize))
    }

    constructor ()
      ensures Valid()
      ensures buffer == [] && pendingDeadline == None && !schedulerShutdown && calls == [] && arrivals == []
    {
      buffer := [];
      pendingDeadline := None;
      pendingLive := false;
      schedulerShutdown := false;
      calls := [];
      dispatched := [];
      arrivals := [];
      lastArrival := 0;
    }

    /**
     * cacheProcessEvent at time now: buffer the event, cancel the pending
     * close and schedule a new one WindowSize ms later. After shutdown the
     * event is still buffered but scheduling is refused (accepted is false).
     */
    method Cache(msg: ProcessEvent, now: int) returns (accepted: bool)
      requires Valid()
      modifies this
      ensures Valid()
      ensures buffer == old(buffer) + [msg] && arrivals == old(arrivals) + [msg]
      ensures accepted <==> !old(schedulerShutdown)
      ensures accepted ==> pendingDeadline == Some(now + WindowSize) && pendingLive && lastArrival == now
      ensures !accepted ==>
        pendingDeadline == (if old(pendingLive) then None else old(pendingDeadline)) && !pendingLive
        && lastArrival == old(lastArrival)
      ensures calls == old(calls) && dispatched == old(dispatched) && schedulerShutdown == old(schedulerShutdown)
    {
      buffer := buffer + [msg];
      arrivals := arrivals + [msg];
      if pendingLive {
        pendingDeadline := None;
        pendingLive := false;
      }
      if schedulerShutdown {
        accepted := false;
      } else {
        pendingDeadline := Some(now + WindowSize);
        pendingLive := true;
        lastArrival := now;
        accepted := true;
      }
    }

    /** closeWindowSafely: hand the buffered events on as one window, if there are any. */
    method CloseWindowSafely()
      requires Valid()
      modifies this
      ensures buffer == []
      ensures old(buffer) == [] ==> calls == old(calls) && dispatched == old(dispatched) && pendingLive == old(pendingLive)
      ensures old(buffer) != [] ==>
        calls == old(calls) + [CallFor(old(buffer))] && dispatched == old(dispatched) + [old(buffer)] && !pendingLive
      ensures arrivals == old(arrivals) && pendingDeadline == old(pendingDeadline) && lastArrival == old(lastArrival)
      ensures schedulerShutdown == old(schedulerShutdown)
      ensures Logged() && Conserved()
    {
      if buffer == [] {
        return;
      }
      var snapshot := buffer;
      var c := OnWindowClosed(snapshot);
      buffer := [];
      pendingLive := false;
      FlattenSnoc(dispatched, snapshot);
      LogStep(dispatched, calls, snapshot, c);
      dispatched := dispatched + [snapshot];
      calls := calls + [c];
    }

    /**
     * The scheduled close runs at time now, no earlier than its deadline.
     * When it hands on a window before shutdown, no event arrived in the
     * WindowSize ms before now.
     */
    method Fire(now: int)
      requires Valid()
      requires pendingDeadline.Some? && pendingDeadline.value <= now
      modifies this
      ensures Valid()
      ensures buffer == [] && pendingDeadline == None && !pendingLive
      ensures old(buffer) == [] ==> calls == old(calls) && dispatched == old(dispatched)
      ensures old(buffer) != [] ==> calls == old(calls) + [CallFor(old(buffer))] && dispatched == old(dispatched) + [old(buffer)]
      ensures !old(schedulerShutdown) ==> old(buffer) != [] && now >= old(lastArrival) + WindowSize
      ensures arrivals == old(arrivals) && schedulerShutdown == old(schedulerShutdown)
    {
      CloseWindowSafely();
      pendingDeadline := None;
      pendingLive := false;
    }

    /** shutdown: flush the open window, then stop the scheduler (a close already scheduled still runs). */
    method Shutdown()
      requires Valid()
      modifies this
      ensures Valid()
      ensures buffer == [] && schedulerShutdown && pendingDeadline == old(pendingDeadline)
      ensures old(buffer) == [] ==> calls == old(calls) && dispatched == old(dispatched)
      ensures old(buffer) != [] ==> calls == old(calls) + [CallFor(old(buffer))] && dispatched == old(dispatched) + [old(buffer)]
      ensures arrivals == old(arrivals)
    {
      CloseWindowSafely();
      schedulerShutdown := true;
    }
  }

  /**
   * Reference definition of the debounce: arrivals split wherever two
   * consecutive ones are at least WindowSize ms apart.
   */
  function Split(es: seq<ProcessEvent>): (r: seq<seq<ProcessEvent>>)
    ensures es != [] ==> r != []
    ensures forall i :: 0 <= i < |r| ==> r[i] != []
  {
    if es == [] then []
    else if |es| == 1 then [es]
    else
      var e := es[|es| - 1];
      var p := Split(es[..|es| - 1]);
      if e.receivedAt - es[|es| - 2].receivedAt >= WindowSize then p + [[e]]
      else p[..|p| - 1] + [p[|p| - 1] + [e]]
  }

  /** A new window holding one event adds that event to the flattened log. */
  lemma FlattenNewWindow(p: seq<seq<ProcessEvent>>, e: ProcessEvent, pre: seq<ProcessEvent>)
    requires Flatten(p) == pre
    ensures Flatten(p + [[e]]) == pre + [e]
  {
    FlattenSnoc(p, [e]);
  }

  /** An event joining the last window adds that event to the flattened log. */
  lemma FlattenJoinLast(q: seq<seq<ProcessEvent>>, last: seq<ProcessEvent>, e: ProcessEvent, pre: seq<ProcessEvent>)
    requires Flatten(q + [last]) == pre
    ensures Flatten(q + [last + [e]]) == pre + [e]
  {
    FlattenSnoc(q, last);
    FlattenSnoc(q, last + [e]);
    AppendAssoc(Flatten(q), last, [e]);
  }

  /** The windows of Split hold every arrival exactly once, in order. */
  lemma {:induction false} SplitConserves(es: seq<ProcessEvent>)
    ensures Flatten(Split(es)) == es
  {
    if |es| == 1 {
      FlattenNewWindow([], es[0], []);
      assert [es[0]] == es;
    } else if |es| > 1 {
      var init, e := es[..|es| - 1], es[|es| - 1];
      assert init + [e] == es;
      SplitConserves(init);
      SplitConservesStep(init, e);
    }
  }

  /** One arrival more keeps Split conserving. */
  lemma SplitConservesStep(init: seq<ProcessEvent>, e: ProcessEvent)
    requires init != [] && Flatten(Split(init)) == init
    ensures Flatten(Split(init + [e])) == init + [e]
  {
    SplitStep(init, e);
    var p := Split(init);
    if e.receivedAt - init[|init| - 1].receivedAt >= WindowSize {
      FlattenNewWindow(p, e, init);
    } else {
      assert p == p[..|p| - 1] + [p[|p| - 1]];
      FlattenJoinLast(p[..|p| - 1], p[|p| - 1], e, init);
    }
  }

  /** Split's step: a new arrival opens a window exactly when it comes WindowSize ms or more after the last one. */
  lemma SplitStep(es: seq<ProcessEvent>, e: ProcessEvent)
    requires es != []
    ensures e.receivedAt - es[|es| - 1].receivedAt >= WindowSize ==> Split(es + [e]) == Split(es) + [[e]]
    ensures e.receivedAt - es[|es| - 1].receivedAt < WindowSize ==>
      Split(es + [e]) == Split(es)[..|Split(es)| - 1] + [Split(es)[|Split(es)| - 1] + [e]]
  {
    var es' := es + [e];
    assert es'[..|es'| - 1] == es && es'[|es'| - 1] == e && es'[|es'| - 2] == es[|es| - 1];
  }

  lemma IdealStep(es: seq<ProcessEvent>, e: ProcessEvent, before: seq<seq<ProcessEvent>>, open: seq<ProcessEvent>,
                  fired: bool, after: seq<seq<ProcessEvent>>, buffer: seq<ProcessEvent>)
    requires es != [] && open != [] && before + [open] == Split(es)
    requires fired <==> e.receivedAt - es[|es| - 1].receivedAt >= WindowSize
    requires fired ==> after == before + [open] && buffer == [e]
    requires !fired ==> after == before && buffer == open + [e]
    ensures after + [buffer] == Split(es + [e])
  {
    SplitStep(es, e);
    assert (before + [open])[..|before|] == before;
  }

  /** One arrival under an ideal scheduler: the pending close runs first if it is due by then. */
  method IdealArrival(a: AmbiguityAnalyzer, e: ProcessEvent, ghost es: seq<ProcessEvent>)
    requires a.Valid() && !a.schedulerShutdown
    requires es == [] ==> a.dispatched == [] && a.buffer == []
    requires es != [] ==> a.buffer != [] && a.dispatched + [a.buffer] == Split(es)
                          && a.lastArrival == es[|es| - 1].receivedAt
    modifies a
    ensures a.Valid() && !a.schedulerShutdown
    ensures a.buffer != [] && a.dispatched + [a.buffer] == Split(es + [e]) && a.lastArrival == e.receivedAt
  {
    ghost var before := a.dispatched;
    ghost var open := a.buffer;
    ghost var fired := false;
    if a.pendingDeadline.Some? && a.pendingDeadline.value <= e.receivedAt {
      a.Fire(a.pendingDeadline.value);
      fired := true;
    }
    var _ := a.Cache(e, e.receivedAt);
    if es != [] {
      IdealStep(es, e, before, open, fired, a.dispatched, a.buffer);
    } else {
      assert es + [e] == [e];
    }
  }

  /**
   * An ideal scheduler: before each arrival the pending close fires if it is
   * due, and at the end the last one fires. The router calls made are then
   * exactly one per window of Split, in order.
   */
  method RunIdealSchedule(es: seq<ProcessEvent>) returns (calls: seq<RouterCall>)
    ensures |calls| == |Split(es)|
    ensures forall i :: 0 <= i < |calls| ==> calls[i] == CallFor(Split(es)[i])
  {
    var a := new AmbiguityAnalyzer();
    for k := 0 to |es|
      invariant a.Valid() && !a.schedulerShutdown
      invariant k == 0 ==> a.dispatched == [] && a.buffer == []
      invariant k > 0 ==> a.buffer != [] && a.dispatched + [a.buffer] == Split(es[..k])
                          && a.lastArrival == es[k - 1].receivedAt
    {
      assert es[..k + 1] == es[..k] + [es[k]];
      IdealArrival(a, es[k], es[..k]);
    }
    assert es[..|es|] == es;
    if a.pendingDeadline.Some? {
      a.Fire(a.pendingDeadline.value);
    }
    ghost var ws := a.dispatched;
    assert ws == Split(es);
    assert a.Logged();
    calls := a.calls;
    assert |calls| == |ws| && forall i :: 0 <= i < |calls| ==> calls[i] == CallFor(ws[i]);
  }

  // ----- sequence helpers -----
  // Single steps of sequence algebra (regrouping a concatenation, taking one
  // more element of a slice). Dafny proves each of them on its own; they are
  // stated apart and called where needed so that the proofs above do not
  // depend on the solver finding these steps inside a large context.

  lemma AppendAssoc(a: seq<ProcessEvent>, b: seq<ProcessEvent>, c: seq<ProcessEvent>)
    ensures a + (b + c) == a + b + c
  {
  }
}
