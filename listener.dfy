/**
 * MqttListenerServiceImpl: the MQTT callback in front of the analyzer. It
 * keeps only the messages whose payload starts with the completion
 * transition prefix, names the event after the last level of the topic,
 * and caches it with the message's QoS and the arrival time.
 */
module Listener {
  import opened Wrappers
  import opened Text
  import opened Events
  import Analyzer
  import WindowText

  /** The payload prefix of a lifecycle transition to "complete". */
  const ExpectedPrefix := "{\"event\":{\"lifecycle:transition\":\"complete\""

  /** String.lastIndexOf: the last position of c in s, or -1. */
  function LastIndexOf(s: string, c: char): (k: int)
    ensures -1 <= k < |s|
    ensures k >= 0 ==> s[k] == c
    ensures forall j :: k < j < |s| ==> s[j] != c
  {
    if s == [] then -1
    else if s[|s| - 1] == c then |s| - 1
    else LastIndexOf(s[..|s| - 1], c)
  }

  /** The name of an event: the topic after its last '/', or the whole topic without one. */
  function TopicLabel(topic: string): (name: string)
    ensures forall i :: 0 <= i < |name| ==> name[i] != '/'
    ensures (forall i :: 0 <= i < |topic| ==> topic[i] != '/') ==> name == topic
    ensures |name| <= |topic| && name == topic[|topic| - |name|..]
    ensures |name| < |topic| ==> topic[|topic| - |name| - 1] == '/'
  {
    var lastSlash := LastIndexOf(topic, '/');
    if lastSlash >= 0 then topic[lastSlash + 1..] else topic
  }

  /**
   * The topic levels of section 4.7 of MQTT 3.1.1: the topic cut at every
   * '/', empty levels included. A '/' ends a level and opens an empty one;
   * any other character extends the last level.
   */
  function Levels(topic: string): (r: seq<string>)
    ensures r != []
    ensures forall k :: 0 <= k < |r| ==> '/' !in r[k]
  {
    if topic == [] then [""]
    else
      var init := Levels(topic[..|topic| - 1]);
      var c := topic[|topic| - 1];
      if c == '/' then init + [""]
      else init[..|init| - 1] + [init[|init| - 1] + [c]]
  }

  /** The name of a topic with one more character: "" after a '/', else the name grows by it. */
  lemma LabelSnoc(topic: string)
    requires topic != []
    ensures var c := topic[|topic| - 1];
      TopicLabel(topic) == if c == '/' then [] else TopicLabel(topic[..|topic| - 1]) + [c]
  {
    var init := topic[..|topic| - 1];
    if topic[|topic| - 1] != '/' {
      var k := LastIndexOf(init, '/');
      assert LastIndexOf(topic, '/') == k;
      SnocSlice(topic, k);
    }
  }

  /** The last level of a topic with one more character: "" after a '/', else the last level grows by it. */
  lemma LastLevelSnoc(topic: string)
    requires topic != []
    ensures var c := topic[|topic| - 1];
      var lv := Levels(topic[..|topic| - 1]);
      Levels(topic)[|Levels(topic)| - 1] == if c == '/' then [] else lv[|lv| - 1] + [c]
  {
  }

  /** The name is the last topic level. */
  lemma {:induction false} LabelIsLastLevel(topic: string)
    ensures TopicLabel(topic) == Levels(topic)[|Levels(topic)| - 1]
  {
    if topic != [] {
      LabelIsLastLevel(topic[..|topic| - 1]);
      LabelSnoc(topic);
      LastLevelSnoc(topic);
    }
  }

  /** A topic without '/' is one level. */
  lemma {:induction false} LevelsNoSlash(topic: string)
    requires forall i :: 0 <= i < |topic| ==> topic[i] != '/'
    ensures Levels(topic) == [topic]
  {
    if topic != [] {
      var init := topic[..|topic| - 1];
      LevelsNoSlash(init);
      assert topic == init + [topic[|topic| - 1]];
    }
  }

  /**
   * messageArrived, as a value: the event to cache, if the payload is a
   * completed transition; the payload and QoS go on unchanged.
   */
  function Detect(topic: string, payload: string, qos: int, now: int): (r: Option<ProcessEvent>)
    ensures r.Some? <==> StartsWith(payload, ExpectedPrefix)
    ensures r.Some? ==> r.value.payload == payload && r.value.qos == qos && r.value.receivedAt == now
    ensures r.Some? ==> r.value.eventLabel == TopicLabel(topic)
  {
    if StartsWith(payload, ExpectedPrefix) then Some(ProcessEvent(TopicLabel(topic), payload, qos, now)) else None
  }

  class MqttListener {
    /** The analyzer the detected events go to. */
    const analyzer: Analyzer.AmbiguityAnalyzer
    /** The subscription from the MQTT properties. */
    const topic: string
    const qos: int
    /** The AtomicBoolean started. */
    var started: bool
    /** How often setCallback was called, whether the client is connected, and the subscriptions made. */
    var callbacksSet: nat
    var connected: bool
    var subscriptions: seq<(string, int)>

    /** start does its work at most once: one callback, at most one subscription, and only once started. */
    ghost predicate OnceOnly()
      reads this
    {
      && callbacksSet == (if started then 1 else 0)
      && |subscriptions| <= callbacksSet
      && (subscriptions != [] ==> connected && subscriptions == [(topic, qos)])
    }

    constructor (analyzer: Analyzer.AmbiguityAnalyzer, topic: string, qos: int, connected: bool)
      ensures this.analyzer == analyzer && this.topic == topic && this.qos == qos && this.connected == connected
      ensures !started && callbacksSet == 0 && subscriptions == []
      ensures OnceOnly()
    {
      this.analyzer := analyzer;
      this.topic := topic;
      this.qos := qos;
      this.connected := connected;
      started := false;
      callbacksSet := 0;
      subscriptions := [];
    }

    /**
     * start: the first call flips started, sets the callback, connects when
     * not connected (connects says whether that succeeds) and subscribes.
     * A failed connect throws (ok is false) and still leaves started set,
     * so no later start tries again. Later calls do nothing.
     */
    method Start(connects: bool) returns (ok: bool)
      requires OnceOnly()
      modifies this
      ensures OnceOnly()
      ensures old(started) ==>
        (ok && started && callbacksSet == old(callbacksSet)
         && connected == old(connected) && subscriptions == old(subscriptions))
      ensures !old(started) ==>
        (started && callbacksSet == 1
         && (ok <==> old(connected) || connects)
         && connected == (old(connected) || connects)
         && subscriptions == (if ok then [(topic, qos)] else []))
    {
      if started {
        return true;
      }
      started := true;
      callbacksSet := callbacksSet + 1;
      if !connected {
        if !connects {
          return false;
        }
        connected := true;
      }
      subscriptions := subscriptions + [(topic, qos)];
      ok := true;
    }

    /**
     * messageArrived at time now: a completed transition is cached as one
     * event; any other payload leaves the analyzer as it was. After the
     * analyzer's shutdown, scheduling its close throws and nothing catches
     * it on the way back to the MQTT client: ok is false exactly then.
     */
    method MessageArrived(topicName: string, payload: string, messageQos: int, now: int) returns (ok: bool)
      requires analyzer.Valid()
      modifies analyzer
      ensures analyzer.Valid()
      ensures ok <==> Detect(topicName, payload, messageQos, now).None? || !old(analyzer.schedulerShutdown)
      ensures var d := Detect(topicName, payload, messageQos, now);
        && (d.None? ==>
              && analyzer.buffer == old(analyzer.buffer) && analyzer.arrivals == old(analyzer.arrivals)
              && analyzer.pendingDeadline == old(analyzer.pendingDeadline)
              && analyzer.pendingLive == old(analyzer.pendingLive)
              && analyzer.lastArrival == old(analyzer.lastArrival))
        && (d.Some? ==> analyzer.buffer == old(analyzer.buffer) + [d.value] && analyzer.arrivals == old(analyzer.arrivals) + [d.value])
        && (d.Some? && !old(analyzer.schedulerShutdown) ==>
              analyzer.pendingDeadline == Some(now + WindowText.WindowSize) && analyzer.pendingLive && analyzer.lastArrival == now)
        && (d.Some? && old(analyzer.schedulerShutdown) ==>
              && analyzer.pendingDeadline == (if old(analyzer.pendingLive) then None else old(analyzer.pendingDeadline))
              && !analyzer.pendingLive && analyzer.lastArrival == old(analyzer.lastArrival))
      ensures analyzer.calls == old(analyzer.calls) && analyzer.dispatched == old(analyzer.dispatched)
      ensures analyzer.schedulerShutdown == old(analyzer.schedulerShutdown)
    {
      if StartsWith(payload, ExpectedPrefix) {
        var lastSlash := LastIndexOf(topicName, '/');
        var processEvent := if lastSlash >= 0 then topicName[lastSlash + 1..] else topicName;
        ok := analyzer.Cache(ProcessEvent(processEvent, payload, messageQos, now), now);
      } else {
        ok := true;
      }
    }
  }

  // ----- sequence helpers -----
  // Single steps of sequence algebra (regrouping a concatenation, taking one
  // more element of a slice). Dafny proves each of them on its own; they are
  // stated apart and called where needed so that the proofs above do not
  // depend on the solver finding these steps inside a large context.

  lemma SnocSlice(s: string, k: int)
    requires s != [] && -1 <= k < |s| - 1
    ensures s[k + 1..] == s[..|s| - 1][k + 1..] + [s[|s| - 1]]
  {
  }
}
