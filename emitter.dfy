/**
 * EmitterServiceImpl: turns a window's events into the records that go out
 * as XES. Each record takes two abstract steps: `publishes(record)` says
 * whether the XES conversion and the MQTT publish succeed, `writes(record)`
 * whether the following log.xes write does. A published record is appended
 * to `published`, a written one also to `logged`. A step that throws makes
 * the publish method fail (ok is false).
 */
module Emitter {
  import opened Wrappers
  import opened Json

  // ----- the resolved record -----

  /** topClass.substring(1, topClass.length() - 1), which throws on fewer than two characters. */
  function StripEnds(s: string): (r: Option<string>)
    ensures r.Some? <==> |s| >= 2
    ensures r.Some? ==> s == [s[0]] + r.value + [s[|s| - 1]]
  {
    if |s| < 2 then None else Some(s[1..|s| - 1])
  }

  /** JsonNode.fields(): the entries of an object, none for any other node. */
  function FieldsOf(v: Json): seq<(string, Json)>
  {
    if v.JObj? then v.fields else []
  }

  /** The forEachRemaining of createResolvedEvent: every entry but "label" is set on acc, in order. */
  function CopyFields(acc: seq<(string, Json)>, fs: seq<(string, Json)>): (r: seq<(string, Json)>)
    ensures |acc| <= |r|
    ensures NoDupKeys(acc) ==> NoDupKeys(r)
    decreases |fs|
  {
    if fs == [] then acc
    else
      PutShape(acc, fs[0].0, fs[0].1);
      CopyFields(if fs[0].0 == "label" then acc else Put(acc, fs[0].0, fs[0].1), fs[1..])
  }

  /**
   * createResolvedEvent: the label is the activity without its first and
   * last characters, then the first event's other fields, then
   * ambiguous=false. It fails on a short activity and on an empty array.
   */
  function ResolvedRecord(topClass: string, elems: seq<Json>): (r: Option<seq<(string, Json)>>)
    ensures r.None? <==> |topClass| < 2 || elems == []
    ensures r.Some? ==> Lookup(r.value, "ambiguous") == Some(JBool(false))
  {
    if StripEnds(topClass).None? || elems == [] then None
    else
      var copied := CopyFields(LabelOnly(topClass), FieldsOf(elems[0]));
      PutLookup(copied, "ambiguous", JBool(false), "ambiguous");
      Some(Put(copied, "ambiguous", JBool(false)))
  }

  /** The record for a parsed events document: "events" must be an array. */
  function ResolvedFor(activity: string, eventsRoot: Option<Json>): (r: Option<seq<(string, Json)>>)
    ensures r.Some? ==> eventsRoot.Some? && Get(eventsRoot.value, "events").Some? && Get(eventsRoot.value, "events").value.JArr?
    ensures eventsRoot.Some? && Get(eventsRoot.value, "events").Some? && Get(eventsRoot.value, "events").value.JArr? ==>
      r == ResolvedRecord(activity, Get(eventsRoot.value, "events").value.elems)
  {
    match eventsRoot
    case None => None
    case Some(root) =>
      match Get(root, "events")
      case Some(JArr(elems)) => ResolvedRecord(activity, elems)
      case _ => None
  }

  lemma {:induction false} CopyKeys(acc: seq<(string, Json)>, fs: seq<(string, Json)>)
    ensures Keys(CopyFields(acc, fs)) == Keys(acc) + (Keys(fs) - {"label"})
    decreases |fs|
  {
    if fs != [] {
      var acc' := if fs[0].0 == "label" then acc else Put(acc, fs[0].0, fs[0].1);
      CopyKeys(acc', fs[1..]);
      KeysHead(fs);
      if fs[0].0 == "label" {
        assert Keys(fs) - {"label"} == Keys(fs[1..]) - {"label"};
      } else {
        assert Keys(acc') == Keys(acc) + {fs[0].0};
      }
    } else {
      assert Keys(fs) == {};
    }
  }

  lemma {:induction false} CopyLookup(acc: seq<(string, Json)>, fs: seq<(string, Json)>, k: string)
    requires NoDupKeys(fs)
    ensures k != "label" && k in Keys(fs) ==> Lookup(CopyFields(acc, fs), k) == Lookup(fs, k)
    ensures k == "label" || k !in Keys(fs) ==> Lookup(CopyFields(acc, fs), k) == Lookup(acc, k)
    decreases |fs|
  {
    if fs != [] {
      var acc' := if fs[0].0 == "label" then acc else Put(acc, fs[0].0, fs[0].1);
      assert NoDupKeys(fs[1..]) by {
        forall i, j | 0 <= i < j < |fs[1..]| ensures fs[1..][i].0 != fs[1..][j].0 {
          assert fs[1..][i] == fs[i + 1] && fs[1..][j] == fs[j + 1];
        }
      }
      assert fs == [fs[0]] + fs[1..];
      KeysCons(fs[0], fs[1..]);
      forall j | 0 <= j < |fs[1..]| ensures fs[1..][j].0 != fs[0].0 {
        assert fs[1..][j] == fs[j + 1];
      }
      assert fs[0].0 !in Keys(fs[1..]);
      CopyLookup(acc', fs[1..], k);
      if fs[0].0 != "label" {
        PutLookup(acc, fs[0].0, fs[0].1, k);
      }
      if k == fs[0].0 {
        assert Lookup(fs, k) == Some(fs[0].1);
      } else {
        assert Lookup(fs, k) == Lookup(fs[1..], k);
      }
    }
  }

  /** The entry at position 0 keeps its key through copying. */
  lemma {:induction false} CopyKeepsHead(acc: seq<(string, Json)>, fs: seq<(string, Json)>)
    requires acc != []
    ensures CopyFields(acc, fs) != [] && CopyFields(acc, fs)[0].0 == acc[0].0
    decreases |fs|
  {
    if fs != [] {
      var acc' := if fs[0].0 == "label" then acc else Put(acc, fs[0].0, fs[0].1);
      if fs[0].0 != "label" {
        PutShape(acc, fs[0].0, fs[0].1);
      }
      CopyKeepsHead(acc', fs[1..]);
    }
  }

  /** The record createResolvedEvent starts from: just the stripped label. */
  function LabelOnly(topClass: string): (acc: seq<(string, Json)>)
    requires |topClass| >= 2
    ensures Keys(acc) == {"label"} && NoDupKeys(acc)
    ensures Lookup(acc, "label") == Some(JStr(topClass[1..|topClass| - 1]))
  {
    var acc := [("label", JStr(StripEnds(topClass).value))];
    var none: seq<(string, Json)> := [];
    assert acc == [acc[0]] + none;
    KeysCons(acc[0], none);
    assert Keys(none) == {};
    acc
  }

  /** The resolved record: "label" comes first, keys are the first event's plus "label" and "ambiguous", none twice. */
  lemma ResolvedRecordShape(topClass: string, elems: seq<Json>)
    requires |topClass| >= 2 && elems != []
    ensures ResolvedRecord(topClass, elems).Some?
    ensures var r := ResolvedRecord(topClass, elems).value;
      && NoDupKeys(r)
      && r[0].0 == "label"
      && Keys(r) == {"label", "ambiguous"} + Keys(FieldsOf(elems[0]))
  {
    var acc := LabelOnly(topClass);
    var fs := FieldsOf(elems[0]);
    var c := CopyFields(acc, fs);
    CopyKeys(acc, fs);
    CopyKeepsHead(acc, fs);
    var r := Put(c, "ambiguous", JBool(false));
    assert ResolvedRecord(topClass, elems) == Some(r);
    PutShape(c, "ambiguous", JBool(false));
    assert r[0].0 == c[0].0;
  }

  /**
   * The resolved record's values: the stripped activity under "label",
   * false under "ambiguous" (overriding a copied one), and the first
   * event's value under every other key.
   */
  lemma ResolvedRecordValues(topClass: string, elems: seq<Json>, k: string)
    requires |topClass| >= 2 && elems != []
    requires NoDupKeys(FieldsOf(elems[0]))
    ensures ResolvedRecord(topClass, elems).Some?
    ensures var r := ResolvedRecord(topClass, elems).value;
      && Lookup(r, "label") == Some(JStr(topClass[1..|topClass| - 1]))
      && Lookup(r, "ambiguous") == Some(JBool(false))
      && (k != "label" && k != "ambiguous" ==> Lookup(r, k) == Lookup(FieldsOf(elems[0]), k))
  {
    var acc := LabelOnly(topClass);
    var fs := FieldsOf(elems[0]);
    var c := CopyFields(acc, fs);
    PutLookup(c, "ambiguous", JBool(false), k);
    PutLookup(c, "ambiguous", JBool(false), "label");
    CopyLookup(acc, fs, k);
    CopyLookup(acc, fs, "label");
  }

  /** Only the first event is consulted. */
  lemma ResolvedRecordFirstOnly(topClass: string, elems: seq<Json>, others: seq<Json>)
    requires elems != []
    ensures ResolvedRecord(topClass, elems) == ResolvedRecord(topClass, [elems[0]] + others)
  {
  }

  /** The record is refused for an activity of fewer than two characters and for an empty array. */
  lemma ResolvedRecordFails(topClass: string, elems: seq<Json>)
    ensures ResolvedRecord(topClass, elems).None? <==> |topClass| < 2 || elems == []
  {
  }

  // ----- the unresolved records -----

  /** put("ambiguous", true): the flag set, every other field as it was. */
  function Flag(fs: seq<(string, Json)>): (r: seq<(string, Json)>)
    ensures Lookup(r, "ambiguous") == Some(JBool(true))
    ensures forall k :: k != "ambiguous" ==> Lookup(r, k) == Lookup(fs, k)
    ensures Keys(r) == Keys(fs) + {"ambiguous"}
  {
    forall k ensures Lookup(Put(fs, "ambiguous", JBool(true)), k) == (if k == "ambiguous" then Some(JBool(true)) else Lookup(fs, k)) {
      PutLookup(fs, "ambiguous", JBool(true), k);
    }
    Put(fs, "ambiguous", JBool(true))
  }

  /** The records handleUnresolvedAmbiguity sends: each object flagged, anything else skipped, in order. */
  function FlagAll(elems: seq<Json>): (r: seq<Json>)
    ensures |r| <= |elems|
  {
    if elems == [] then []
    else (if elems[0].JObj? then [JObj(Flag(elems[0].fields))] else []) + FlagAll(elems[1..])
  }

  lemma {:induction false} FlagAllAppend(a: seq<Json>, b: seq<Json>)
    ensures FlagAll(a + b) == FlagAll(a) + FlagAll(b)
  {
    if a != [] {
      assert (a + b)[0] == a[0] && (a + b)[1..] == a[1..] + b;
      FlagAllAppend(a[1..], b);
      AppendAssoc(if a[0].JObj? then [JObj(Flag(a[0].fields))] else [], FlagAll(a[1..]), FlagAll(b));
    } else {
      assert a + b == b;
    }
  }

  /** One object per object element, in array order. */
  lemma {:induction false} FlagAllObjects(elems: seq<Json>)
    ensures forall r :: r in FlagAll(elems) ==> r.JObj? && Lookup(r.fields, "ambiguous") == Some(JBool(true))
    ensures (forall i :: 0 <= i < |elems| ==> elems[i].JObj?) ==> |FlagAll(elems)| == |elems|
  {
    if elems != [] {
      FlagAllObjects(elems[1..]);
    }
  }

  /** Both steps of one record succeed: it is converted, published and written to log.xes. */
  predicate Goes(r: Json, publishes: Json -> bool, writes: Json -> bool)
  {
    publishes(r) && writes(r)
  }

  /** The records that get through both steps before the first one whose conversion, publish or write fails. */
  function Accepted(records: seq<Json>, publishes: Json -> bool, writes: Json -> bool): (r: seq<Json>)
    ensures |r| <= |records| && r == records[..|r|]
    ensures forall i :: 0 <= i < |r| ==> Goes(r[i], publishes, writes)
    ensures |r| < |records| ==> !Goes(records[|r|], publishes, writes)
  {
    if records == [] || !Goes(records[0], publishes, writes) then []
    else
      var rest := Accepted(records[1..], publishes, writes);
      assert records[1..][..|rest|] == records[1..|rest| + 1];
      [records[0]] + rest
  }

  predicate AllAccepted(records: seq<Json>, publishes: Json -> bool, writes: Json -> bool)
  {
    forall i :: 0 <= i < |records| ==> Goes(records[i], publishes, writes)
  }

  /**
   * The records that reach MQTT: those that get through both steps, and the
   * record that stops the loop too when its publish succeeded and only its
   * log.xes write failed.
   */
  function PublishedOf(records: seq<Json>, publishes: Json -> bool, writes: Json -> bool): (r: seq<Json>)
    ensures var a := Accepted(records, publishes, writes);
      && |a| <= |r| <= |a| + 1 && |r| <= |records| && r == records[..|r|]
      && (|r| == |a| + 1 <==> |a| < |records| && publishes(records[|a|]))
  {
    var a := Accepted(records, publishes, writes);
    if |a| < |records| && publishes(records[|a|]) then records[..|a| + 1] else a
  }

  lemma FlagStep(elems: seq<Json>, i: int)
    requires 0 <= i < |elems|
    ensures FlagAll(elems[..i + 1]) == FlagAll(elems[..i]) + (if elems[i].JObj? then [JObj(Flag(elems[i].fields))] else [])
  {
    TakeSnoc(elems, i);
    FlagAllAppend(elems[..i], [elems[i]]);
    var one := [elems[i]];
    assert one[1..] == [];
  }

  lemma AllAcceptedSnoc(pre: seq<Json>, x: Json, publishes: Json -> bool, writes: Json -> bool)
    requires AllAccepted(pre, publishes, writes) && Goes(x, publishes, writes)
    ensures AllAccepted(pre + [x], publishes, writes)
  {
  }

  /** The first object whose record is refused ends the loop: the ones before it are all that went out. */
  lemma FlagStop(elems: seq<Json>, i: int, publishes: Json -> bool, writes: Json -> bool)
    requires 0 <= i < |elems| && elems[i].JObj?
    requires AllAccepted(FlagAll(elems[..i]), publishes, writes)
    requires !Goes(JObj(Flag(elems[i].fields)), publishes, writes)
    ensures Accepted(FlagAll(elems), publishes, writes) == FlagAll(elems[..i]) != FlagAll(elems)
  {
    FlagSplitAt(elems, i);
    AcceptedStops(FlagAll(elems[..i]), JObj(Flag(elems[i].fields)), FlagAll(elems[i + 1..]), publishes, writes);
  }

  /** The refused object reached MQTT exactly when its publish succeeded; nothing after it did. */
  lemma PublishedStop(elems: seq<Json>, i: int, publishes: Json -> bool, writes: Json -> bool)
    requires 0 <= i < |elems| && elems[i].JObj?
    requires AllAccepted(FlagAll(elems[..i]), publishes, writes)
    requires !Goes(JObj(Flag(elems[i].fields)), publishes, writes)
    ensures PublishedOf(FlagAll(elems), publishes, writes)
      == FlagAll(elems[..i]) + (if publishes(JObj(Flag(elems[i].fields))) then [JObj(Flag(elems[i].fields))] else [])
  {
    FlagSplitAt(elems, i);
    PublishedAt(FlagAll(elems[..i]), JObj(Flag(elems[i].fields)), FlagAll(elems[i + 1..]), publishes, writes);
  }

  /** Records offered after fully sent ones and a failing one: the failing one was published exactly when its publish succeeded. */
  lemma PublishedAt(pre: seq<Json>, x: Json, post: seq<Json>, publishes: Json -> bool, writes: Json -> bool)
    requires AllAccepted(pre, publishes, writes) && !Goes(x, publishes, writes)
    ensures PublishedOf(pre + [x] + post, publishes, writes) == pre + (if publishes(x) then [x] else [])
  {
    var all := pre + [x] + post;
    AcceptedStops(pre, x, post, publishes, writes);
    assert all[|pre|] == x;
    if publishes(x) {
      assert all[..|pre| + 1] == pre + [x];
    }
  }

  /** FlagAll of an array, cut around an object element. */
  lemma FlagSplitAt(elems: seq<Json>, i: int)
    requires 0 <= i < |elems| && elems[i].JObj?
    ensures FlagAll(elems) == FlagAll(elems[..i]) + [JObj(Flag(elems[i].fields))] + FlagAll(elems[i + 1..])
  {
    CutAround(elems, i);
    FlagAllAround(elems[..i], elems[i], elems[i + 1..]);
  }

  lemma FlagAllAround(pre: seq<Json>, e: Json, post: seq<Json>)
    requires e.JObj?
    ensures FlagAll(pre + [e] + post) == FlagAll(pre) + [JObj(Flag(e.fields))] + FlagAll(post)
  {
    FlagAllAppend(pre + [e], post);
    FlagAllAppend(pre, [e]);
    FlagOne(e);
  }

  lemma FlagOne(e: Json)
    requires e.JObj?
    ensures FlagAll([e]) == [JObj(Flag(e.fields))]
  {
    var one := [e];
    assert one[1..] == [];
  }

  lemma {:induction false} AcceptedStops(pre: seq<Json>, x: Json, post: seq<Json>, publishes: Json -> bool, writes: Json -> bool)
    requires AllAccepted(pre, publishes, writes)
    requires !Goes(x, publishes, writes)
    ensures Accepted(pre + [x] + post, publishes, writes) == pre
  {
    if pre != [] {
      assert (pre + [x] + post)[1..] == pre[1..] + [x] + post;
      AcceptedStops(pre[1..], x, post, publishes, writes);
    }
  }

  lemma {:induction false} AcceptedAll(records: seq<Json>, publishes: Json -> bool, writes: Json -> bool)
    requires AllAccepted(records, publishes, writes)
    ensures Accepted(records, publishes, writes) == records
  {
    if records != [] {
      AcceptedAll(records[1..], publishes, writes);
    }
  }

  class EmitterService {
    /** Records converted and published on MQTT, in order. */
    var published: seq<Json>
    /** Records also appended to log.xes, in order. */
    var logged: seq<Json>

    constructor ()
      ensures published == [] && logged == []
    {
      published := [];
      logged := [];
    }

    /**
     * convertJsonToXes, mqttService.publish, then the log.xes write: a
     * published record is on MQTT even when the write then fails.
     */
    method Publish(record: Json, publishes: Json -> bool, writes: Json -> bool) returns (ok: bool)
      modifies this
      ensures ok == Goes(record, publishes, writes)
      ensures published == if publishes(record) then old(published) + [record] else old(published)
      ensures logged == if ok then old(logged) + [record] else old(logged)
    {
      if !publishes(record) {
        return false;
      }
      published := published + [record];
      if !writes(record) {
        return false;
      }
      logged := logged + [record];
      ok := true;
    }

    /** publishResolvedAmbiguousEvent: one record from the first event, or a failure. */
    method PublishResolvedAmbiguousEvent(activity: string, eventsRoot: Option<Json>, publishes: Json -> bool, writes: Json -> bool)
      returns (ok: bool)
      modifies this
      ensures ok <==> ResolvedFor(activity, eventsRoot).Some? && Goes(JObj(ResolvedFor(activity, eventsRoot).value), publishes, writes)
      ensures published == if ResolvedFor(activity, eventsRoot).Some? && publishes(JObj(ResolvedFor(activity, eventsRoot).value))
        then old(published) + [JObj(ResolvedFor(activity, eventsRoot).value)] else old(published)
      ensures logged == if ok then old(logged) + [JObj(ResolvedFor(activity, eventsRoot).value)] else old(logged)
    {
      if eventsRoot.None? {
        return false;
      }
      match Get(eventsRoot.value, "events")
      case Some(JArr(elems)) =>
        var resolved := CreateResolvedEvent(activity, elems);
        if resolved.None? {
          return false;
        }
        ok := Publish(JObj(resolved.value), publishes, writes);
      case _ =>
        return false;
    }

    /** handleUnresolvedAmbiguity: flag and send each object element, stopping at the first failure. */
    method HandleUnresolvedAmbiguity(elems: seq<Json>, publishes: Json -> bool, writes: Json -> bool) returns (ok: bool)
      modifies this
      ensures logged == old(logged) + Accepted(FlagAll(elems), publishes, writes)
      ensures published == old(published) + PublishedOf(FlagAll(elems), publishes, writes)
      ensures ok <==> Accepted(FlagAll(elems), publishes, writes) == FlagAll(elems)
    {
      var i := 0;
      while i < |elems|
        invariant 0 <= i <= |elems|
        invariant published == old(published) + FlagAll(elems[..i])
        invariant logged == old(logged) + FlagAll(elems[..i])
        invariant AllAccepted(FlagAll(elems[..i]), publishes, writes)
      {
        var event := elems[i];
        FlagStep(elems, i);
        if event.JObj? {
          var flagged := JObj(Flag(event.fields));
          var sent := Publish(flagged, publishes, writes);
          if !sent {
            FlagStop(elems, i, publishes, writes);
            PublishedStop(elems, i, publishes, writes);
            AppendAssoc(old(published), FlagAll(elems[..i]), [flagged]);
            return false;
          }
          AllAcceptedSnoc(FlagAll(elems[..i]), flagged, publishes, writes);
          AppendAssoc(old(published), FlagAll(elems[..i]), [flagged]);
          AppendAssoc(old(logged), FlagAll(elems[..i]), [flagged]);
        }
        i := i + 1;
      }
      TakeAll(elems);
      AcceptedAll(FlagAll(elems), publishes, writes);
      ok := true;
    }

    /** publishUnresolvedAmbiguousEvents: "events" must be an array; its objects go out flagged. */
    method PublishUnresolvedAmbiguousEvents(eventsRoot: Option<Json>, publishes: Json -> bool, writes: Json -> bool) returns (ok: bool)
      modifies this
      ensures eventsRoot.Some? && Get(eventsRoot.value, "events").Some? && Get(eventsRoot.value, "events").value.JArr? ==>
        var all := FlagAll(Get(eventsRoot.value, "events").value.elems);
        var sent := Accepted(all, publishes, writes);
        && logged == old(logged) + sent
        && published == old(published) + PublishedOf(all, publishes, writes)
        && (ok <==> sent == all)
      ensures !(eventsRoot.Some? && Get(eventsRoot.value, "events").Some? && Get(eventsRoot.value, "events").value.JArr?) ==>
        !ok && published == old(published) && logged == old(logged)
    {
      if eventsRoot.None? {
        return false;
      }
      match Get(eventsRoot.value, "events")
      case Some(JArr(elems)) =>
        ok := HandleUnresolvedAmbiguity(elems, publishes, writes);
      case _ =>
        return false;
    }

    /** publishUnambiguousEvent: exactly the "events" sub-node goes out. */
    method PublishUnambiguousEvent(root: Option<Json>, publishes: Json -> bool, writes: Json -> bool) returns (ok: bool)
      modifies this
      ensures root.Some? && Get(root.value, "events").Some? ==>
        var events := Get(root.value, "events").value;
        && ok == Goes(events, publishes, writes)
        && published == (if publishes(events) then old(published) + [events] else old(published))
        && logged == (if ok then old(logged) + [events] else old(logged))
      ensures !(root.Some? && Get(root.value, "events").Some?) ==> !ok && published == old(published) && logged == old(logged)
    {
      if root.None? {
        return false;
      }
      var eventsNode := Get(root.value, "events");
      if eventsNode.None? {
        return false;
      }
      ok := Publish(eventsNode.value, publishes, writes);
    }
  }

  /** createResolvedEvent's loop over the first event's entries. */
  method CreateResolvedEvent(topClass: string, elems: seq<Json>) returns (r: Option<seq<(string, Json)>>)
    ensures r == ResolvedRecord(topClass, elems)
  {
    if |topClass| < 2 {
      return None;
    }
    var resolvedEvent := [("label", JStr(topClass[1..|topClass| - 1]))];
    if elems == [] {
      return None;
    }
    var fields := FieldsOf(elems[0]);
    var i := 0;
    while i < |fields|
      invariant 0 <= i <= |fields|
      invariant CopyFields(resolvedEvent, fields[i..]) == CopyFields(LabelOnly(topClass), fields)
    {
      var entry := fields[i];
      assert fields[i..][0] == entry && fields[i..][1..] == fields[i + 1..];
      if entry.0 != "label" {
        resolvedEvent := Put(resolvedEvent, entry.0, entry.1);
      }
      i := i + 1;
    }
    resolvedEvent := Put(resolvedEvent, "ambiguous", JBool(false));
    r := Some(resolvedEvent);
  }

  // ----- sequence helpers -----
  // Single steps of sequence algebra (regrouping a concatenation, taking one
  // more element of a slice). Dafny proves each of them on its own; they are
  // stated apart and called where needed so that the proofs above do not
  // depend on the solver finding these steps inside a large context.

  lemma TakeSnoc(elems: seq<Json>, i: int)
    requires 0 <= i < |elems|
    ensures elems[..i + 1] == elems[..i] + [elems[i]]
  {
  }

  lemma AppendAssoc(a: seq<Json>, b: seq<Json>, c: seq<Json>)
    ensures a + b + c == a + (b + c)
  {
  }

  lemma TakeAll(elems: seq<Json>)
    ensures elems[..|elems|] == elems
  {
  }

  lemma CutAround(elems: seq<Json>, i: int)
    requires 0 <= i < |elems|
    ensures elems == elems[..i] + [elems[i]] + elems[i + 1..]
  {
  }
}
