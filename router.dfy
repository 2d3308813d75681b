/**
 * RouterServiceImpl: picks at most one emitter call for a closed window.
 * A one-event window is forwarded as it is; a many-event window goes by the
 * resolver's verdict. Every failure on the way (a null verdict, a missing
 * field, an emitter that throws) is caught and ends the call quietly.
 */
module Router {
  import opened Wrappers
  import opened Json
  import Analyzer

  /** What the ambiguity resolver returned, as a JSON reader sees it. */
  datatype ResolverOutput =
    | NullOutput            // resolveAmbiguity returned null
    | Malformed             // readTree threw
    | Tree(root: Json)

  /** The emitter method called, with its arguments. */
  datatype EmitterCall =
    | PublishResolved(activity: string, ambiguousJsonEvents: string)
    | PublishUnresolved(ambiguousEvents: string)
    | PublishUnambiguous(unambEvent: string)

  /**
   * resolveAmbiguityAndPublishEvent. The verdict field is rendered back to
   * JSON text and compared with "true" and "false"; on "true" the
   * activity and confidence fields are both read (a missing one is a null
   * dereference, caught) and the activity goes on as its JSON text.
   */
  function ResolveAmbiguity(output: ResolverOutput, jsonEvents: string): (calls: seq<EmitterCall>)
    ensures |calls| <= 1
    ensures !output.Tree? ==> calls == []
    ensures calls != [] ==> calls[0].PublishResolved? || calls[0].PublishUnresolved?
    ensures calls != [] ==> calls[0].PublishResolved? ==> calls[0].ambiguousJsonEvents == jsonEvents
    ensures calls != [] ==> calls[0].PublishUnresolved? ==> calls[0].ambiguousEvents == jsonEvents
  {
    match output
    case NullOutput => []
    case Malformed => []
    case Tree(root) =>
      match Get(root, "resolved_ambiguity")
      case None => []
      case Some(verdict) =>
        var resolved := Render(verdict);
        if resolved == "true" then
          match (Get(root, "activity"), Get(root, "confidence"))
          case (Some(activity), Some(_)) => [PublishResolved(Render(activity), jsonEvents)]
          case _ => []
        else if resolved == "false" then [PublishUnresolved(jsonEvents)]
        else []
  }

  /** publishUnambiguousEvent: the event text goes on unchanged, once. */
  function PublishUnambiguousEvent(jsonEvent: string): (calls: seq<EmitterCall>)
    ensures |calls| == 1 && calls[0].PublishUnambiguous? && calls[0].unambEvent == jsonEvent
  {
    [PublishUnambiguous(jsonEvent)]
  }

  /** What a window's router call turns into, given the verdict the resolver would return for it. */
  function Route(call: Analyzer.RouterCall, verdict: ResolverOutput): (calls: seq<EmitterCall>)
    ensures |calls| <= 1
    ensures call.PublishUnambiguous? ==> calls == [PublishUnambiguous(call.jsonEvent)]
    ensures call.ResolveAmbiguity? ==> forall i :: 0 <= i < |calls| ==> !calls[i].PublishUnambiguous?
  {
    match call
    case PublishUnambiguous(jsonEvent, _) => PublishUnambiguousEvent(jsonEvent)
    case ResolveAmbiguity(jsonEvents, _) => ResolveAmbiguity(verdict, jsonEvents)
  }

  /** The verdict is "resolved" exactly when the field is the JSON literal true and both other fields are present. */
  lemma ResolvedIff(output: ResolverOutput, jsonEvents: string)
    ensures (exists a :: ResolveAmbiguity(output, jsonEvents) == [PublishResolved(a, jsonEvents)]) <==>
      output.Tree? && Get(output.root, "resolved_ambiguity") == Some(JBool(true))
      && Get(output.root, "activity").Some? && Get(output.root, "confidence").Some?
    ensures (output.Tree? && Get(output.root, "resolved_ambiguity") == Some(JBool(true))
      && Get(output.root, "activity").Some? && Get(output.root, "confidence").Some?) ==>
      ResolveAmbiguity(output, jsonEvents) == [PublishResolved(Render(Get(output.root, "activity").value), jsonEvents)]
  {
    if output.Tree? {
      var root := output.root;
      match Get(root, "resolved_ambiguity")
      case None =>
      case Some(v) =>
        RenderBool(v);
        if v == JBool(true) && Get(root, "activity").Some? && Get(root, "confidence").Some? {
          assert ResolveAmbiguity(output, jsonEvents) == [PublishResolved(Render(Get(root, "activity").value), jsonEvents)];
        } else {
          assert ResolveAmbiguity(output, jsonEvents) == [] || ResolveAmbiguity(output, jsonEvents) == [PublishUnresolved(jsonEvents)];
        }
    }
  }

  /** The verdict is "unresolved" exactly when the field is the JSON literal false. */
  lemma UnresolvedIff(output: ResolverOutput, jsonEvents: string)
    ensures ResolveAmbiguity(output, jsonEvents) == [PublishUnresolved(jsonEvents)] <==>
      output.Tree? && Get(output.root, "resolved_ambiguity") == Some(JBool(false))
  {
    if output.Tree? {
      match Get(output.root, "resolved_ambiguity")
      case None =>
      case Some(v) => RenderBool(v);
    }
  }

  /** A verdict that is a string, a number, null, an array or an object, even "true" in quotes, emits nothing. */
  lemma OtherVerdictsEmitNothing(root: Json, v: Json, jsonEvents: string)
    requires Get(root, "resolved_ambiguity") == Some(v)
    requires v != JBool(true) && v != JBool(false)
    ensures ResolveAmbiguity(Tree(root), jsonEvents) == []
  {
    RenderBool(v);
  }

  /** The quoted string "true" is not the literal true. */
  lemma QuotedTrueEmitsNothing(jsonEvents: string)
    ensures ResolveAmbiguity(Tree(JObj([("resolved_ambiguity", JStr("true"))])), jsonEvents) == []
  {
    OtherVerdictsEmitNothing(JObj([("resolved_ambiguity", JStr("true"))]), JStr("true"), jsonEvents);
  }

  /** A resolved verdict whose activity is a plain string a passes a in quotes: the JSON text, not the value. */
  lemma ActivityKeepsQuotes(root: Json, a: string, jsonEvents: string)
    requires Get(root, "resolved_ambiguity") == Some(JBool(true))
    requires Get(root, "activity") == Some(JStr(a)) && IsPlain(a)
    requires Get(root, "confidence").Some?
    ensures ResolveAmbiguity(Tree(root), jsonEvents) == [PublishResolved("\"" + a + "\"", jsonEvents)]
  {
    EscapePlain(a);
  }
}
