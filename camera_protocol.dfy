/**
 * The line protocol between camera.py and CameraServiceImpl. The script
 * answers each command with one line on standard output; its error log
 * line goes to standard error, which the Java side reads from the same
 * pipe (the process is started with its error stream redirected). Both
 * print with a trailing newline, and BufferedReader.readLine splits the
 * pipe back into lines.
 */
module CameraProtocol {
  import opened Text
  import S = CameraScript
  import C = CameraClient

  predicate IsBreak(c: char)
  {
    c == '\n' || c == '\r'
  }

  /** A line that print writes as one line: no line terminator inside. */
  predicate NoBreak(line: string)
  {
    forall i :: 0 <= i < |line| ==> !IsBreak(line[i])
  }

  /** The characters written by printing each line (print and the log handler both end lines with "\n"). */
  function Printed(lines: seq<string>): (t: string)
    ensures |t| >= |lines|
    ensures t == [] <==> lines == []
    ensures lines != [] ==> t[|t| - 1] == '\n'
  {
    if lines == [] then [] else lines[0] + "\n" + Printed(lines[1..])
  }

  /** Where the first line of s ends: its first line terminator, or the end of s. */
  function LineEnd(s: string): (k: nat)
    ensures k <= |s|
    ensures forall i :: 0 <= i < k ==> !IsBreak(s[i])
    ensures k < |s| ==> IsBreak(s[k])
  {
    if s == [] || IsBreak(s[0]) then 0 else 1 + LineEnd(s[1..])
  }

  /**
   * The lines BufferedReader.readLine returns until it returns null: a line
   * ends at "\n", "\r" or "\r\n", and a last line without a terminator is
   * returned as well.
   */
  function ReadLines(s: string): (r: seq<string>)
    ensures r == [] <==> s == []
    ensures forall k :: 0 <= k < |r| ==> NoBreak(r[k])
    decreases |s|
  {
    if s == [] then []
    else
      var k := LineEnd(s);
      if k == |s| then [s]
      else
        var next := if s[k] == '\r' && k + 1 < |s| && s[k + 1] == '\n' then k + 2 else k + 1;
        [s[..k]] + ReadLines(s[next..])
  }

  lemma {:induction false} LineEndAfter(line: string, rest: string)
    requires NoBreak(line)
    ensures LineEnd(line + "\n" + rest) == |line|
  {
    if line != [] {
      assert (line + "\n" + rest)[1..] == line[1..] + "\n" + rest;
      LineEndAfter(line[1..], rest);
    }
  }

  /** Reading back what was printed gives the printed lines, when none has a terminator inside. */
  lemma {:induction false} ReadPrinted(lines: seq<string>)
    requires forall k :: 0 <= k < |lines| ==> NoBreak(lines[k])
    ensures ReadLines(Printed(lines)) == lines
  {
    if lines != [] {
      var s := Printed(lines);
      LineEndAfter(lines[0], Printed(lines[1..]));
      assert s[..|lines[0]|] == lines[0];
      assert s[|lines[0]|] == '\n';
      assert s[|lines[0]| + 1..] == Printed(lines[1..]);
      ReadPrinted(lines[1..]);
      assert [lines[0]] + lines[1..] == lines;
    }
  }

  lemma {:induction false} PrintedAppend(a: seq<string>, b: seq<string>)
    ensures Printed(a + b) == Printed(a) + Printed(b)
  {
    if a == [] {
      assert a + b == b;
    } else {
      assert (a + b)[1..] == a[1..] + b;
      PrintedAppend(a[1..], b);
    }
  }

  /**
   * The answer line of handle_commands parses back in runPythonCommand: a
   * success gives the payload ("" for an empty payload or the exit marker),
   * a failure throws with the payload in the message, and the lines after
   * the answer stay unread.
   */
  lemma AnswerRoundTrip(command: string, success: bool, payload: string, rest: seq<string>)
    ensures C.Respond(command, [S.ResponseLine(success, payload)] + rest) == C.Reply(
      if !success then C.Threw(C.CommandFailed(C.FailedMessage(command, payload)))
      else if payload == [] || payload == S.ExitPayload then C.Returned("")
      else C.Returned(payload),
      rest, [])
  {
    var line := S.ResponseLine(success, payload);
    C.ClassifyCases(command, line);
    C.RespondHead(command, [line] + rest);
    assert ([line] + rest)[1..] == rest;
    if success && payload != [] && payload != S.ExitPayload {
      assert line[3..] == payload;
    }
  }

  /** The error log line comes first on the pipe and decides: the message is the logged one after "root:". */
  lemma LogLineDecides(command: string, message: string, rest: seq<string>)
    ensures C.Respond(command, [S.LogLine(message)] + rest)
      == C.Reply(C.Threw(C.CommandFailed(C.FailedMessage(command, "root:" + message))), rest, [])
  {
    var line := S.LogLine(message);
    assert StartsWith(line, "ERROR:") && line[6..] == "root:" + message;
    assert line[..2] == "ER";
    C.ClassifyCases(command, line);
    C.RespondHead(command, [line] + rest);
    assert ([line] + rest)[1..] == rest;
  }

  lemma LoggedIsPayload(open: bool, command: string, dev: S.Device)
    ensures var s := S.Execute(open, command, dev);
      && (s.logged == [] || s.logged == [S.LogLine(s.payload)])
      && (s.logged != [] ==> !s.success)
  {
    PerformLogged(open, S.Dispatch(command), dev);
  }

  lemma PerformLogged(open: bool, c: S.Command, dev: S.Device)
    ensures var s := S.Perform(open, c, dev);
      && (s.logged == [] || s.logged == [S.LogLine(s.payload)])
      && (s.logged != [] ==> !s.success)
  {
  }

  /** handle_commands on one command writes its log lines, then its answer line. */
  lemma StreamOfOne(open: bool, command: string, dev: S.Device)
    ensures var s := S.Execute(open, command, dev);
      S.HandleFrom(open, [command], _ => dev, 0).stream == s.logged + [S.ResponseLine(s.success, s.payload)]
  {
    var env: int -> S.Device := _ => dev;
    var s := S.Execute(open, command, dev);
    S.HandleUnfold(open, [command], env, 0);
    if s.success && s.payload != S.ExitPayload {
      assert S.HandleFrom(s.open, [command], env, 1) == S.Run(s.open, [], [], 0);
    }
  }

  /** A payload without a line break gives answer and log lines without one. */
  lemma LinesNoBreak(success: bool, payload: string)
    requires NoBreak(payload)
    ensures NoBreak(S.ResponseLine(success, payload)) && NoBreak(S.LogLine(payload))
  {
    var line := S.ResponseLine(success, payload);
    assert S.LogLine(payload) == "ERROR:root:" + payload;
    if success && payload != [] && payload != S.ExitPayload {
      assert line == "OK:" + payload;
    } else if success {
      assert line == "OK";
    } else {
      assert line == "ERROR:" + payload;
    }
  }

  lemma AllNoBreak(a: seq<string>, b: seq<string>)
    requires forall k :: 0 <= k < |a| ==> NoBreak(a[k])
    requires forall k :: 0 <= k < |b| ==> NoBreak(b[k])
    ensures forall k :: 0 <= k < |a + b| ==> NoBreak((a + b)[k])
  {
    forall k | 0 <= k < |a + b| ensures NoBreak((a + b)[k]) {
      if k >= |a| {
        assert (a + b)[k] == b[k - |a|];
      }
    }
  }

  /**
   * The same for any step whose log is empty or is the payload's log line,
   * and which logs only on failure.
   */
  lemma StepRoundTrip(command: string, s: S.Step, later: seq<string>)
    requires NoBreak(s.payload)
    requires forall k :: 0 <= k < |later| ==> NoBreak(later[k])
    requires s.logged == [] || s.logged == [S.LogLine(s.payload)]
    requires s.logged != [] ==> !s.success
    ensures var line := S.ResponseLine(s.success, s.payload);
      var reply := C.Respond(command, ReadLines(Printed(s.logged + [line] + later)));
      && (s.success ==> reply == C.Reply(C.Returned(if s.payload == S.ExitPayload then "" else s.payload), later, []))
      && (!s.success && s.logged == [] ==> reply == C.Reply(C.Threw(C.CommandFailed(C.FailedMessage(command, s.payload))), later, []))
      && (!s.success && s.logged != [] ==>
            reply == C.Reply(C.Threw(C.CommandFailed(C.FailedMessage(command, "root:" + s.payload))), [line] + later, []))
  {
    var line := S.ResponseLine(s.success, s.payload);
    LinesNoBreak(s.success, s.payload);
    var stream := s.logged + [line];
    AllNoBreak(stream, later);
    ReadPrinted(stream + later);
    if s.logged == [] {
      assert stream + later == [line] + later;
      AnswerRoundTrip(command, s.success, s.payload, later);
    } else {
      assert stream + later == [S.LogLine(s.payload)] + ([line] + later);
      LogLineDecides(command, s.payload, [line] + later);
    }
  }

  /**
   * One command of the interactive session, end to end: the script runs it
   * with handle_commands, the pipe carries its error log and answer lines,
   * and the Java reader turns them into a result.
   * - a success returns the payload;
   * - a failure without a log line (an unknown command) throws with the payload;
   * - a failure with a log line throws with "root:" and the payload, and
   *   leaves its answer line unread ahead of later output.
   */
  lemma CommandRoundTrip(open: bool, command: string, dev: S.Device, later: seq<string>)
    requires NoBreak(S.Execute(open, command, dev).payload)
    requires forall k :: 0 <= k < |later| ==> NoBreak(later[k])
    ensures var s := S.Execute(open, command, dev);
      var r := S.HandleFrom(open, [command], _ => dev, 0);
      var reply := C.Respond(command, ReadLines(Printed(r.stream + later)));
      && (s.success ==> reply == C.Reply(C.Returned(if s.payload == S.ExitPayload then "" else s.payload), later, []))
      && (!s.success && s.logged == [] ==> reply == C.Reply(C.Threw(C.CommandFailed(C.FailedMessage(command, s.payload))), later, []))
      && (!s.success && s.logged != [] ==>
            reply == C.Reply(C.Threw(C.CommandFailed(C.FailedMessage(command, "root:" + s.payload))),
                             [S.ResponseLine(false, s.payload)] + later, []))
  {
    StreamOfOne(open, command, dev);
    LoggedIsPayload(open, command, dev);
    StepRoundTrip(command, S.Execute(open, command, dev), later);
  }

  /**
   * A path with a line break in it comes back cut at the break: the command
   * returns the part before it, and the part after it is left for the next
   * command to read.
   */
  lemma BrokenPayload(command: string, a: string, b: string)
    requires NoBreak(a) && NoBreak(b)
    ensures ReadLines(Printed([S.ResponseLine(true, a + "\n" + b)])) == ["OK:" + a, b]
    ensures C.Respond(command, ["OK:" + a, b]) == C.Reply(C.Returned(a), [b], [])
  {
    BrokenLine(a, b);
    assert NoBreak("OK:" + a);
    ReadTwo("OK:" + a, b);
    OkFirst(command, a, b);
  }

  /** The answer line for a payload with a break in it. */
  lemma BrokenLine(a: string, b: string)
    requires NoBreak(a)
    ensures S.ResponseLine(true, a + "\n" + b) == ("OK:" + a) + "\n" + b
  {
    assert (a + "\n" + b)[|a|] == '\n';
    assert a + "\n" + b != S.ExitPayload by {
      assert NoBreak(S.ExitPayload);
    }
    Concat3("OK:", a + "\n", b);
    Concat3("OK:", a, "\n");
  }

  /** One printed line with a break in it reads back as two lines. */
  lemma ReadTwo(x: string, b: string)
    requires NoBreak(x) && NoBreak(b)
    ensures ReadLines(Printed([x + "\n" + b])) == [x, b]
  {
    PrintedOne(x + "\n" + b);
    PrintedOne(b);
    PrintedCons(x, [b]);
    Concat3(x + "\n", b, "\n");
    ReadPrinted([x, b]);
  }

  /** An OK line answers at once, with what follows "OK:". */
  lemma OkFirst(command: string, a: string, b: string)
    ensures C.Respond(command, ["OK:" + a, b]) == C.Reply(C.Returned(a), [b], [])
  {
    var first := "OK:" + a;
    assert first[..3] == "OK:" && first[3..] == a;
    C.ClassifyCases(command, first);
    C.RespondHead(command, [first, b]);
    assert [first, b][1..] == [b];
  }

  /** A lower-case word needs no normalising. */
  lemma NormalizeWord(w: string)
    requires w != [] && forall i :: 0 <= i < |w| ==> 'a' <= w[i] <= 'z'
    ensures S.Normalize(w) == w
  {
    S.StripClean(w);
    assert S.Lower(w) == w;
  }

  /** The command words the Java side writes are the ones the script dispatches on. */
  lemma StartWord()
    ensures S.Dispatch("start") == S.Start
  {
    NormalizeWord("start");
  }

  lemma CaptureWord()
    ensures S.Dispatch("capture") == S.Capture
  {
    NormalizeWord("capture");
  }

  lemma StopWord()
    ensures S.Dispatch("stop") == S.Stop
  {
    NormalizeWord("stop");
  }

  // ----- sequence helpers -----
  // Single steps of sequence algebra (regrouping a concatenation, printing
  // one more line). Dafny proves each of them on its own; they are
  // stated apart and called where needed so that the proofs above do not
  // depend on the solver finding these steps inside a large context.

  lemma PrintedOne(line: string)
    ensures Printed([line]) == line + "\n"
  {
    assert [line][1..] == [];
  }

  lemma Concat3(x: string, y: string, z: string)
    ensures x + (y + z) == x + y + z
  {
  }

  lemma PrintedCons(line: string, rest: seq<string>)
    ensures Printed([line] + rest) == line + "\n" + Printed(rest)
  {
    assert ([line] + rest)[1..] == rest;
  }
}
