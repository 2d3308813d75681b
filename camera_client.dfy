/**
 * CameraServiceImpl: the Java side of the camera helper. runPythonCommand
 * writes one command and reads answer lines until the first OK or ERROR
 * line; getFrames starts the camera, captures a configured number of
 * frames with a pause after each usable one, and stops the camera again
 * whenever it was started. Exceptions are values here.
 */
module CameraClient {
  import opened Wrappers
  import opened Text

  /** The exceptions this code raises or lets through. */
  datatype Thrown =
    | CommandFailed(message: string)      // RuntimeException for an ERROR line
    | ProcessEnded(message: string)       // IllegalStateException at end of stream
    | NumberFormat                        // Integer.parseInt / Long.parseLong of the configuration
    | NegativeSleep                       // Thread.sleep with a negative time

  /** What a call returned, or what it threw. */
  datatype Outcome = Returned(value: string) | Threw(error: Thrown)

  function FailedMessage(command: string, message: string): string
  {
    "Python command '" + command + "' failed: " + message
  }

  function EndedMessage(command: string): string
  {
    "Python process terminated unexpectedly while handling command: " + command
  }

  // ----- runPythonCommand -----

  /** No line is both an OK line and an ERROR line. */
  lemma OkNotError(line: string)
    ensures !(StartsWith(line, "OK") && StartsWith(line, "ERROR:"))
    ensures StartsWith(line, "OK:") ==> StartsWith(line, "OK")
  {
    if StartsWith(line, "OK") && |line| >= 6 {
      assert line[0] == 'O' && "ERROR:"[0] == 'E';
    }
    if StartsWith(line, "OK:") {
      assert line[..2] == "OK:"[..2];
    }
  }

  /**
   * What one answer line decides: a result, an exception, or nothing (a log
   * line). Only OK and ERROR lines decide, and no line says the stream ended.
   */
  function Classify(command: string, line: string): (d: Option<Outcome>)
    ensures d.Some? ==> StartsWith(line, "OK") || StartsWith(line, "ERROR:")
    ensures d.Some? && d.value.Threw? ==> d.value.error.CommandFailed?
  {
    if StartsWith(line, "OK") then
      if line == "OK" then Some(Returned(""))
      else if StartsWith(line, "OK:") then Some(Returned(line[3..]))
      else Some(Returned(line))
    else if StartsWith(line, "ERROR:") then
      Some(Threw(CommandFailed(FailedMessage(command, line[6..]))))
    else None
  }

  /** The answer lines runPythonCommand tells apart, and what each decides. */
  lemma ClassifyCases(command: string, line: string)
    ensures var d := Classify(command, line);
      && (line == "OK" ==> d == Some(Returned("")))
      && (StartsWith(line, "OK:") ==> d == Some(Returned(line[3..])))
      && (StartsWith(line, "OK") && line != "OK" && !StartsWith(line, "OK:") ==> d == Some(Returned(line)))
      && (StartsWith(line, "ERROR:") ==> d == Some(Threw(CommandFailed(FailedMessage(command, line[6..])))))
      && (d.None? <==> !StartsWith(line, "OK") && !StartsWith(line, "ERROR:"))
      && (d.Some? && d.value.Threw? ==> StartsWith(line, "ERROR:"))
  {
    OkNotError(line);
  }

  /** The IllegalStateException of a stream that ran out. */
  predicate Ended(o: Outcome)
  {
    o.Threw? && o.error.ProcessEnded?
  }

  /** The outcome of one command, the lines left unread, and the lines logged on the way. */
  datatype Reply = Reply(outcome: Outcome, rest: seq<string>, skipped: seq<string>)

  predicate Undecided(command: string, lines: seq<string>)
  {
    forall k :: 0 <= k < |lines| ==> Classify(command, lines[k]).None?
  }

  /**
   * The lines read for one command: every line before the first OK or
   * ERROR one is logged and skipped, that line decides, and the lines after
   * it are left for the next command. Without such a line the stream ends
   * and the call throws (RespondShape).
   */
  function Respond(command: string, lines: seq<string>): Reply
  {
    if lines == [] then Reply(Threw(ProcessEnded(EndedMessage(command))), [], [])
    else match Classify(command, lines[0])
      case Some(o) => Reply(o, lines[1..], [])
      case None =>
        var r := Respond(command, lines[1..]);
        Reply(r.outcome, r.rest, [lines[0]] + r.skipped)
  }

  /** A deciding first line decides at once. */
  lemma RespondHead(command: string, lines: seq<string>)
    requires lines != [] && Classify(command, lines[0]).Some?
    ensures Respond(command, lines) == Reply(Classify(command, lines[0]).value, lines[1..], [])
  {
  }

  /** Every line logged on the way is one that decides nothing. */
  lemma {:induction false} RespondSkipsUndecided(command: string, lines: seq<string>)
    ensures Undecided(command, Respond(command, lines).skipped)
  {
    if lines != [] && Classify(command, lines[0]).None? {
      RespondSkipsUndecided(command, lines[1..]);
      var r := Respond(command, lines[1..]);
      var skipped := Respond(command, lines).skipped;
      assert skipped == [lines[0]] + r.skipped;
      forall k | 0 <= k < |skipped| ensures Classify(command, skipped[k]).None? {
        if k > 0 {
          assert skipped[k] == r.skipped[k - 1];
        }
      }
    }
  }

  /**
   * What any stream gives: either it ran out (all lines logged, nothing
   * left) or one line decided, the lines before it were logged and the
   * lines after it are left.
   */
  lemma {:induction false} RespondShape(command: string, lines: seq<string>)
    ensures var r := Respond(command, lines);
      && (Ended(r.outcome) ==> r.outcome == Threw(ProcessEnded(EndedMessage(command))) && r.skipped == lines && r.rest == [])
      && (!Ended(r.outcome) ==>
            var k := |r.skipped|;
            && k < |lines| && lines[..k] == r.skipped && lines[k + 1..] == r.rest
            && Classify(command, lines[k]) == Some(r.outcome))
  {
    if lines != [] && Classify(command, lines[0]).None? {
      RespondShape(command, lines[1..]);
      RespondSkip(command, lines);
      var r := Respond(command, lines[1..]);
      if !Ended(r.outcome) {
        ShiftSlices(lines, |r.skipped|);
      } else {
        ShiftSlices(lines, -1);
      }
    } else if lines != [] {
      RespondHead(command, lines);
    }
  }

  /** Slices of lines[1..] as slices of lines. */
  lemma ShiftSlices(lines: seq<string>, k: int)
    requires lines != [] && -1 <= k < |lines| - 1
    ensures k == -1 ==> [lines[0]] + lines[1..] == lines
    ensures 0 <= k ==> lines[1..][k] == lines[k + 1]
    ensures 0 <= k ==> lines[..k + 1] == [lines[0]] + lines[1..][..k] && lines[k + 2..] == lines[1..][k + 1..]
  {
  }

  /** The first deciding line decides, whatever was logged before it and whatever follows. */
  lemma {:induction false} RespondFirstDecides(command: string, skipped: seq<string>, line: string, rest: seq<string>)
    requires Undecided(command, skipped) && Classify(command, line).Some?
    ensures Respond(command, skipped + [line] + rest) == Reply(Classify(command, line).value, rest, skipped)
  {
    if skipped == [] {
      assert skipped + [line] + rest == [line] + rest;
    } else {
      assert (skipped + [line] + rest)[1..] == skipped[1..] + [line] + rest;
      RespondFirstDecides(command, skipped[1..], line, rest);
      assert [skipped[0]] + skipped[1..] == skipped;
    }
  }

  /** A stream with no OK or ERROR line ends in an IllegalStateException; every line was logged. */
  lemma {:induction false} RespondNoAnswer(command: string, lines: seq<string>)
    requires Undecided(command, lines)
    ensures Respond(command, lines) == Reply(Threw(ProcessEnded(EndedMessage(command))), [], lines)
  {
    if lines != [] {
      RespondNoAnswer(command, lines[1..]);
      assert [lines[0]] + lines[1..] == lines;
    }
  }

  /** Skipping one log line: what the loop of runPythonCommand does on it. */
  lemma RespondSkip(command: string, lines: seq<string>)
    requires lines != [] && Classify(command, lines[0]).None?
    ensures var r := Respond(command, lines[1..]);
      Respond(command, lines) == Reply(r.outcome, r.rest, [lines[0]] + r.skipped)
  {
  }

  /** Action of getFrames on the outside world: a command sent, or a pause in milliseconds. */
  datatype Action = Send(command: string) | Sleep(ms: int)

  /** The Python process as the Java side sees it: the answer lines not yet read. */
  class PythonChannel {
    /** Lines the process has written and the reader has not consumed yet. */
    var pending: seq<string>
    /** Commands written to the process's standard input. */
    var sent: seq<string>
    /** Lines logged as "[python] ..." on the way. */
    var logged: seq<string>

    constructor (output: seq<string>)
      ensures pending == output && sent == [] && logged == []
    {
      pending := output;
      sent := [];
      logged := [];
    }

    /** runPythonCommand: send the command, then read lines until one decides. */
    method RunPythonCommand(command: string) returns (outcome: Outcome)
      modifies this
      ensures var r := Respond(command, old(pending));
        outcome == r.outcome && pending == r.rest && logged == old(logged) + r.skipped
      ensures sent == old(sent) + [command]
    {
      sent := sent + [command];
      ghost var seen: seq<string> := [];
      while pending != []
        invariant logged == old(logged) + seen
        invariant sent == old(sent) + [command]
        invariant var r := Respond(command, pending);
          Respond(command, old(pending)) == Reply(r.outcome, r.rest, seen + r.skipped)
        decreases |pending|
      {
        var line := pending[0];
        ClassifyCases(command, line);
        ghost var here := pending;
        pending := pending[1..];
        if StartsWith(line, "OK") {
          RespondHead(command, here);
          if line == "OK" {
            return Returned("");
          }
          if StartsWith(line, "OK:") {
            return Returned(line[3..]);
          }
          return Returned(line);
        }
        if StartsWith(line, "ERROR:") {
          RespondHead(command, here);
          return Threw(CommandFailed(FailedMessage(command, line[6..])));
        }
        RespondSkip(command, here);
        logged := logged + [line];
        assert seen + ([line] + Respond(command, pending).skipped) == (seen + [line]) + Respond(command, pending).skipped;
        seen := seen + [line];
      }
      assert seen + [] == seen;
      return Threw(ProcessEnded(EndedMessage(command)));
    }

    method StartCamera() returns (outcome: Outcome)
      modifies this
      ensures var r := Respond("start", old(pending));
        outcome == r.outcome && pending == r.rest && logged == old(logged) + r.skipped
      ensures sent == old(sent) + ["start"]
    {
      outcome := RunPythonCommand("start");
    }

    method StopCamera() returns (outcome: Outcome)
      modifies this
      ensures var r := Respond("stop", old(pending));
        outcome == r.outcome && pending == r.rest && logged == old(logged) + r.skipped
      ensures sent == old(sent) + ["stop"]
    {
      outcome := RunPythonCommand("stop");
    }

    method CaptureFrame() returns (outcome: Outcome)
      modifies this
      ensures var r := Respond("capture", old(pending));
        outcome == r.outcome && pending == r.rest && logged == old(logged) + r.skipped
      ensures sent == old(sent) + ["capture"]
    {
      outcome := RunPythonCommand("capture");
    }
  }

  // ----- getFrames -----

  /**
   * The i-th capture's outcome. Captures beyond the given ones find the
   * process's output at its end, which is what runPythonCommand reports.
   */
  function Attempt(captures: seq<Outcome>, i: int): Outcome
  {
    if 0 <= i < |captures| then captures[i] else Threw(ProcessEnded(EndedMessage("capture")))
  }

  /** A capture that returned a usable path. */
  predicate Usable(o: Outcome)
  {
    o.Returned? && !IsBlank(o.value)
  }

  /** The paths kept, the actions taken and the exception that ended the loop, if any. */
  datatype Loop = Loop(paths: seq<string>, actions: seq<Action>, error: Option<Thrown>)

  /** The capture loop from attempt i on. */
  function Captures(captures: seq<Outcome>, i: int, n: int, wait: int): (l: Loop)
    ensures i >= n ==> l == Loop([], [], None)
    ensures forall k :: 0 <= k < |l.paths| ==> !IsBlank(l.paths[k])
    ensures |l.paths| <= if i < n then n - i else 0
    decreases n - i
  {
    if i >= n then Loop([], [], None)
    else
      var o := Attempt(captures, i);
      if o.Threw? then Loop([], [Send("capture")], Some(o.error))
      else if IsBlank(o.value) then
        var l := Captures(captures, i + 1, n, wait);
        Loop(l.paths, [Send("capture")] + l.actions, l.error)
      else if i < n - 1 && wait < 0 then Loop([o.value], [Send("capture")], Some(NegativeSleep))
      else
        var l := Captures(captures, i + 1, n, wait);
        var pause := if i < n - 1 then [Sleep(wait)] else [];
        Loop([o.value] + l.paths, [Send("capture")] + pause + l.actions, l.error)
  }

  /** What getFrames returns or throws. */
  datatype Frames = Paths(paths: seq<string>) | FramesThrew(error: Thrown)

  /**
   * getFrames, for the outcomes of start, of the successive captures and of
   * stop, and for the two configuration values as parsed (None when parsing
   * throws). The result and every command sent or pause taken, in order.
   */
  function GetFramesSpec(start: Outcome, captures: seq<Outcome>, stop: Outcome,
                         frames: Option<int>, wait: Option<int>): (r: (Frames, seq<Action>))
    ensures r.1 != [] && r.1[0] == Send("start")
    ensures r.0.Paths? ==> frames.Some? && |r.0.paths| <= if frames.value < 0 then 0 else frames.value
    ensures r.0.Paths? ==> forall k :: 0 <= k < |r.0.paths| ==> !IsBlank(r.0.paths[k])
    ensures start.Returned? && stop.Threw? ==> r.0 == FramesThrew(stop.error)
    ensures start.Threw? ==> r == (FramesThrew(start.error), [Send("start")])
  {
    if start.Threw? then (FramesThrew(start.error), [Send("start")])
    else
      var body :=
        if frames.None? || wait.None? then Loop([], [], Some(NumberFormat))
        else Captures(captures, 0, frames.value, wait.value);
      var actions := [Send("start"), Sleep(300)] + body.actions + [Send("stop")];
      if stop.Threw? then (FramesThrew(stop.error), actions)
      else if body.error.Some? then (FramesThrew(body.error.value), actions)
      else (Paths(body.paths), actions)
  }

  /** Loop results so far followed by the rest of the loop. */
  function Then(done: Loop, rest: Loop): Loop
  {
    Loop(done.paths + rest.paths, done.actions + rest.actions, rest.error)
  }

  /** One attempt of the capture loop, in terms of what the loop has done so far. */
  lemma CaptureStep(captures: seq<Outcome>, i: int, n: int, wait: int, done: Loop)
    requires i < n
    requires Captures(captures, 0, n, wait) == Then(done, Captures(captures, i, n, wait))
    ensures var o := Attempt(captures, i);
      var whole := Captures(captures, 0, n, wait);
      var sent := done.actions + [Send("capture")];
      && (o.Threw? ==> whole == Loop(done.paths, sent, Some(o.error)))
      && (o.Returned? && IsBlank(o.value) ==>
            whole == Then(Loop(done.paths, sent, None), Captures(captures, i + 1, n, wait)))
      && (Usable(o) && i < n - 1 && wait < 0 ==> whole == Loop(done.paths + [o.value], sent, Some(NegativeSleep)))
      && (Usable(o) && i < n - 1 && wait >= 0 ==>
            whole == Then(Loop(done.paths + [o.value], sent + [Sleep(wait)], None), Captures(captures, i + 1, n, wait)))
      && (Usable(o) && i >= n - 1 ==>
            whole == Then(Loop(done.paths + [o.value], sent, None), Captures(captures, i + 1, n, wait)))
  {
    var o := Attempt(captures, i);
    var rest := Captures(captures, i + 1, n, wait);
    var sent := done.actions + [Send("capture")];
    if o.Returned? && IsBlank(o.value) {
      assert done.actions + ([Send("capture")] + rest.actions) == sent + rest.actions;
    } else if Usable(o) && i < n - 1 && wait >= 0 {
      assert done.paths + ([o.value] + rest.paths) == done.paths + [o.value] + rest.paths;
      assert done.actions + ([Send("capture")] + [Sleep(wait)] + rest.actions) == sent + [Sleep(wait)] + rest.actions;
    } else if Usable(o) && i >= n - 1 {
      assert done.paths + ([o.value] + rest.paths) == done.paths + [o.value] + rest.paths;
      assert done.actions + ([Send("capture")] + [] + rest.actions) == sent + rest.actions;
    } else if o.Threw? {
      assert done.paths + [] == done.paths;
    } else {
      assert done.paths + [o.value] == done.paths + [o.value];
    }
  }

  /** getFrames: start, pause, capture in a loop, and stop in the finally block when started. */
  /** getFrames' for loop over the capture attempts, once the configuration has parsed. */
  method CaptureLoop(captures: seq<Outcome>, n: int, w: int) returns (filepaths: seq<string>, loopActions: seq<Action>, error: Option<Thrown>)
    ensures Loop(filepaths, loopActions, error) == Captures(captures, 0, n, w)
  {
    filepaths, loopActions, error := [], [], None;
    var i := 0;
    while i < n && error.None?
      invariant error.None? ==>
        Captures(captures, 0, n, w) == Then(Loop(filepaths, loopActions, None), Captures(captures, i, n, w))
      invariant error.Some? ==> Captures(captures, 0, n, w) == Loop(filepaths, loopActions, error)
      decreases n - i, if error.None? then 1 else 0
    {
      var o := Attempt(captures, i);
      CaptureStep(captures, i, n, w, Loop(filepaths, loopActions, None));
      loopActions := loopActions + [Send("capture")];
      if o.Threw? {
        error := Some(o.error);
      } else if IsBlank(o.value) {
        i := i + 1;
      } else {
        filepaths := filepaths + [o.value];
        if i < n - 1 {
          if w < 0 {
            error := Some(NegativeSleep);
          } else {
            loopActions := loopActions + [Sleep(w)];
            i := i + 1;
          }
        } else {
          i := i + 1;
        }
      }
    }
    if error.None? {
      assert filepaths + [] == filepaths && loopActions + [] == loopActions;
    }
  }

  method GetFrames(start: Outcome, captures: seq<Outcome>, stop: Outcome,
                   frames: Option<int>, wait: Option<int>) returns (result: Frames, actions: seq<Action>)
    ensures (result, actions) == GetFramesSpec(start, captures, stop, frames, wait)
  {
    var started := false;
    var error: Option<Thrown> := None;
    var filepaths: seq<string> := [];
    if start.Threw? {
      return FramesThrew(start.error), [Send("start")];
    }
    started := true;
    var loopActions: seq<Action> := [];
    if frames.None? || wait.None? {
      error := Some(NumberFormat);
    } else {
      filepaths, loopActions, error := CaptureLoop(captures, frames.value, wait.value);
    }
    actions := [Send("start"), Sleep(300)] + loopActions;
    if started {
      actions := actions + [Send("stop")];
      if stop.Threw? {
        error := Some(stop.error);
      }
    }
    result := if error.Some? then FramesThrew(error.value) else Paths(filepaths);
  }

  // ----- properties of getFrames -----

  /** The usable paths among attempts i to n - 1, in order: the reference for what getFrames keeps. */
  function Kept(captures: seq<Outcome>, i: int, n: int): seq<string>
    decreases n - i
  {
    if i >= n then []
    else (if Usable(Attempt(captures, i)) then [Attempt(captures, i).value] else []) + Kept(captures, i + 1, n)
  }

  /** Attempts i to n - 2 that returned a usable path: each is followed by a pause. */
  function UsableBeforeLast(captures: seq<Outcome>, i: int, n: int): nat
    decreases n - i
  {
    if i >= n - 1 then 0
    else (if Usable(Attempt(captures, i)) then 1 else 0) + UsableBeforeLast(captures, i + 1, n)
  }

  function Pauses(actions: seq<Action>): nat
  {
    if actions == [] then 0 else (if actions[0].Sleep? then 1 else 0) + Pauses(actions[1..])
  }

  function CaptureCalls(actions: seq<Action>): nat
  {
    if actions == [] then 0 else (if actions[0] == Send("capture") then 1 else 0) + CaptureCalls(actions[1..])
  }

  lemma {:induction false} CountsAppend(a: seq<Action>, b: seq<Action>)
    ensures Pauses(a + b) == Pauses(a) + Pauses(b)
    ensures CaptureCalls(a + b) == CaptureCalls(a) + CaptureCalls(b)
  {
    if a == [] {
      assert a + b == b;
    } else {
      assert (a + b)[1..] == a[1..] + b;
      CountsAppend(a[1..], b);
    }
  }

  /**
   * A capture loop that ends normally: no attempt threw, the paths are the
   * usable ones in capture order, one capture command per attempt, and one
   * pause per usable attempt that is not the last, each of the configured
   * length.
   */
  lemma CapturesNormal(captures: seq<Outcome>, i: int, n: int, wait: int)
    ensures var l := Captures(captures, i, n, wait);
      l.error.None? ==>
        && l.paths == Kept(captures, i, n)
        && (forall j :: i <= j < n ==> Attempt(captures, j).Returned?)
        && CaptureCalls(l.actions) == (if i < n then n - i else 0)
        && Pauses(l.actions) == UsableBeforeLast(captures, i, n)
        && (forall k :: 0 <= k < |l.actions| ==> l.actions[k].Sleep? ==> l.actions[k].ms == wait)
  {
    CapturesKept(captures, i, n, wait);
    CapturesCounts(captures, i, n, wait);
    CapturesWait(captures, i, n, wait);
  }

  lemma {:induction false} CapturesKept(captures: seq<Outcome>, i: int, n: int, wait: int)
    ensures var l := Captures(captures, i, n, wait);
      l.error.None? ==> l.paths == Kept(captures, i, n) && (forall j :: i <= j < n ==> Attempt(captures, j).Returned?)
    decreases n - i
  {
    if i < n {
      CapturesKept(captures, i + 1, n, wait);
      var l, rest := Captures(captures, i, n, wait), Captures(captures, i + 1, n, wait);
      var o := Attempt(captures, i);
      if l.error.None? {
        assert o.Returned? && l.error == rest.error;
        assert l.paths == (if Usable(o) then [o.value] else []) + rest.paths;
      }
    }
  }

  lemma {:induction false} CapturesCounts(captures: seq<Outcome>, i: int, n: int, wait: int)
    ensures var l := Captures(captures, i, n, wait);
      l.error.None? ==>
        CaptureCalls(l.actions) == (if i < n then n - i else 0) && Pauses(l.actions) == UsableBeforeLast(captures, i, n)
    decreases n - i
  {
    var l := Captures(captures, i, n, wait);
    if i < n && l.error.None? {
      CapturesCounts(captures, i + 1, n, wait);
      var rest := Captures(captures, i + 1, n, wait);
      var pause: seq<Action> := if Usable(Attempt(captures, i)) && i < n - 1 then [Sleep(wait)] else [];
      assert l.actions == [Send("capture")] + pause + rest.actions;
      CountsAppend([Send("capture")] + pause, rest.actions);
      CountsAppend([Send("capture")], pause);
    }
  }

  /** Every pause among the actions lasts the configured time. */
  predicate PausesLast(actions: seq<Action>, wait: int)
  {
    forall k :: 0 <= k < |actions| && actions[k].Sleep? ==> actions[k].ms == wait
  }

  lemma {:induction false} CapturesWait(captures: seq<Outcome>, i: int, n: int, wait: int)
    ensures PausesLast(Captures(captures, i, n, wait).actions, wait)
    decreases n - i
  {
    var l := Captures(captures, i, n, wait);
    var o := Attempt(captures, i);
    if i < n && !o.Threw? && !(Usable(o) && i < n - 1 && wait < 0) {
      CapturesWait(captures, i + 1, n, wait);
      var rest := Captures(captures, i + 1, n, wait);
      var pause: seq<Action> := if Usable(o) && i < n - 1 then [Sleep(wait)] else [];
      assert l.actions == [Send("capture")] + pause + rest.actions;
      forall k | 0 <= k < |l.actions| && l.actions[k].Sleep? ensures l.actions[k].ms == wait {
        if k >= 1 + |pause| {
          assert l.actions[k] == rest.actions[k - 1 - |pause|];
        }
      }
    }
  }

  /** stop is sent exactly when start returned, and then as the last action. */
  lemma StopIffStarted(start: Outcome, captures: seq<Outcome>, stop: Outcome, frames: Option<int>, wait: Option<int>)
    ensures var (_, actions) := GetFramesSpec(start, captures, stop, frames, wait);
      && (start.Returned? <==> Send("stop") in actions)
      && (start.Returned? ==> actions[|actions| - 1] == Send("stop") && actions[..2] == [Send("start"), Sleep(300)])
  {
    if start.Returned? {
      var (_, actions) := GetFramesSpec(start, captures, stop, frames, wait);
      assert actions[|actions| - 1] == Send("stop");
    }
  }

  /**
   * A run where start and stop return: the paths are the usable captures
   * in order, every capture was attempted, and the pauses follow the
   * usable captures that were not the last one.
   */
  lemma GetFramesNormal(start: Outcome, captures: seq<Outcome>, stop: Outcome, n: int, wait: int)
    requires start.Returned? && stop.Returned?
    ensures var (result, actions) := GetFramesSpec(start, captures, stop, Some(n), Some(wait));
      result.Paths? ==>
        && result.paths == Kept(captures, 0, n)
        && (forall j :: 0 <= j < n ==> Attempt(captures, j).Returned?)
        && CaptureCalls(actions) == (if 0 < n then n else 0)
        && Pauses(actions) == 1 + UsableBeforeLast(captures, 0, n)
  {
    CapturesNormal(captures, 0, n, wait);
    var l := Captures(captures, 0, n, wait);
    CountsAppend([Send("start"), Sleep(300)] + l.actions, [Send("stop")]);
    CountsAppend([Send("start"), Sleep(300)], l.actions);
  }

  /** A capture that throws still stops the camera, and its exception is the result when stop returns. */
  lemma CaptureFailureStops(start: Outcome, captures: seq<Outcome>, stop: Outcome, n: int, wait: int)
    requires start.Returned? && stop.Returned? && 0 < n && Attempt(captures, 0).Threw?
    ensures GetFramesSpec(start, captures, stop, Some(n), Some(wait))
      == (FramesThrew(Attempt(captures, 0).error), [Send("start"), Sleep(300), Send("capture"), Send("stop")])
  {
    assert [Send("start"), Sleep(300)] + [Send("capture")] + [Send("stop")]
      == [Send("start"), Sleep(300), Send("capture"), Send("stop")];
  }

  /** A configuration value that does not parse throws after start, before any capture, and stop still runs. */
  lemma BadConfigurationStops(start: Outcome, captures: seq<Outcome>, stop: Outcome, frames: Option<int>, wait: Option<int>)
    requires start.Returned? && stop.Returned? && (frames.None? || wait.None?)
    ensures GetFramesSpec(start, captures, stop, frames, wait)
      == (FramesThrew(NumberFormat), [Send("start"), Sleep(300), Send("stop")])
  {
    var none: seq<Action> := [];
    assert [Send("start"), Sleep(300)] + none + [Send("stop")] == [Send("start"), Sleep(300), Send("stop")];
  }

  /** A blank path is not kept and no pause follows it. */
  lemma BlankSkipsPause(captures: seq<Outcome>, i: int, n: int, wait: int)
    requires i < n && Attempt(captures, i).Returned? && IsBlank(Attempt(captures, i).value)
    ensures var l := Captures(captures, i, n, wait);
      var rest := Captures(captures, i + 1, n, wait);
      l.paths == rest.paths && l.actions == [Send("capture")] + rest.actions
  {
  }
}
