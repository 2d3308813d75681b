/**
 * camera.py: the camera helper process. It reads commands, runs each on a
 * camera that is either open or absent, and answers each with one line on
 * standard output; errors are also logged on standard error. The OpenCV
 * device is an input: whether it opens, and what a frame read and write give.
 */
module CameraScript {
  import opened Text

  // ----- command text -----

  function StripLeft(s: string): (r: string)
    ensures r == [] || !IsPythonSpace(r[0])
    ensures |r| <= |s| && r == s[|s| - |r|..]
  {
    if s != [] && IsPythonSpace(s[0]) then StripLeft(s[1..]) else s
  }

  function StripRight(s: string): (r: string)
    ensures r == [] || !IsPythonSpace(r[|r| - 1])
    ensures |r| <= |s| && r == s[..|r|]
  {
    if s != [] && IsPythonSpace(s[|s| - 1]) then StripRight(s[..|s| - 1]) else s
  }

  /** str.strip(): leading and trailing whitespace removed. */
  function Strip(s: string): (r: string)
    ensures r == [] || (!IsPythonSpace(r[0]) && !IsPythonSpace(r[|r| - 1]))
  {
    var l := StripLeft(s);
    var r := StripRight(l);
    assert r != [] ==> r[0] == l[0];
    r
  }

  lemma StripClean(s: string)
    requires s == [] || (!IsPythonSpace(s[0]) && !IsPythonSpace(s[|s| - 1]))
    ensures Strip(s) == s
  {
  }

  /** Stripping twice is stripping once. */
  lemma StripIdempotent(s: string)
    ensures Strip(Strip(s)) == Strip(s)
  {
    StripClean(Strip(s));
  }

  lemma {:induction false} StripLeftSpaces(pad: string, s: string)
    requires forall i :: 0 <= i < |pad| ==> IsPythonSpace(pad[i])
    ensures StripLeft(pad + s) == StripLeft(s)
  {
    if pad != [] {
      assert (pad + s)[1..] == pad[1..] + s;
      StripLeftSpaces(pad[1..], s);
    } else {
      assert pad + s == s;
    }
  }

  lemma {:induction false} StripRightSpaces(s: string, pad: string)
    requires forall i :: 0 <= i < |pad| ==> IsPythonSpace(pad[i])
    ensures StripRight(s + pad) == StripRight(s)
  {
    if pad != [] {
      assert (s + pad)[..|s + pad| - 1] == s + pad[..|pad| - 1];
      StripRightSpaces(s, pad[..|pad| - 1]);
    } else {
      assert s + pad == s;
    }
  }

  predicate IsUpper(c: char)
  {
    'A' <= c <= 'Z'
  }

  /** Python's str.lower on one character, for the ASCII letters. */
  function LowerChar(c: char): (r: char)
    ensures !IsUpper(r)
    ensures !IsUpper(c) ==> r == c
    ensures IsUpper(c) ==> 'a' <= r <= 'z' && r as int - 'a' as int == c as int - 'A' as int
  {
    if IsUpper(c) then (c as int + 32) as char else c
  }

  /**
   * str.lower: no upper-case letter is left, every other character is kept,
   * and each upper-case letter becomes the lower-case letter at the same
   * place in the alphabet.
   */
  function Lower(s: string): (r: string)
    ensures |r| == |s|
    ensures forall i :: 0 <= i < |r| ==> !IsUpper(r[i])
    ensures forall i :: 0 <= i < |s| && !IsUpper(s[i]) ==> r[i] == s[i]
    ensures forall i :: 0 <= i < |s| && IsUpper(s[i]) ==>
      'a' <= r[i] <= 'z' && r[i] as int - 'a' as int == s[i] as int - 'A' as int
  {
    seq(|s|, i requires 0 <= i < |s| => LowerChar(s[i]))
  }

  /** Lower-casing neither makes nor removes whitespace. */
  lemma LowerCharSpace(c: char)
    ensures IsPythonSpace(LowerChar(c)) == IsPythonSpace(c)
  {
  }

  /** Lower-casing twice is lower-casing once. */
  lemma LowerIdempotent(s: string)
    ensures Lower(Lower(s)) == Lower(s)
  {
    var r := Lower(s);
    assert forall i :: 0 <= i < |r| ==> Lower(r)[i] == r[i];
  }

  /**
   * command.strip().lower(): as long as the stripped text, with no
   * upper-case letter and no whitespace at either end (NormalizeShape).
   */
  function Normalize(command: string): string
  {
    Lower(Strip(command))
  }

  /**
   * A normalised command is as long as the stripped text, holds no
   * upper-case letter and neither starts nor ends with whitespace, so
   * normalising it again changes nothing.
   */
  lemma NormalizeShape(command: string)
    ensures var n := Normalize(command);
      && |n| == |Strip(command)|
      && (forall i :: 0 <= i < |n| ==> !IsUpper(n[i]))
      && (n == [] || (!IsPythonSpace(n[0]) && !IsPythonSpace(n[|n| - 1])))
      && Normalize(n) == n
  {
    var t := Strip(command);
    var n := Lower(t);
    if n != [] {
      assert n[0] == LowerChar(t[0]) && n[|n| - 1] == LowerChar(t[|t| - 1]);
      LowerCharSpace(t[0]);
      LowerCharSpace(t[|t| - 1]);
    }
    StripClean(n);
    LowerIdempotent(t);
  }

  /** Surrounding whitespace and letter case do not matter: " Start " is "start". */
  lemma NormalizeStart()
    ensures Normalize(" Start ") == "start"
  {
    StripStart();
    LowerStart();
  }

  lemma StripStart()
    ensures Strip(" Start ") == "Start"
  {
    LeftOfStart();
    RightOfStart();
  }

  lemma LeftOfStart()
    ensures StripLeft(" Start ") == "Start "
  {
    var word := "Start ";
    assert !IsPythonSpace(word[0]);
    assert StripLeft(word) == word;
    assert " Start " == " " + word;
    StripLeftSpaces(" ", word);
  }

  lemma RightOfStart()
    ensures StripRight("Start ") == "Start"
  {
    assert "Start " == "Start" + " ";
    StripRightSpaces("Start", " ");
  }

  lemma LowerStart()
    ensures Lower("Start") == "start"
  {
    var r := Lower("Start");
    assert r[0] == 's' && r[1] == 't' && r[2] == 'a' && r[3] == 'r' && r[4] == 't';
  }

  datatype Command = Start | Capture | Stop | Exit | Unknown(normalized: string)

  /** The dispatch of execute_command on the normalised text. */
  function Dispatch(command: string): (c: Command)
    ensures c.Unknown? <==> Normalize(command) !in {"start", "capture", "stop", "exit", "quit"}
    ensures c.Unknown? ==> c.normalized == Normalize(command)
    ensures c == Exit <==> Normalize(command) == "exit" || Normalize(command) == "quit"
  {
    var n := Normalize(command);
    if n == "start" then Start
    else if n == "capture" then Capture
    else if n == "stop" then Stop
    else if n == "exit" || n == "quit" then Exit
    else Unknown(n)
  }

  // ----- the device and the messages -----

  /** What cv2 does for one frame: read fails, write fails, or the frame is saved at a path. */
  datatype Frame = ReadFails | WriteFails | Saved(path: string)

  /** The device as one command finds it: whether VideoCapture(0) opens, and what capturing a frame gives. */
  datatype Device = Device(opens: bool, frame: Frame)

  const AlreadyRunning := "Camera already running."
  const Started := "Camera started."
  const OpenFailed := "Camera could not be opened. Check permissions and device availability."
  const AlreadyStopped := "Camera already stopped."
  const Stopped := "Camera stopped."
  const NotStarted := "Camera is not started or lost connection."
  const ReadFailed := "Failed to read frame from camera."
  const WriteFailed := "Failed to write frame to disk."
  const ExitPayload := "__EXIT__"

  /** logging.error with logging.basicConfig's default format. */
  function LogLine(message: string): string
  {
    "ERROR:root:" + message
  }

  /** The camera afterwards, the (success, payload) pair, and the lines logged. */
  datatype Step = Step(open: bool, success: bool, payload: string, logged: seq<string>)

  function StartCameraStep(open: bool, dev: Device): Step
  {
    if open then Step(true, true, AlreadyRunning, [])
    else if dev.opens then Step(true, true, Started, [])
    else Step(false, false, OpenFailed, [LogLine(OpenFailed)])
  }

  function StopCameraStep(open: bool): Step
  {
    if open then Step(false, true, Stopped, []) else Step(false, true, AlreadyStopped, [])
  }

  function CaptureFrameStep(open: bool, dev: Device): Step
  {
    if !open then Step(false, false, NotStarted, [LogLine(NotStarted)])
    else match dev.frame
      case ReadFails => Step(true, false, ReadFailed, [LogLine(ReadFailed)])
      case WriteFails => Step(true, false, WriteFailed, [LogLine(WriteFailed)])
      case Saved(p) => Step(true, true, p, [])
  }

  /** execute_command, once the command text is dispatched. */
  function Perform(open: bool, c: Command, dev: Device): Step
  {
    match c
    case Start => StartCameraStep(open, dev)
    case Capture => CaptureFrameStep(open, dev)
    case Stop => StopCameraStep(open)
    case Exit => Step(false, true, ExitPayload, [])
    case Unknown(n) => Step(open, false, "Unknown command: " + n, [])
  }

  /** execute_command: dispatch the normalised command, then run it (ExecuteCases). */
  function Execute(open: bool, command: string, dev: Device): Step
  {
    Perform(open, Dispatch(command), dev)
  }

  /** The state machine: what each command does to the camera and whether it succeeds. */
  lemma ExecuteCases(open: bool, command: string, dev: Device)
    ensures var s := Execute(open, command, dev);
      && (Dispatch(command) == Start ==> s.open == s.success == (open || dev.opens) && (open ==> s.payload == AlreadyRunning))
      && (Dispatch(command) == Start && !open && !dev.opens ==> !s.open && s.payload == OpenFailed)
      && (Dispatch(command) == Stop ==> !s.open && s.success)
      && (Dispatch(command) == Capture ==> s.open == open && (!open ==> !s.success && s.payload == NotStarted))
      && (Dispatch(command) == Exit ==> !s.open && s.success && s.payload == ExitPayload)
      && (Dispatch(command).Unknown? ==> s.open == open && !s.success && s.payload == "Unknown command: " + Normalize(command))
      && |s.logged| <= 1 && (s.logged != [] ==> !s.success && s.logged == [LogLine(s.payload)])
      && (!s.success ==> s.logged != [] || Dispatch(command).Unknown?)
  {
    PerformCases(open, Dispatch(command), dev);
  }

  lemma PerformCases(open: bool, c: Command, dev: Device)
    ensures var s := Perform(open, c, dev);
      && (c == Start ==> s.open == s.success == (open || dev.opens) && (open ==> s.payload == AlreadyRunning))
      && (c == Start && !open && !dev.opens ==> !s.open && s.payload == OpenFailed)
      && (c == Stop ==> !s.open && s.success)
      && (c == Capture ==> s.open == open && (!open ==> !s.success && s.payload == NotStarted))
      && (c == Exit ==> !s.open && s.success && s.payload == ExitPayload)
      && (c.Unknown? ==> s.open == open && !s.success && s.payload == "Unknown command: " + c.normalized)
      && |s.logged| <= 1 && (s.logged != [] ==> !s.success && s.logged == [LogLine(s.payload)])
      && (!s.success ==> s.logged != [] || c.Unknown?)
  {
  }

  /** The answer line handle_commands prints for one command. */
  function ResponseLine(success: bool, payload: string): (line: string)
    ensures success ==> StartsWith(line, "OK") && !StartsWith(line, "ERROR:")
    ensures !success ==> StartsWith(line, "ERROR:") && line[6..] == payload
    ensures success && payload != [] && payload != ExitPayload ==> line == "OK:" + payload
    ensures success && (payload == [] || payload == ExitPayload) ==> line == "OK"
  {
    var line := if payload != [] && payload != ExitPayload then
      (if success then "OK:" + payload else "ERROR:" + payload)
    else
      (if success then "OK" else "ERROR:" + payload);
    assert success ==> line[..2] == "OK" && line[0] == 'O';
    assert !success ==> line[..6] == "ERROR:";
    line
  }

  // ----- handle_commands -----

  /**
   * What handle_commands does from the i-th command on: the camera at the
   * end, the lines printed, the output stream as a reader of both standard
   * output and standard error sees it, and the return code.
   */
  datatype Run = Run(open: bool, printed: seq<string>, stream: seq<string>, code: int)

  function HandleFrom(open: bool, commands: seq<string>, env: int -> Device, i: nat): Run
    decreases |commands| - i
  {
    if i >= |commands| then Run(open, [], [], 0)
    else
      var s := Execute(open, commands[i], env(i));
      var line := ResponseLine(s.success, s.payload);
      if s.success && s.payload == ExitPayload then Run(s.open, [line], s.logged + [line], 0)
      else if !s.success then Run(s.open, [line], s.logged + [line], 1)
      else
        var rest := HandleFrom(s.open, commands, env, i + 1);
        Run(rest.open, [line] + rest.printed, s.logged + [line] + rest.stream, rest.code)
  }

  /** A run preceded by lines already printed and streamed. */
  function After(printedBefore: seq<string>, streamBefore: seq<string>, r: Run): Run
  {
    Run(r.open, printedBefore + r.printed, streamBefore + r.stream, r.code)
  }

  /** One command of handle_commands: it either ends the run or is followed by the rest. */
  lemma HandleUnfold(open: bool, commands: seq<string>, env: int -> Device, i: nat)
    requires i < |commands|
    ensures var s := Execute(open, commands[i], env(i));
      var line := ResponseLine(s.success, s.payload);
      && (s.success && s.payload == ExitPayload ==> HandleFrom(open, commands, env, i) == Run(s.open, [line], s.logged + [line], 0))
      && (!s.success ==> HandleFrom(open, commands, env, i) == Run(s.open, [line], s.logged + [line], 1))
      && (s.success && s.payload != ExitPayload ==>
            HandleFrom(open, commands, env, i) == After([line], s.logged + [line], HandleFrom(s.open, commands, env, i + 1)))
  {
  }

  /** A line is printed exactly when a command remains (HandleErrorLast bounds them by one per command). */
  lemma {:induction false} HandlePrintedLines(open: bool, commands: seq<string>, env: int -> Device, i: nat)
    ensures HandleFrom(open, commands, env, i).printed == [] <==> i >= |commands|
    decreases |commands| - i
  {
    if i < |commands| {
      var s := Execute(open, commands[i], env(i));
      HandleUnfold(open, commands, env, i);
      if s.success && s.payload != ExitPayload {
        HandlePrintedLines(s.open, commands, env, i + 1);
      }
    }
  }

  lemma AfterAfter(p: seq<string>, s: seq<string>, p2: seq<string>, s2: seq<string>, r: Run)
    ensures After(p, s, After(p2, s2, r)) == After(p + p2, s + s2, r)
  {
    assert p + (p2 + r.printed) == p + p2 + r.printed;
    assert s + (s2 + r.stream) == s + s2 + r.stream;
  }

  /** One turn of handle_commands' loop, in terms of the lines already printed. */
  lemma LoopStep(r0: Run, dp: seq<string>, ds: seq<string>, open: bool, commands: seq<string>, env: int -> Device, i: nat)
    requires i < |commands|
    requires r0 == After(dp, ds, HandleFrom(open, commands, env, i))
    ensures var s := Execute(open, commands[i], env(i));
      var line := ResponseLine(s.success, s.payload);
      && (s.success && s.payload == ExitPayload ==> r0 == Run(s.open, dp + [line], ds + (s.logged + [line]), 0))
      && (!s.success ==> r0 == Run(s.open, dp + [line], ds + (s.logged + [line]), 1))
      && (s.success && s.payload != ExitPayload ==>
            r0 == After(dp + [line], ds + (s.logged + [line]), HandleFrom(s.open, commands, env, i + 1)))
  {
    HandleUnfold(open, commands, env, i);
    var s := Execute(open, commands[i], env(i));
    var line := ResponseLine(s.success, s.payload);
    AfterAfter(dp, ds, [line], s.logged + [line], HandleFrom(s.open, commands, env, i + 1));
  }

  /** Past the last command, the run is what was printed so far, with code 0. */
  lemma LoopDone(r0: Run, dp: seq<string>, ds: seq<string>, open: bool, commands: seq<string>, env: int -> Device, i: nat)
    requires i >= |commands|
    requires r0 == After(dp, ds, HandleFrom(open, commands, env, i))
    ensures r0 == Run(open, dp, ds, 0)
  {
    assert dp + [] == dp && ds + [] == ds;
  }

  /**
   * At most one ERROR line is printed and it is the last one; the code is 1
   * exactly when it is there.
   */
  predicate ErrorLast(r: Run)
  {
    && (r.code == 0 || r.code == 1)
    && (forall k :: 0 <= k < |r.printed| - 1 ==> !StartsWith(r.printed[k], "ERROR:"))
    && (r.code == 1 <==> r.printed != [] && StartsWith(r.printed[|r.printed| - 1], "ERROR:"))
  }

  lemma ErrorLastCons(line: string, logged: seq<string>, rest: Run)
    requires !StartsWith(line, "ERROR:") && ErrorLast(rest)
    ensures ErrorLast(After([line], logged, rest))
  {
    var r := After([line], logged, rest);
    forall k | 0 <= k < |r.printed| - 1 ensures !StartsWith(r.printed[k], "ERROR:") {
      if k > 0 {
        assert r.printed[k] == rest.printed[k - 1];
      }
    }
    if rest.printed != [] {
      assert r.printed[|r.printed| - 1] == rest.printed[|rest.printed| - 1];
    }
  }

  /** The ERROR line, if any, is the last one printed; one line per command run at most. */
  lemma {:induction false} HandleErrorLast(open: bool, commands: seq<string>, env: int -> Device, i: nat)
    ensures ErrorLast(HandleFrom(open, commands, env, i))
    ensures i <= |commands| ==> |HandleFrom(open, commands, env, i).printed| <= |commands| - i
    decreases |commands| - i
  {
    if i < |commands| {
      HandleUnfold(open, commands, env, i);
      var s := Execute(open, commands[i], env(i));
      var line := ResponseLine(s.success, s.payload);
      if s.success && s.payload != ExitPayload {
        HandleErrorLast(s.open, commands, env, i + 1);
        ErrorLastCons(line, s.logged + [line], HandleFrom(s.open, commands, env, i + 1));
      }
    }
  }

  /** exit or quit closes the camera, prints OK and ends the run with 0, whatever follows. */
  lemma ExitStops(open: bool, commands: seq<string>, env: int -> Device, i: nat)
    requires i < |commands| && Dispatch(commands[i]) == Exit
    ensures HandleFrom(open, commands, env, i) == Run(false, ["OK"], ["OK"], 0)
  {
  }

  /** A failing command is the last one run: code 1, and the camera as that command left it. */
  lemma FailureStops(open: bool, commands: seq<string>, env: int -> Device, i: nat)
    requires i < |commands| && !Execute(open, commands[i], env(i)).success
    ensures var s := Execute(open, commands[i], env(i));
      HandleFrom(open, commands, env, i) == Run(s.open, ["ERROR:" + s.payload], s.logged + ["ERROR:" + s.payload], 1)
  {
  }

  // ----- read_commands_from_stdin -----

  /** The stripped, non-empty lines, in order: at most one command per line, none of them empty. */
  function ReadCommands(lines: seq<string>): (r: seq<string>)
    ensures |r| <= |lines|
    ensures forall k :: 0 <= k < |r| ==> r[k] != []
  {
    if lines == [] then []
    else (if Strip(lines[0]) == [] then [] else [Strip(lines[0])]) + ReadCommands(lines[1..])
  }

  lemma {:induction false} ReadCommandsAppend(a: seq<string>, b: seq<string>)
    ensures ReadCommands(a + b) == ReadCommands(a) + ReadCommands(b)
  {
    if a != [] {
      ConsAppend(a, b);
      ReadCommandsAppend(a[1..], b);
      LinesAssoc(if Strip(a[0]) == [] then [] else [Strip(a[0])], ReadCommands(a[1..]), ReadCommands(b));
    } else {
      assert a + b == b;
    }
  }

  /** Every command read is non-empty and already stripped. */
  lemma {:induction false} ReadCommandsClean(lines: seq<string>)
    ensures forall c :: c in ReadCommands(lines) ==> c != [] && Strip(c) == c
  {
    if lines != [] {
      ReadCommandsClean(lines[1..]);
      var head := if Strip(lines[0]) == [] then [] else [Strip(lines[0])];
      assert ReadCommands(lines) == head + ReadCommands(lines[1..]);
      StripIdempotent(lines[0]);
      forall c | c in ReadCommands(lines) ensures c != [] && Strip(c) == c {
        if c !in ReadCommands(lines[1..]) {
          assert c == Strip(lines[0]);
        }
      }
    }
  }

  // ----- the process state -----

  class CameraProcess {
    /** The global `camera` is an opened capture (true) or None (false). */
    var cameraOpen: bool
    /** Lines printed on standard output. */
    var printed: seq<string>
    /** Standard output and standard error merged, as the parent process reads them. */
    var stream: seq<string>

    constructor ()
      ensures !cameraOpen && printed == [] && stream == []
    {
      cameraOpen := false;
      printed := [];
      stream := [];
    }

    method LogError(message: string)
      modifies this
      ensures stream == old(stream) + [LogLine(message)]
      ensures cameraOpen == old(cameraOpen) && printed == old(printed)
    {
      stream := stream + [LogLine(message)];
    }

    /** start_camera */
    method StartCamera(dev: Device) returns (success: bool, message: string)
      modifies this
      ensures var s := StartCameraStep(old(cameraOpen), dev);
        cameraOpen == s.open && success == s.success && message == s.payload && stream == old(stream) + s.logged
      ensures printed == old(printed)
    {
      if cameraOpen {
        return true, AlreadyRunning;
      }
      cameraOpen := dev.opens;
      if !cameraOpen {
        message := OpenFailed;
        LogError(message);
        return false, message;
      }
      return true, Started;
    }

    /** stop_camera */
    method StopCamera() returns (success: bool, message: string)
      modifies this
      ensures var s := StopCameraStep(old(cameraOpen));
        cameraOpen == s.open && success == s.success && message == s.payload && stream == old(stream)
      ensures printed == old(printed)
    {
      if !cameraOpen {
        return true, AlreadyStopped;
      }
      cameraOpen := false;
      return true, Stopped;
    }

    /** capture_frame */
    method CaptureFrame(dev: Device) returns (success: bool, payload: string)
      modifies this
      ensures var s := CaptureFrameStep(old(cameraOpen), dev);
        cameraOpen == s.open && success == s.success && payload == s.payload && stream == old(stream) + s.logged
      ensures printed == old(printed)
    {
      if !cameraOpen {
        payload := NotStarted;
        LogError(payload);
        return false, payload;
      }
      match dev.frame
      case ReadFails =>
        payload := ReadFailed;
        LogError(payload);
        success := false;
      case WriteFails =>
        payload := WriteFailed;
        LogError(payload);
        success := false;
      case Saved(p) =>
        success, payload := true, p;
    }

    /** execute_command */
    method ExecuteCommand(command: string, dev: Device) returns (success: bool, payload: string)
      modifies this
      ensures var s := Execute(old(cameraOpen), command, dev);
        cameraOpen == s.open && success == s.success && payload == s.payload && stream == old(stream) + s.logged
      ensures printed == old(printed)
    {
      var c := Dispatch(command);
      match c
      case Start =>
        success, payload := StartCamera(dev);
      case Capture =>
        success, payload := CaptureFrame(dev);
      case Stop =>
        success, payload := StopCamera();
      case Exit =>
        var _, _ := StopCamera();
        success, payload := true, ExitPayload;
      case Unknown(n) =>
        success, payload := false, "Unknown command: " + n;
    }

    method PrintLine(line: string)
      modifies this
      ensures printed == old(printed) + [line] && stream == old(stream) + [line]
      ensures cameraOpen == old(cameraOpen)
    {
      printed := printed + [line];
      stream := stream + [line];
    }

    /** One command of handle_commands: run it and print its answer line. */
    method Serve(command: string, dev: Device) returns (success: bool, payload: string)
      modifies this
      ensures var s := Execute(old(cameraOpen), command, dev);
        var line := ResponseLine(s.success, s.payload);
        && cameraOpen == s.open && success == s.success && payload == s.payload
        && printed == old(printed) + [line] && stream == old(stream) + s.logged + [line]
    {
      success, payload := ExecuteCommand(command, dev);
      var line := ResponseLine(success, payload);
      PrintLine(line);
    }

    /** One turn of handle_commands' loop, with the lines printed so far and the run they belong to. */
    method Turn(commands: seq<string>, env: int -> Device, i: nat, ghost r0: Run,
                ghost p0: seq<string>, ghost s0: seq<string>, ghost dp: seq<string>, ghost ds: seq<string>)
      returns (stop: bool, code: int, ghost dp': seq<string>, ghost ds': seq<string>)
      modifies this
      requires i < |commands|
      requires printed == p0 + dp && stream == s0 + ds
      requires r0 == After(dp, ds, HandleFrom(cameraOpen, commands, env, i))
      ensures printed == p0 + dp' && stream == s0 + ds'
      ensures stop ==> cameraOpen == r0.open && dp' == r0.printed && ds' == r0.stream && code == r0.code
      ensures !stop ==> r0 == After(dp', ds', HandleFrom(cameraOpen, commands, env, i + 1))
    {
      ghost var s := Execute(cameraOpen, commands[i], env(i));
      ghost var line := ResponseLine(s.success, s.payload);
      LoopStep(r0, dp, ds, cameraOpen, commands, env, i);
      Regroup3(p0, dp, [line]);
      Regroup(s0, ds, s.logged, [line]);
      var success, payload := Serve(commands[i], env(i));
      dp', ds' := dp + [line], ds + (s.logged + [line]);
      stop := !success || payload == ExitPayload;
      code := if success then 0 else 1;
    }

    /** handle_commands: run each command, print its answer, stop at exit or at the first failure. */
    method HandleCommands(commands: seq<string>, env: int -> Device) returns (code: int)
      modifies this
      ensures var r := HandleFrom(old(cameraOpen), commands, env, 0);
        cameraOpen == r.open && printed == old(printed) + r.printed && stream == old(stream) + r.stream && code == r.code
    {
      ghost var r0 := HandleFrom(cameraOpen, commands, env, 0);
      ghost var donePrinted: seq<string> := [];
      ghost var doneStream: seq<string> := [];
      var i := 0;
      while i < |commands|
        invariant 0 <= i <= |commands|
        invariant printed == old(printed) + donePrinted && stream == old(stream) + doneStream
        invariant r0 == After(donePrinted, doneStream, HandleFrom(cameraOpen, commands, env, i))
      {
        var stop;
        stop, code, donePrinted, doneStream := Turn(commands, env, i, r0, old(printed), old(stream), donePrinted, doneStream);
        if stop {
          return;
        }
        i := i + 1;
      }
      LoopDone(r0, donePrinted, doneStream, cameraOpen, commands, env, i);
      code := 0;
    }
  }

  // ----- sequence helpers -----
  // Single steps of sequence algebra (regrouping a concatenation, taking one
  // more element of a slice). Dafny proves each of them on its own; they are
  // stated apart and called where needed so that the proofs above do not
  // depend on the solver finding these steps inside a large context.

  lemma Regroup3(a: seq<string>, b: seq<string>, c: seq<string>)
    ensures a + b + c == a + (b + c)
  {
  }

  lemma Regroup(a: seq<string>, b: seq<string>, c: seq<string>, d: seq<string>)
    ensures a + b + c + d == a + (b + (c + d))
  {
  }

  lemma ConsAppend(a: seq<string>, b: seq<string>)
    requires a != []
    ensures (a + b)[0] == a[0] && (a + b)[1..] == a[1..] + b
  {
  }

  lemma LinesAssoc(a: seq<string>, b: seq<string>, c: seq<string>)
    ensures a + (b + c) == a + b + c
  {
  }
}
