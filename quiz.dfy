/**
 * `POST /run-quiz`: the answers are validated, an interpreter is found,
 * `quiz.py` is started with the answers as one line of JSON on its
 * standard input, its two output streams are collected into append-only
 * buffers, and when it closes the exit code and the buffers decide the
 * answer. Any output on standard error counts as a failure, even with exit
 * code 0.
 */
module Quiz {
  import opened Wrappers
  import opened JsValues
  import opened JsText
  import Interpreter

  /** An answer sent with `res.status(status).send(text)`; `res.send` alone is status 200. */
  datatype Reply = Reply(status: nat, text: string)

  const InvalidInputMessage := "Invalid input: Please provide 5 quiz answers."
  const NotFoundMessage := "FATAL Error: Python executable not found. Please install Python or add it to PATH."
  const StartFailurePrefix := "Failed to start Python process: "
  const ErrorHeader := "Python Script Execution Error:\n"
  const CapturedLabel := "\n\nCaptured Output: "
  const ExitedPrefix := "Python script exited with code "

  /** `v.length` on a non-null value: strings and arrays have one, an object may carry one as a field. */
  function LengthOf(v: Json): (r: Value)
    ensures r.Some? ==> v.JStr? || v.JArr? || v.JObj?
    ensures v.JStr? ==> r == Some(JNum(|v.s| as real))
    ensures v.JArr? ==> r == Some(JNum(|v.items| as real))
  {
    match v
    case JStr(s) => Some(JNum(|s| as real))
    case JArr(items) => Some(JNum(|items| as real))
    case JObj(fields) => if "length" in fields then Some(fields["length"]) else None
    case _ => None
  }

  /**
   * The negation of `!userAnswers || userAnswers.length !== 5`. It holds of
   * five-element arrays and, as JavaScript has it, of five-character
   * strings and of objects whose `length` field is the number 5.
   */
  predicate HasFiveAnswers(answers: Value)
    ensures HasFiveAnswers(answers) ==> answers.Some? && (answers.value.JArr? || answers.value.JStr? || answers.value.JObj?)
    ensures answers.Some? && answers.value.JArr? && |answers.value.items| == 5 ==> HasFiveAnswers(answers)
  {
    Truthy(answers) && LengthOf(answers.value) == Some(JNum(5.0))
  }

  /** Exactly which request values pass the check. */
  lemma HasFiveAnswersExactly(answers: Value)
    ensures HasFiveAnswers(answers) <==>
      || (exists items :: answers == Some(JArr(items)) && |items| == 5)
      || (exists s :: answers == Some(JStr(s)) && |s| == 5)
      || (exists fields :: answers == Some(JObj(fields)) && "length" in fields && fields["length"] == JNum(5.0))
  {
    if answers.Some? {
      match answers.value
      case JArr(items) => assert answers == Some(JArr(items));
      case JStr(s) => assert answers == Some(JStr(s));
      case JObj(fields) => assert answers == Some(JObj(fields));
      case _ =>
    }
  }

  /** What is written to the child's standard input before it is closed: the serialised answers and a line break. */
  function StdinPayload(serialized: string): (r: string)
    ensures |r| == |serialized| + 1 && r[|serialized|] == '\n'
    ensures r[..|serialized|] == serialized
  {
    serialized + "\n"
  }

  /** A serialisation without line breaks (as `JSON.stringify` without indentation writes) reaches the child as exactly one line. */
  lemma PayloadIsOneLine(serialized: string)
    requires forall i :: 0 <= i < |serialized| ==> serialized[i] != '\n'
    ensures var r := StdinPayload(serialized);
      forall i :: 0 <= i < |r| ==> (r[i] == '\n' <==> i == |r| - 1)
  {
  }

  /** `${code}` for the exit code `'close'` reports; it is `null` when a signal ended the child. */
  function CodeText(code: Option<int>): (r: string)
    ensures code.None? ==> r == "null"
    ensures code.Some? ==> |r| >= 1 && (if r[0] == '-' then AllDigits(r[1..]) else AllDigits(r)) && IntValue(r) == code.value
  {
    match code
    case None => "null"
    case Some(n) => IntToDecimalRoundTrip(n); IntToDecimal(n)
  }

  /** The `'close'` handler: fails when the exit code is not 0 or anything reached standard error. */
  function CloseOutcome(code: Option<int>, stdout: string, stderr: string): (r: Reply)
    ensures r.status == 500 <==> code != Some(0) || stderr != ""
    ensures r.status != 500 ==> r == Reply(200, stdout)
    ensures r.status == 500 ==> StartsWith(r.text, ErrorHeader) && EndsWith(r.text, CapturedLabel + stdout)
  {
    if code != Some(0) || stderr != "" then
      var message := if stderr != "" then stderr else ExitedPrefix + CodeText(code);
      Reply(500, ErrorHeader + message + CapturedLabel + stdout)
    else
      Reply(200, stdout)
  }

  /** Standard error takes precedence over the exit code, even a code of 0, and its text is the message. */
  lemma StderrIsTheMessage(code: Option<int>, stdout: string, stderr: string)
    requires stderr != ""
    ensures CloseOutcome(code, stdout, stderr) == Reply(500, ErrorHeader + stderr + CapturedLabel + stdout)
  {
  }

  /** A non-zero exit with nothing on standard error names the code, which reads back from the message. */
  lemma ExitCodeIsReported(n: int, stdout: string)
    requires n != 0
    ensures var digits := IntToDecimal(n);
      && CloseOutcome(Some(n), stdout, "") == Reply(500, ErrorHeader + ExitedPrefix + digits + CapturedLabel + stdout)
      && IntValue(digits) == n
  {
    IntToDecimalRoundTrip(n);
  }

  /** A child ended by a signal reports the code `null`, and the message says so. */
  lemma NullCodeIsReported(stdout: string)
    ensures CloseOutcome(None, stdout, "")
      == Reply(500, ErrorHeader + "Python script exited with code null" + CapturedLabel + stdout)
  {
    assert ExitedPrefix + "null" == "Python script exited with code null";
  }

  /** The example of a child exiting with code 3 and a silent standard error. */
  lemma ExitThreeExample(stdout: string)
    ensures CloseOutcome(Some(3), stdout, "").text
      == ErrorHeader + "Python script exited with code 3" + CapturedLabel + stdout
  {
    assert IntToDecimal(3) == "3";
    assert ExitedPrefix + "3" == "Python script exited with code 3";
  }

  /** The two output streams of the child. */
  datatype Stream = Stdout | Stderr

  /** One `'data'` event: a chunk, already decoded with `toString()`, on one stream. */
  datatype StreamEvent = Data(stream: Stream, chunk: string)

  /** The chunks that arrived on `stream`, in arrival order. */
  function Chunks(events: seq<StreamEvent>, stream: Stream): seq<string>
  {
    if events == [] then []
    else
      var last := events[|events| - 1];
      Chunks(events[..|events| - 1], stream) + (if last.stream == stream then [last.chunk] else [])
  }

  lemma {:induction false} ChunksAppend(a: seq<StreamEvent>, b: seq<StreamEvent>, stream: Stream)
    ensures Chunks(a + b, stream) == Chunks(a, stream) + Chunks(b, stream)
  {
    if b != [] {
      assert (a + b)[..|a + b| - 1] == a + b[..|b| - 1];
      ChunksAppend(a, b[..|b| - 1], stream);
    } else {
      assert a + b == a;
    }
  }

  /** The `stdout` and `stderr` variables of the handler, each only ever extended with `+=`. */
  class CapturedOutput {
    var stdout: string
    var stderr: string
    ghost var stdoutChunks: seq<string>
    ghost var stderrChunks: seq<string>

    /** Each buffer is the concatenation of the chunks it received, in order. */
    ghost predicate Valid()
      reads this
    {
      stdout == Concat(stdoutChunks) && stderr == Concat(stderrChunks)
    }

    constructor ()
      ensures Valid()
      ensures stdoutChunks == [] && stderrChunks == []
      ensures stdout == "" && stderr == ""
    {
      stdout, stderr := "", "";
      stdoutChunks, stderrChunks := [], [];
    }

    /** `stdout += chunk`; the other buffer does not change. */
    method AppendStdout(chunk: string)
      requires Valid()
      modifies this
      ensures Valid()
      ensures stdoutChunks == old(stdoutChunks) + [chunk] && stdout == old(stdout) + chunk
      ensures stderrChunks == old(stderrChunks) && stderr == old(stderr)
    {
      ConcatAppend(stdoutChunks, [chunk]);
      stdout := stdout + chunk;
      stdoutChunks := stdoutChunks + [chunk];
    }

    /** `stderr += chunk`; the other buffer does not change. */
    method AppendStderr(chunk: string)
      requires Valid()
      modifies this
      ensures Valid()
      ensures stderrChunks == old(stderrChunks) + [chunk] && stderr == old(stderr) + chunk
      ensures stdoutChunks == old(stdoutChunks) && stdout == old(stdout)
    {
      ConcatAppend(stderrChunks, [chunk]);
      stderr := stderr + chunk;
      stderrChunks := stderrChunks + [chunk];
    }
  }

  /**
   * Runs the two `'data'` listeners over the events in the order they
   * arrive: each buffer ends up the concatenation of its own stream's
   * chunks, whatever the interleaving of the two streams.
   */
  method Capture(events: seq<StreamEvent>) returns (stdout: string, stderr: string)
    ensures stdout == Concat(Chunks(events, Stdout))
    ensures stderr == Concat(Chunks(events, Stderr))
  {
    var buffers := new CapturedOutput();
    for k := 0 to |events|
      invariant buffers.Valid()
      invariant buffers.stdoutChunks == Chunks(events[..k], Stdout)
      invariant buffers.stderrChunks == Chunks(events[..k], Stderr)
    {
      assert events[..k + 1][..k] == events[..k];
      match events[k].stream
      case Stdout => buffers.AppendStdout(events[k].chunk);
      case Stderr => buffers.AppendStderr(events[k].chunk);
    }
    assert events[..|events|] == events;
    stdout, stderr := buffers.stdout, buffers.stderr;
  }

  /** Output that arrives later only ever extends what the buffers already hold. */
  lemma CaptureIsAppendOnly(a: seq<StreamEvent>, b: seq<StreamEvent>, stream: Stream)
    ensures Concat(Chunks(a + b, stream)) == Concat(Chunks(a, stream)) + Concat(Chunks(b, stream))
  {
    ChunksAppend(a, b, stream);
    ConcatAppend(Chunks(a, stream), Chunks(b, stream));
  }

  /** How the child ended: `'close'` with its exit code (`None` for `null`), or `'error'` because it could not be started. */
  datatype Termination = Closed(code: Option<int>) | StartFailed(message: string)

  /** The child started for a valid request: the interpreter, its arguments and everything written to its standard input. */
  datatype Child = Child(command: string, args: seq<string>, stdin: string)

  /** One request to the route: the child it started, if any, and the answer. */
  datatype QuizRun = QuizRun(child: Option<Child>, reply: Reply)

  /**
   * The whole handler. Validation comes first (400), then interpreter
   * discovery (500), and only then is a child started, with the serialised
   * answers and a line break on its standard input; its answer is the
   * close rule applied to the collected buffers.
   */
  method RunQuiz(answers: Value, probe: string -> bool, stringify: Json -> string, script: string,
                 events: seq<StreamEvent>, termination: Termination) returns (run: QuizRun)
    ensures !HasFiveAnswers(answers) ==> run == QuizRun(None, Reply(400, InvalidInputMessage))
    ensures HasFiveAnswers(answers) && Interpreter.FirstResponding(Interpreter.Candidates, probe).None? ==>
      run == QuizRun(None, Reply(500, NotFoundMessage))
    ensures var found := Interpreter.FirstResponding(Interpreter.Candidates, probe);
      HasFiveAnswers(answers) && found.Some? ==>
        && run.child == Some(Child(found.value, [script], stringify(answers.value) + "\n"))
        && run.reply == match termination
             case StartFailed(message) => Reply(500, StartFailurePrefix + message)
             case Closed(code) => CloseOutcome(code, Concat(Chunks(events, Stdout)), Concat(Chunks(events, Stderr)))
  {
    if !HasFiveAnswers(answers) {
      return QuizRun(None, Reply(400, InvalidInputMessage));
    }
    var python := Interpreter.DetectPython(probe);
    if python.None? {
      return QuizRun(None, Reply(500, NotFoundMessage));
    }
    var payload := StdinPayload(stringify(answers.value));
    var stdout, stderr := Capture(events);
    var reply := match termination
      case StartFailed(message) => Reply(500, StartFailurePrefix + message)
      case Closed(code) => CloseOutcome(code, stdout, stderr);
    return QuizRun(Some(Child(python.value, [script], payload)), reply);
  }
}
