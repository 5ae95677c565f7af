/** The persistent transcription server's protocol (scripts/transcribe.py,
    `load_wav` and `main`): the WAV header checks and the loop that answers
    one JSON line per request. Parsing JSON, reading the WAV file and
    transcribing are parameters: `parse` gives `None` where `json.loads`
    raises, and `run` gives the text or the message of the exception the
    transcription raised. */
module Server {
  import opened Basics
  import opened Text
  import opened JsonValues

  // ---------------------------------------------------------------------------
  // WAV header
  // ---------------------------------------------------------------------------

  datatype WavHeader = WavHeader(channels: nat, sampleWidth: nat, frameRate: nat)

  datatype WavError = NotMono(channels: nat) | NotSixteenBit(bits: nat) | NotSixteenKilohertz(rate: nat)

  /** The three checks of `load_wav`, in order; the first that fails is the
      error. */
  function CheckWavHeader(h: WavHeader): (r: Option<WavError>)
    ensures r.None? <==> h.channels == 1 && h.sampleWidth == 2 && h.frameRate == 16000
    ensures r == Some(NotMono(h.channels)) <==> h.channels != 1
    ensures r.Some? && r.value.NotSixteenBit? ==> h.channels == 1 && r.value.bits == 8 * h.sampleWidth
    ensures h.channels == 1 && h.sampleWidth != 2 ==> r == Some(NotSixteenBit(8 * h.sampleWidth))
    ensures h.channels == 1 && h.sampleWidth == 2 && h.frameRate != 16000 ==> r == Some(NotSixteenKilohertz(h.frameRate))
  {
    if h.channels != 1 then Some(NotMono(h.channels))
    else if h.sampleWidth != 2 then Some(NotSixteenBit(h.sampleWidth * 8))
    else if h.frameRate != 16000 then Some(NotSixteenKilohertz(h.frameRate))
    else None
  }

  // ---------------------------------------------------------------------------
  // Request loop
  // ---------------------------------------------------------------------------

  datatype ErrorKind =
    | InvalidJson
    | UnknownCommand(cmd: Json)
    | MissingWav
    | Failure(message: string)

  /** One JSON line on standard output. */
  datatype Response = Ready | TextOut(text: string) | ErrorOut(error: ErrorKind)

  /** How the loop ends: standard input runs out, a `quit` command arrives,
      or a request that is valid JSON but not an object raises outside the
      `try` (`"cmd" in request` / `request.get`). */
  datatype Outcome = EndOfInput | Quit | Crashed

  /** What one input line does. */
  datatype Step = Skip | Respond(response: Response) | Stop | Crash

  /** The body of the loop for one line. */
  function StepOf(line: string, parse: string -> Option<Json>,
                  run: (Json, Json) -> Result<string, string>): (s: Step)
    ensures s.Skip? <==> Strip(line) == []
    ensures Strip(line) != [] && parse(Strip(line)).None? ==> s == Respond(ErrorOut(InvalidJson))
  {
    var text := Strip(line);
    if text == [] then Skip
    else match parse(text)
      case None => Respond(ErrorOut(InvalidJson))
      case Some(request) => RequestStep(request, run)
  }

  /** What a line holding valid JSON does. */
  function RequestStep(request: Json, run: (Json, Json) -> Result<string, string>): (s: Step)
    ensures !s.Skip?
    ensures s.Crash? <==> !request.Obj?
    ensures s.Stop? <==> request.Obj? && "cmd" in request.fields && request.fields["cmd"] == Str("quit")
  {
    if !request.Obj? then Crash
    else
      var fields := request.fields;
      if "cmd" in fields then
        if fields["cmd"] == Str("ping") then Respond(Ready)
        else if fields["cmd"] == Str("quit") then Stop
        else Respond(ErrorOut(UnknownCommand(fields["cmd"])))
      else
        var wav := Get(fields, "wav", Null);
        var language := Get(fields, "language", Str("English"));
        if !Truthy(wav) then Respond(ErrorOut(MissingWav))
        else match run(wav, language)
          case Ok(t) => Respond(TextOut(t))
          case Err(message) => Respond(ErrorOut(Failure(message)))
  }

  /** The step of every line. */
  function Steps(lines: seq<string>, parse: string -> Option<Json>,
                 run: (Json, Json) -> Result<string, string>): (r: seq<Step>)
    ensures |r| == |lines|
  {
    if lines == [] then []
    else Steps(lines[..|lines| - 1], parse, run) + [StepOf(lines[|lines| - 1], parse, run)]
  }

  lemma {:induction false} StepsAt(lines: seq<string>, parse: string -> Option<Json>,
                                   run: (Json, Json) -> Result<string, string>, i: nat)
    requires i < |lines|
    ensures Steps(lines, parse, run)[i] == StepOf(lines[i], parse, run)
  {
    if i < |lines| - 1 {
      StepsAt(lines[..|lines| - 1], parse, run, i);
    }
  }

  lemma {:induction false} StepsPrefix(lines: seq<string>, parse: string -> Option<Json>,
                                       run: (Json, Json) -> Result<string, string>, n: nat)
    requires n <= |lines|
    ensures Steps(lines, parse, run)[..n] == Steps(lines[..n], parse, run)
    decreases |lines|
  {
    if n < |lines| {
      StepsPrefix(lines[..|lines| - 1], parse, run, n);
      assert lines[..|lines| - 1][..n] == lines[..n];
    } else {
      assert lines[..n] == lines;
    }
  }

  predicate Ends(s: Step)
  {
    s.Stop? || s.Crash?
  }

  /** The number of lines the loop reads before it stops (all of them when
      it never does). */
  function StopAt(steps: seq<Step>): (k: nat)
    ensures k <= |steps|
    ensures forall i :: 0 <= i < k ==> !Ends(steps[i])
    ensures k < |steps| ==> Ends(steps[k])
  {
    if steps == [] then 0
    else if Ends(steps[0]) then 0
    else 1 + StopAt(steps[1..])
  }

  /** The responses of steps none of which stops the loop. */
  function ResponsesOf(steps: seq<Step>): (r: seq<Response>)
  {
    if steps == [] then []
    else
      var s := steps[|steps| - 1];
      ResponsesOf(steps[..|steps| - 1]) + (if s.Respond? then [s.response] else [])
  }

  function OutcomeOf(steps: seq<Step>): (r: Outcome)
  {
    var k := StopAt(steps);
    if k == |steps| then EndOfInput
    else if steps[k].Stop? then Quit
    else Crashed
  }

  /** `main` after the model is loaded: announce readiness, then answer line
      by line until input ends, `quit` arrives or a request crashes it. */
  method Serve(lines: seq<string>, parse: string -> Option<Json>,
               run: (Json, Json) -> Result<string, string>)
    returns (out: seq<Response>, outcome: Outcome)
    ensures var steps := Steps(lines, parse, run);
            && out == [Ready] + ResponsesOf(steps[..StopAt(steps)])
            && outcome == OutcomeOf(steps)
  {
    ghost var steps := Steps(lines, parse, run);
    out := [Ready];
    outcome := EndOfInput;
    var i := 0;
    while i < |lines|
      invariant i <= StopAt(steps)
      invariant out == [Ready] + ResponsesOf(steps[..i])
    {
      var step := HandleLine(lines[i], parse, run);
      StepsAt(lines, parse, run, i);
      assert step == steps[i];
      if step.Stop? || step.Crash? {
        assert StopAt(steps) == i;
        outcome := if step.Stop? then Quit else Crashed;
        return;
      }
      assert steps[..i + 1][..i] == steps[..i];
      if step.Respond? {
        out := out + [step.response];
      }
      i := i + 1;
    }
    assert StopAt(steps) == i;
    assert steps[..i] == steps;
  }

  /** The body of the loop for one line, in the order the source takes its
      decisions. */
  method HandleLine(line: string, parse: string -> Option<Json>,
                    run: (Json, Json) -> Result<string, string>) returns (step: Step)
    ensures step == StepOf(line, parse, run)
  {
    var text := Strip(line);
    if text == [] {
      return Skip;
    }
    var parsed := parse(text);
    if parsed.None? {
      return Respond(ErrorOut(InvalidJson));
    }
    var request := parsed.value;
    if !request.Obj? {
      return Crash;
    }
    if "cmd" in request.fields {
      var cmd := request.fields["cmd"];
      if cmd == Str("ping") {
        return Respond(Ready);
      } else if cmd == Str("quit") {
        return Stop;
      } else {
        return Respond(ErrorOut(UnknownCommand(cmd)));
      }
    }
    var wav := Get(request.fields, "wav", Null);
    var language := Get(request.fields, "language", Str("English"));
    if !Truthy(wav) {
      return Respond(ErrorOut(MissingWav));
    }
    match run(wav, language) {
      case Ok(t) => step := Respond(TextOut(t));
      case Err(message) => step := Respond(ErrorOut(Failure(message)));
    }
  }

  /** A line is skipped exactly when it is blank once stripped. */
  lemma SkipIffBlank(line: string, parse: string -> Option<Json>,
                     run: (Json, Json) -> Result<string, string>)
    ensures StepOf(line, parse, run).Skip? <==> Strip(line) == []
  {
  }

  /** Lines that are blank once stripped. */
  function CountNonBlank(lines: seq<string>): (r: nat)
  {
    if lines == [] then 0
    else CountNonBlank(lines[..|lines| - 1]) + (if Strip(lines[|lines| - 1]) == [] then 0 else 1)
  }

  /** Before the loop stops, every non-blank line gets exactly one response
      (an error for invalid JSON, an unknown command, a missing `wav` or a
      failed transcription, and the loop goes on), and blank lines get none.
      `Continues` says which lines keep the loop going. */
  lemma {:induction false} OneResponsePerLine(lines: seq<string>, parse: string -> Option<Json>,
                                              run: (Json, Json) -> Result<string, string>)
    requires forall i :: 0 <= i < |lines| ==> !Ends(StepOf(lines[i], parse, run))
    ensures |ResponsesOf(Steps(lines, parse, run))| == CountNonBlank(lines)
  {
    if lines != [] {
      var init := lines[..|lines| - 1];
      OneResponsePerLine(init, parse, run);
      SkipIffBlank(lines[|lines| - 1], parse, run);
      assert Steps(lines, parse, run)[..|lines| - 1] == Steps(init, parse, run);
    }
  }

  /** Nothing after a `quit` line is read or answered, and `quit` itself gets
      no answer. */
  lemma {:induction false} QuitEndsTheLoop(pre: seq<string>, quit: string, post: seq<string>,
                                           parse: string -> Option<Json>,
                                           run: (Json, Json) -> Result<string, string>)
    requires forall i :: 0 <= i < |pre| ==> !Ends(StepOf(pre[i], parse, run))
    requires StepOf(quit, parse, run).Stop?
    ensures var steps := Steps(pre + [quit] + post, parse, run);
            && StopAt(steps) == |pre|
            && OutcomeOf(steps) == Quit
            && steps[..|pre|] == Steps(pre, parse, run)
  {
    var lines := pre + [quit] + post;
    var steps := Steps(lines, parse, run);
    StepsAt(lines, parse, run, |pre|);
    assert lines[|pre|] == quit;
    forall i | 0 <= i < |pre|
      ensures !Ends(steps[i])
    {
      StepsAt(lines, parse, run, i);
      assert lines[i] == pre[i];
    }
    StepsPrefix(lines, parse, run, |pre|);
    assert lines[..|pre|] == pre;
  }

  /** `{"cmd": "ping"}` is answered with `{"status": "ready"}`; `{"cmd": "quit"}`
      stops the loop; any other command is an error. */
  lemma Commands(line: string, parse: string -> Option<Json>,
                 run: (Json, Json) -> Result<string, string>, m: map<string, Json>)
    requires Strip(line) != [] && parse(Strip(line)) == Some(Obj(m)) && "cmd" in m
    ensures m["cmd"] == Str("ping") <==> StepOf(line, parse, run) == Respond(Ready)
    ensures m["cmd"] == Str("quit") <==> StepOf(line, parse, run) == Stop
    ensures m["cmd"] != Str("ping") && m["cmd"] != Str("quit") ==>
              StepOf(line, parse, run) == Respond(ErrorOut(UnknownCommand(m["cmd"])))
  {
  }

  /** A transcription request (an object without `cmd`): a missing or falsy
      `wav` is an error, otherwise the transcription's text or its failure
      is the answer; either way the loop goes on. */
  lemma WavRequests(line: string, parse: string -> Option<Json>,
                    run: (Json, Json) -> Result<string, string>, m: map<string, Json>)
    requires Strip(line) != [] && parse(Strip(line)) == Some(Obj(m)) && "cmd" !in m
    ensures !Truthy(Get(m, "wav", Null)) ==> StepOf(line, parse, run) == Respond(ErrorOut(MissingWav))
    ensures Truthy(Get(m, "wav", Null)) ==>
              var result := run(Get(m, "wav", Null), Get(m, "language", Str("English")));
              StepOf(line, parse, run) == (match result
                                           case Ok(t) => Respond(TextOut(t))
                                           case Err(message) => Respond(ErrorOut(Failure(message))))
    ensures !Ends(StepOf(line, parse, run))
  {
  }

  /** Only two kinds of line end the loop: a request that is valid JSON but
      not an object crashes it, and a `quit` command stops it. */
  lemma EndsIff(line: string, parse: string -> Option<Json>,
                run: (Json, Json) -> Result<string, string>)
    ensures StepOf(line, parse, run).Crash? <==>
              Strip(line) != [] && parse(Strip(line)).Some? && !parse(Strip(line)).value.Obj?
    ensures StepOf(line, parse, run).Stop? <==>
              Strip(line) != [] && parse(Strip(line)).Some? && parse(Strip(line)).value.Obj? &&
              "cmd" in parse(Strip(line)).value.fields &&
              parse(Strip(line)).value.fields["cmd"] == Str("quit")
  {
  }

  /** A line that keeps the loop going: blank, not JSON, or an object that
      is not a `quit` command. */
  predicate Continues(line: string, parse: string -> Option<Json>)
  {
    var text := Strip(line);
    text == [] || parse(text).None? ||
    (parse(text).value.Obj? &&
     !("cmd" in parse(text).value.fields && parse(text).value.fields["cmd"] == Str("quit")))
  }

  /** When every line keeps the loop going, the server reads all of them,
      answers each non-blank one exactly once, and ends at end of input. */
  lemma AllAnswered(lines: seq<string>, parse: string -> Option<Json>,
                    run: (Json, Json) -> Result<string, string>)
    requires forall i :: 0 <= i < |lines| ==> Continues(lines[i], parse)
    ensures var steps := Steps(lines, parse, run);
            && StopAt(steps) == |lines|
            && |ResponsesOf(steps[..StopAt(steps)])| == CountNonBlank(lines)
            && OutcomeOf(steps) == EndOfInput
  {
    var steps := Steps(lines, parse, run);
    forall i | 0 <= i < |lines|
      ensures !Ends(StepOf(lines[i], parse, run))
    {
      EndsIff(lines[i], parse, run);
    }
    forall i | 0 <= i < |lines|
      ensures !Ends(steps[i])
    {
      StepsAt(lines, parse, run, i);
    }
    OneResponsePerLine(lines, parse, run);
    assert steps[..|lines|] == steps;
  }
}
