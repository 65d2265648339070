/**
 Running a script's steps (src/ssh/script_runner.rs) and turning what happens into lines
 (src/session.rs, src/tui/script_run.rs).

 What the server answers to each step is a parameter.
 */
module ScriptRunner {
  import opened Wrappers
  import opened Text
  import opened Utf8
  import opened ScriptVars

  const STEP_TIMEOUT: nat := 120

  const TIMEOUT_EXIT_CODE: int := 124

  /** What running one command came to.  It can only fail before it has said anything. */
  datatype Reply =
    | Finished(chunks: seq<seq<Byte>>, exitCode: int)
    | TimedOut(chunks: seq<seq<Byte>>)
    | Failed(message: string)

  datatype StepStatus = Ran(exitCode: int, output: string) | Skipped

  datatype RunEvent =
    | StepStarted(index: nat, command: string)
    | Output(index: nat, chunk: seq<Byte>)
    | StepFinished(index: nat, exitCode: int)
    | StepSkipped(index: nat)
    | StepError(index: nat, message: string)
    | StepTimedOut(index: nat, seconds: nat)

  predicate ShouldRun(condition: StepCondition, prev: Option<StepStatus>) {
    match condition
    case Always => true
    case OnSuccess => prev.Some? && prev.value.Ran? && prev.value.exitCode == 0
    case OnFailure => prev.Some? && prev.value.Ran? && prev.value.exitCode != 0
    case OutputContains(needle) => prev.Some? && prev.value.Ran? && Contains(prev.value.output, needle)
  }

  /** Whether step `i` runs, given what came of the step before it. */
  predicate Runs(steps: seq<ScriptStep>, results: seq<StepStatus>, i: nat)
    requires i < |steps| && i <= |results|
  {
    i == 0 || ShouldRun(steps[i].condition, Some(results[i - 1]))
  }

  function StatusOf(reply: Reply): StepStatus {
    match reply
    case Finished(chunks, exitCode) => Ran(exitCode, Lossy(Flat(chunks)))
    case TimedOut(chunks) => Ran(TIMEOUT_EXIT_CODE, Lossy(Flat(chunks)))
    case Failed(_) => Skipped
  }

  function Outputs(i: nat, chunks: seq<seq<Byte>>): (events: seq<RunEvent>)
    ensures |events| == |chunks|
  {
    seq(|chunks|, k requires 0 <= k < |chunks| => Output(i, chunks[k]))
  }

  function ChunksOf(reply: Reply): seq<seq<Byte>> {
    if reply.Failed? then [] else reply.chunks
  }

  function Ending(i: nat, step: ScriptStep, reply: Reply): RunEvent {
    match reply
    case Finished(_, exitCode) => StepFinished(i, exitCode)
    case TimedOut(_) => StepTimedOut(i, if step.timeoutSecs.Some? then step.timeoutSecs.value else STEP_TIMEOUT)
    case Failed(message) => StepError(i, message)
  }

  /** What is reported of one step: one skip, or a start, the output, and one ending. */
  function EventsOf(i: nat, step: ScriptStep, runs: bool, reply: Reply): seq<RunEvent> {
    if !runs then [StepSkipped(i)]
    else [StepStarted(i, step.command)] + Outputs(i, ChunksOf(reply)) + [Ending(i, step, reply)]
  }

  ghost predicate ResultsMatch(steps: seq<ScriptStep>, replies: nat -> Reply, results: seq<StepStatus>) {
    && |results| <= |steps|
    && forall i :: 0 <= i < |results| ==>
      results[i] == if Runs(steps, results, i) then StatusOf(replies(i)) else Skipped
  }

  ghost function TraceOf(steps: seq<ScriptStep>, replies: nat -> Reply, results: seq<StepStatus>, n: nat): seq<RunEvent>
    requires n <= |results| <= |steps|
  {
    if n == 0 then []
    else
      TraceOf(steps, replies, results, n - 1)
      + EventsOf(n - 1, steps[n - 1], Runs(steps, results, n - 1), replies(n - 1))
  }

  lemma {:induction false} TraceIsLocal(steps: seq<ScriptStep>, replies: nat -> Reply, results: seq<StepStatus>,
      more: StepStatus, n: nat)
    requires n <= |results| < |steps|
    ensures TraceOf(steps, replies, results + [more], n) == TraceOf(steps, replies, results, n)
  {
    hide EventsOf, ShouldRun;
    if n > 0 {
      TraceIsLocal(steps, replies, results, more, n - 1);
    }
  }

  lemma TraceMore(steps: seq<ScriptStep>, replies: nat -> Reply, results: seq<StepStatus>, status: StepStatus)
    requires |results| < |steps|
    ensures var n := |results|;
      TraceOf(steps, replies, results + [status], n + 1)
      == TraceOf(steps, replies, results, n) + EventsOf(n, steps[n], Runs(steps, results, n), replies(n))
  {
    hide EventsOf, ShouldRun;
    TraceIsLocal(steps, replies, results, status, |results|);
  }

  lemma NothingReported(steps: seq<ScriptStep>, replies: nat -> Reply)
    ensures TraceOf(steps, replies, [], 0) == []
  {
  }

  method RunStep(index: nat, step: ScriptStep, runs: bool, reply: Reply)
    returns (status: StepStatus, events: seq<RunEvent>)
    ensures status == if runs then StatusOf(reply) else Skipped
    ensures events == EventsOf(index, step, runs, reply)
  {
    if !runs {
      return Skipped, [StepSkipped(index)];
    }
    events := [StepStarted(index, step.command)];
    var timeout := if step.timeoutSecs.Some? then step.timeoutSecs.value else STEP_TIMEOUT;
    match reply {
      case Finished(chunks, exitCode) =>
        events := events + Outputs(index, chunks) + [StepFinished(index, exitCode)];
        status := Ran(exitCode, Lossy(Flat(chunks)));
      case TimedOut(chunks) =>
        events := events + Outputs(index, chunks) + [StepTimedOut(index, timeout)];
        status := Ran(TIMEOUT_EXIT_CODE, Lossy(Flat(chunks)));
      case Failed(message) =>
        events := events + [StepError(index, message)];
        status := Skipped;
    }
  }

  method RunScript(steps: seq<ScriptStep>, replies: nat -> Reply)
    returns (results: seq<StepStatus>, events: seq<RunEvent>)
    ensures |results| == |steps| && ResultsMatch(steps, replies, results)
    ensures events == TraceOf(steps, replies, results, |steps|)
  {
    hide EventsOf, StatusOf, ShouldRun, TraceOf;
    NothingReported(steps, replies);
    results, events := [], [];
    var index := 0;
    while index < |steps|
      invariant index <= |steps| && |results| == index
      invariant ResultsMatch(steps, replies, results)
      invariant events == TraceOf(steps, replies, results, index)
    {
      var status, reported := RunStep(index, steps[index], index == 0
          || ShouldRun(steps[index].condition, Some(results[index - 1])), replies(index));
      events := events + reported;
      TraceMore(steps, replies, results, status);
      results := results + [status];
      index := index + 1;
    }
  }

  // ---------------------------------------------------------------- what a run can look like

  /** After a skipped or failed step everything is skipped until a step that always runs, and the
      skipped steps are reported as nothing else. */
  lemma {:induction false} SkipsCascade(steps: seq<ScriptStep>, replies: nat -> Reply, results: seq<StepStatus>,
      i: nat, j: nat)
    requires |results| == |steps| && ResultsMatch(steps, replies, results)
    requires i < j < |steps| && results[i].Skipped?
    requires forall k :: i < k <= j ==> !steps[k].condition.Always?
    ensures results[j].Skipped? && !Runs(steps, results, j)
    decreases j
  {
    if i < j - 1 {
      SkipsCascade(steps, replies, results, i, j - 1);
    }
  }

  /** A timeout is a failure, not a skip: what follows on failure runs, and what it said before the
      timeout can still be matched. */
  lemma TimeoutsAreFailures(steps: seq<ScriptStep>, replies: nat -> Reply, results: seq<StepStatus>, i: nat)
    requires |results| == |steps| && ResultsMatch(steps, replies, results)
    requires i + 1 < |steps| && Runs(steps, results, i) && replies(i).TimedOut?
    ensures results[i] == Ran(124, Lossy(Flat(replies(i).chunks)))
    ensures steps[i + 1].condition.OnFailure? ==> Runs(steps, results, i + 1)
    ensures steps[i + 1].condition.OnSuccess? ==> results[i + 1].Skipped?
  {
  }

  ghost predicate Started(events: seq<RunEvent>, i: nat) {
    exists command :: StepStarted(i, command) in events
  }

  /** When a step runs, from what its predecessor came to.  A step that does not is skipped. */
  lemma WhenAStepStarts(steps: seq<ScriptStep>, replies: nat -> Reply, results: seq<StepStatus>, i: nat)
    requires |results| == |steps| && ResultsMatch(steps, replies, results) && i < |steps|
    ensures var started := Started(TraceOf(steps, replies, results, |steps|), i);
            && (i == 0 || steps[i].condition.Always? ==> started)
            && (i > 0 && steps[i].condition.OnSuccess? ==>
                  (started <==> results[i - 1].Ran? && results[i - 1].exitCode == 0))
            && (i > 0 && steps[i].condition.OnFailure? ==>
                  (started <==> results[i - 1].Ran? && results[i - 1].exitCode != 0))
            && (i > 0 && steps[i].condition.OutputContains? ==>
                  (started <==> results[i - 1].Ran? && Occurs(results[i - 1].output, steps[i].condition.needle)))
            && (started ==> StepStarted(i, steps[i].command) in TraceOf(steps, replies, results, |steps|))
            && (!started ==> results[i].Skipped?)
  {
    hide TraceOf, Find;
    StartedWhenItRuns(steps, replies, results, i);
    assert i > 0 && steps[i].condition.OutputContains? && results[i - 1].Ran? ==>
        (Contains(results[i - 1].output, steps[i].condition.needle)
         <==> Occurs(results[i - 1].output, steps[i].condition.needle));
  }

  lemma StartedWhenItRuns(steps: seq<ScriptStep>, replies: nat -> Reply, results: seq<StepStatus>, i: nat)
    requires |results| == |steps| && i < |steps|
    ensures var trace := TraceOf(steps, replies, results, |steps|);
            && (Started(trace, i) <==> Runs(steps, results, i))
            && (Started(trace, i) ==> StepStarted(i, steps[i].command) in trace)
  {
    hide TraceOf, About, EventsOf, Runs;
    EachStepIsReportedOnce(steps, replies, results, |steps|, i);
    var trace := TraceOf(steps, replies, results, |steps|);
    var runs := Runs(steps, results, i);
    forall command: string ensures StepStarted(i, command) in trace <==> runs && command == steps[i].command {
      AboutMember(trace, i, StepStarted(i, command));
      StartedIsReported(i, steps[i], runs, replies(i), command);
    }
    assert runs ==> StepStarted(i, steps[i].command) in trace;
  }

  lemma StartedIsReported(i: nat, step: ScriptStep, runs: bool, reply: Reply, command: string)
    ensures StepStarted(i, command) in EventsOf(i, step, runs, reply) <==> runs && command == step.command
  {
  }

  lemma {:induction false} AboutMember(events: seq<RunEvent>, i: nat, event: RunEvent)
    requires event.index == i
    ensures event in About(events, i) <==> event in events
  {
    if events != [] {
      AboutMember(events[..|events| - 1], i, event);
      assert events == events[..|events| - 1] + [events[|events| - 1]];
    }
  }

  /** What a step that started comes to: its exit code and all its output, a timeout as 124, and a
      channel that failed as a skip. */
  lemma WhatAStepComesTo(steps: seq<ScriptStep>, replies: nat -> Reply, results: seq<StepStatus>, i: nat)
    requires |results| == |steps| && ResultsMatch(steps, replies, results) && i < |steps|
    requires Started(TraceOf(steps, replies, results, |steps|), i)
    ensures var reply, reported := replies(i), About(TraceOf(steps, replies, results, |steps|), i);
            && reported != []
            && var ending := reported[|reported| - 1];
               && (reply.Finished? ==>
                     && results[i] == Ran(reply.exitCode, Lossy(Flat(reply.chunks)))
                     && ending == StepFinished(i, reply.exitCode))
               && (reply.TimedOut? ==>
                     && results[i] == Ran(124, Lossy(Flat(reply.chunks)))
                     && ending == StepTimedOut(i, if steps[i].timeoutSecs.Some? then steps[i].timeoutSecs.value
                                                  else 120))
               && (reply.Failed? ==> results[i] == Skipped && ending == StepError(i, reply.message))
  {
    hide TraceOf, About, Lossy, Flat, ShouldRun;
    EachStepIsReportedOnce(steps, replies, results, |steps|, i);
    StartedWhenItRuns(steps, replies, results, i);
  }

  function About(events: seq<RunEvent>, i: nat): seq<RunEvent> {
    if events == [] then []
    else About(events[..|events| - 1], i) + if events[|events| - 1].index == i then [events[|events| - 1]] else []
  }

  lemma {:induction false} AboutConcat(a: seq<RunEvent>, b: seq<RunEvent>, i: nat)
    ensures About(a + b, i) == About(a, i) + About(b, i)
  {
    if b == [] {
      assert a + b == a;
    } else {
      assert (a + b)[..|a + b| - 1] == a + b[..|b| - 1];
      AboutConcat(a, b[..|b| - 1], i);
    }
  }

  lemma {:induction false} AboutOwn(events: seq<RunEvent>, j: nat, i: nat)
    requires forall k :: 0 <= k < |events| ==> events[k].index == j
    ensures About(events, i) == if i == j then events else []
  {
    if events != [] {
      AboutOwn(events[..|events| - 1], j, i);
    }
  }

  /** Picked out of the whole trace, what is reported of a step is one skip, or a start, its output
      and one ending, and nothing else. */
  lemma {:induction false} EachStepIsReportedOnce(steps: seq<ScriptStep>, replies: nat -> Reply,
      results: seq<StepStatus>, n: nat, i: nat)
    requires n <= |results| <= |steps|
    ensures About(TraceOf(steps, replies, results, n), i)
         == if i < n then EventsOf(i, steps[i], Runs(steps, results, i), replies(i)) else []
  {
    hide About, ShouldRun, EventsOf;
    if n == 0 {
      assert About([], i) == [] by { AboutOwn([], i, i); }
    } else {
      var events := EventsOf(n - 1, steps[n - 1], Runs(steps, results, n - 1), replies(n - 1));
      EachStepIsReportedOnce(steps, replies, results, n - 1, i);
      AboutConcat(TraceOf(steps, replies, results, n - 1), events, i);
      EventsCarryTheirStep(n - 1, steps[n - 1], Runs(steps, results, n - 1), replies(n - 1));
      AboutOwn(events, n - 1, i);
    }
  }

  lemma EventsCarryTheirStep(i: nat, step: ScriptStep, runs: bool, reply: Reply)
    ensures forall k :: 0 <= k < |EventsOf(i, step, runs, reply)| ==> EventsOf(i, step, runs, reply)[k].index == i
  {
  }

  /** Expanding placeholders does not change what a script does next: on the same answers the same
      steps run and are skipped, whatever the values put in. */
  lemma ExpansionDoesNotDecide(vars: Vars, script: Script, replies: nat -> Reply, results: seq<StepStatus>)
    ensures ResultsMatch(ExpandScript(vars, script).steps, replies, results)
            <==> ResultsMatch(script.steps, replies, results)
  {
    hide ShouldRun, StatusOf;
    var steps, expanded := script.steps, ExpandScript(vars, script).steps;
    assert forall i: nat :: i < |steps| && i <= |results| ==> Runs(steps, results, i) == Runs(expanded, results, i);
  }

  // ---------------------------------------------------------------- lines

  function WithoutLineEnd(s: string): (r: string)
    ensures |r| <= |s| && r == s[..|r|]
    ensures r != [] ==> r[|r| - 1] != '\r' && r[|r| - 1] != '\n'
    ensures forall i :: |r| <= i < |s| ==> s[i] == '\r' || s[i] == '\n'
  {
    if s != [] && (s[|s| - 1] == '\r' || s[|s| - 1] == '\n') then WithoutLineEnd(s[..|s| - 1]) else s
  }

  function FirstNewline(s: string): (r: Option<nat>)
    ensures r.None? ==> '\n' !in s
    ensures r.Some? ==> r.value < |s| && s[r.value] == '\n' && '\n' !in s[..r.value]
  {
    if s == [] then None
    else if s[0] == '\n' then Some(0)
    else
      var rest := FirstNewline(s[1..]);
      if rest.None? then None
      else
        assert s[..rest.value + 1] == [s[0]] + s[1..][..rest.value];
        Some(rest.value + 1)
  }

  /** A text cut at its newlines, and what is left after the last one. */
  function Split(text: string): (r: (seq<string>, string))
    ensures '\n' !in r.1
    decreases |text|
  {
    var at := FirstNewline(text);
    if at.None? then ([], text)
    else
      var rest := Split(text[at.value + 1..]);
      ([WithoutLineEnd(text[..at.value + 1])] + rest.0, rest.1)
  }

  lemma NewlineIsLocal(a: string, b: string)
    requires FirstNewline(a).Some?
    ensures FirstNewline(a + b) == FirstNewline(a)
  {
    var n := FirstNewline(a).value;
    assert (a + b)[n] == '\n';
    NewlineUnique(a + b, n);
  }

  lemma {:induction false} NewlineUnique(s: string, n: nat)
    requires n < |s| && s[n] == '\n' && '\n' !in s[..n]
    ensures FirstNewline(s) == Some(n)
  {
    if n > 0 {
      assert s[0] == s[..n][0];
      assert s[1..][..n - 1] == s[..n][1..];
      NewlineUnique(s[1..], n - 1);
    }
  }

  /** Splitting in two goes is splitting once. */
  lemma {:induction false} SplitInTwo(a: string, b: string)
    ensures Split(a + b).0 == Split(a).0 + Split(Split(a).1 + b).0
    ensures Split(a + b).1 == Split(Split(a).1 + b).1
    decreases |a|
  {
    hide Split, WithoutLineEnd, FirstNewline;
    var at := FirstNewline(a);
    if at.Some? {
      NewlineIsLocal(a, b);
      var n := at.value + 1;
      assert (a + b)[..n] == a[..n];
      assert (a + b)[n..] == a[n..] + b;
      TakeALine(a, at.value);
      TakeALine(a + b, at.value);
      SplitInTwo(a[n..], b);
    } else {
      NoMoreLines(a);
    }
  }

  /** The text put together again, a line feed after every line. */
  function Rejoined(lines: seq<string>, tail: string): string {
    if lines == [] then tail else lines[0] + "\n" + Rejoined(lines[1..], tail)
  }

  /** The pieces a text is cut into, each up to and with its line feed. */
  function Pieces(text: string): seq<string>
    decreases |text|
  {
    var at := FirstNewline(text);
    if at.None? then [] else [text[..at.value + 1]] + Pieces(text[at.value + 1..])
  }

  /** A line is its piece without the line end: nothing else is taken away, and nothing added. */
  predicate IsLineOf(line: string, piece: string) {
    && line <= piece && piece != [] && piece[|piece| - 1] == '\n'
    && '\n' !in piece[..|piece| - 1]
    && (forall i :: |line| <= i < |piece| ==> piece[i] == '\r' || piece[i] == '\n')
    && (line != [] ==> line[|line| - 1] != '\r')
  }

  /** Nothing is lost: the pieces and the tail are the text, and each line is its piece but for the
      line end. */
  lemma {:induction false} SplitLosesNothing(text: string)
    ensures Flat(Pieces(text)) + Split(text).1 == text
    ensures |Pieces(text)| == |Split(text).0|
    ensures forall i :: 0 <= i < |Split(text).0| ==> IsLineOf(Split(text).0[i], Pieces(text)[i])
    decreases |text|
  {
    hide Split, Flat, Pieces, IsLineOf, WithoutLineEnd, FirstNewline;
    var at := FirstNewline(text);
    if at.Some? {
      var piece, rest := text[..at.value + 1], text[at.value + 1..];
      SplitLosesNothing(rest);
      TakeALine(text, at.value);
      TakeAPiece(text, at.value);
      FlatCons(piece, Pieces(rest));
      assert text == piece + rest;
    } else {
      NoMoreLines(text);
      assert Pieces(text) == [] && Flat<char>([]) == [] by { NoPieces(text); }
    }
  }

  lemma TakeAPiece(text: string, at: nat)
    requires FirstNewline(text) == Some(at)
    ensures Pieces(text) == [text[..at + 1]] + Pieces(text[at + 1..])
    ensures IsLineOf(WithoutLineEnd(text[..at + 1]), text[..at + 1])
  {
    hide Flat, Split, WithoutLineEnd, IsLineOf;
    var piece := text[..at + 1];
    assert piece[..at] == text[..at];
    APieceIsALine(piece);
  }

  lemma APieceIsALine(piece: string)
    requires piece != [] && piece[|piece| - 1] == '\n' && '\n' !in piece[..|piece| - 1]
    ensures IsLineOf(WithoutLineEnd(piece), piece)
  {
    var line := WithoutLineEnd(piece);
    assert line != [] ==> line[|line| - 1] == piece[|line| - 1];
  }

  lemma NoPieces(text: string)
    requires FirstNewline(text).None?
    ensures Pieces(text) == [] && Flat<char>([]) == []
  {
  }

  lemma FlatCons(first: string, rest: seq<string>)
    ensures Flat([first] + rest) == first + Flat(rest)
  {
    assert ([first] + rest)[1..] == rest;
  }

  /** Without carriage returns the lines say it all. */
  lemma {:induction false} LinesAreTheText(text: string)
    requires '\r' !in text
    ensures Rejoined(Split(text).0, Split(text).1) == text
    decreases |text|
  {
    var at := FirstNewline(text);
    if at.Some? {
      var n := at.value;
      var line := text[..n + 1];
      var cut := WithoutLineEnd(line);
      assert line[..n] == text[..n];
      assert n > 0 ==> text[n - 1] == text[..n][n - 1] && text[n - 1] in text;
      assert cut == text[..n];
      assert text == text[..n] + "\n" + text[n + 1..];
      LinesAreTheText(text[n + 1..]);
      assert Split(text).0[1..] == Split(text[n + 1..]).0;
    }
  }

  /** The wording around events. */
  datatype Strings = Strings(
    exitPrefix: string, skipped: string, errorPrefix: string, timedOutPrefix: string, timedOutSuffix: string,
      cancelled: string)

  function Number(n: int): string {
    if n < 0 then "-" + Decimal(-n) else Decimal(n)
  }

  /** Exit codes look different when they are. */
  lemma NumbersAreTold(a: int, b: int)
    ensures Number(a) == Number(b) <==> a == b
  {
    hide Decimal, Numeral;
    var m, n: nat := if a < 0 then -a else a, if b < 0 then -b else b;
    DecimalIsRead(m);
    DecimalIsRead(n);
    assert a < 0 ==> Number(a)[0] == '-' && Number(a)[1..] == Decimal(m);
    assert b < 0 ==> Number(b)[0] == '-' && Number(b)[1..] == Decimal(n);
    assert Decimal(m)[0] != '-' && Decimal(n)[0] != '-';
  }

  function Flushed(partial: string): seq<string> {
    if partial == [] then [] else [partial]
  }

  function Section(name: string, current: nat, total: nat): seq<string> {
    (if current > 1 then [""] else [])
    + ["── " + name + " (" + Decimal(current) + "/" + Decimal(total) + ") ──"]
  }

  /** The lines of one event and what is held back afterwards. */
  function EventLines(event: RunEvent, strings: Strings, partial: string): (seq<string>, string) {
    match event
    case StepStarted(_, command) => (["$ " + command], partial)
    case Output(_, chunk) => Split(partial + Lossy(chunk))
    case StepFinished(_, exitCode) => (Flushed(partial) + ["[" + strings.exitPrefix + Number(exitCode) + "]"], [])
    case StepSkipped(_) => ([strings.skipped], partial)
    case StepError(_, message) => (Flushed(partial) + [strings.errorPrefix + message], [])
    case StepTimedOut(_, seconds) =>
      (Flushed(partial) + [strings.timedOutPrefix + Decimal(seconds) + strings.timedOutSuffix], [])
  }

  /** A step's ending shows what was held back and then says how it ended; nothing else lets go of
      what is held. */
  lemma EndingsShowWhatWasHeld(event: RunEvent, strings: Strings, partial: string)
    requires !event.Output?
    ensures var (lines, held) := EventLines(event, strings, partial);
            var ends := event.StepFinished? || event.StepError? || event.StepTimedOut?;
            && held == (if ends then [] else partial)
            && lines != [] && lines[..|lines| - 1] == (if ends && partial != [] then [partial] else [])
            && var said := lines[|lines| - 1];
               && (event.StepStarted? ==> said == "$ " + event.command)
               && (event.StepFinished? ==> said == "[" + strings.exitPrefix + Number(event.exitCode) + "]")
               && (event.StepSkipped? ==> said == strings.skipped)
               && (event.StepError? ==> said == strings.errorPrefix + event.message)
               && (event.StepTimedOut? ==>
                     said == strings.timedOutPrefix + Decimal(event.seconds) + strings.timedOutSuffix)
  {
    hide Decimal, Number;
  }

  lemma TakeALine(text: string, pos: nat)
    requires FirstNewline(text) == Some(pos)
    ensures Split(text).0 == [WithoutLineEnd(text[..pos + 1])] + Split(text[pos + 1..]).0
    ensures Split(text).1 == Split(text[pos + 1..]).1
  {
  }

  /** The copy in session.rs, which is handed the text held back so far. */
  method ScriptEventLines(event: RunEvent, strings: Strings, held: string) returns (lines: seq<string>, partial: string)
    ensures lines == EventLines(event, strings, held).0 && partial == EventLines(event, strings, held).1
  {
    hide Split;
    lines, partial := [], held;
    match event {
      case StepStarted(_, command) =>
        lines := lines + ["$ " + command];
      case Output(_, chunk) =>
        partial := partial + Lossy(chunk);
        ghost var all := partial;
        var pos := FirstNewline(partial);
        while pos.Some?
          invariant pos == FirstNewline(partial)
          invariant Split(all).0 == lines + Split(partial).0 && Split(all).1 == Split(partial).1
          decreases |partial|
        {
          TakeALine(partial, pos.value);
          lines := lines + [WithoutLineEnd(partial[..pos.value + 1])];
          partial := partial[pos.value + 1..];
          pos := FirstNewline(partial);
        }
        NoMoreLines(partial);
      case StepFinished(_, exitCode) =>
        lines := lines + Flushed(partial) + ["[" + strings.exitPrefix + Number(exitCode) + "]"];
        partial := [];
      case StepSkipped(_) =>
        lines := lines + [strings.skipped];
      case StepError(_, message) =>
        lines := lines + Flushed(partial) + [strings.errorPrefix + message];
        partial := [];
      case StepTimedOut(_, seconds) =>
        lines := lines + Flushed(partial) + [strings.timedOutPrefix + Decimal(seconds) + strings.timedOutSuffix];
        partial := [];
    }
  }

  lemma NoMoreLines(text: string)
    requires FirstNewline(text).None?
    ensures Split(text) == ([], text)
  {
  }

  /** The copy on the screen, which keeps the log and the text held back as its own fields. */
  class ScriptRunState {
    var log: seq<string>
    var partial: string
    var finished: bool
    var currentTarget: nat
    const totalTargets: nat

    constructor (totalTargets: nat)
      ensures log == [] && partial == [] && !finished && currentTarget == 0 && this.totalTargets == totalTargets
    {
      log, partial, finished, currentTarget := [], [], false, 0;
      this.totalTargets := totalTargets;
    }

    method FlushPartial()
      modifies this`log, this`partial
      ensures log == old(log) + Flushed(old(partial)) && partial == []
    {
      if partial != [] {
        log := log + [partial];
        partial := [];
      }
    }

    method Append(chunk: seq<Byte>)
      modifies this`log, this`partial
      ensures log == old(log) + Split(old(partial) + Lossy(chunk)).0
      ensures partial == Split(old(partial) + Lossy(chunk)).1
    {
      hide Split;
      partial := partial + Lossy(chunk);
      ghost var all := partial;
      ghost var lines: seq<string> := [];
      var pos := FirstNewline(partial);
      while pos.Some?
        invariant pos == FirstNewline(partial)
        invariant log == old(log) + lines
        invariant Split(all).0 == lines + Split(partial).0 && Split(all).1 == Split(partial).1
        decreases |partial|
      {
        TakeALine(partial, pos.value);
        log := log + [WithoutLineEnd(partial[..pos.value + 1])];
        lines := lines + [WithoutLineEnd(partial[..pos.value + 1])];
        partial := partial[pos.value + 1..];
        pos := FirstNewline(partial);
      }
      NoMoreLines(partial);
    }

    method Apply(event: RunEvent, strings: Strings)
      modifies this`log, this`partial
      ensures log == old(log) + EventLines(event, strings, old(partial)).0
      ensures partial == EventLines(event, strings, old(partial)).1
    {
      match event {
        case StepStarted(_, command) => log := log + ["$ " + command];
        case Output(_, chunk) => Append(chunk);
        case StepFinished(_, exitCode) =>
          FlushPartial();
          log := log + ["[" + strings.exitPrefix + Number(exitCode) + "]"];
        case StepSkipped(_) => log := log + [strings.skipped];
        case StepError(_, message) =>
          FlushPartial();
          log := log + [strings.errorPrefix + message];
        case StepTimedOut(_, seconds) =>
          FlushPartial();
          log := log + [strings.timedOutPrefix + Decimal(seconds) + strings.timedOutSuffix];
      }
    }

    /** Opens the next server's section; with one server there is nothing to open. */
    method ServerStarted(name: string)
      modifies this`log, this`partial, this`currentTarget
      ensures currentTarget == old(currentTarget) + 1
      ensures totalTargets <= 1 ==> log == old(log) && partial == old(partial)
      ensures totalTargets > 1 ==> partial == []
      ensures totalTargets > 1 ==> log == old(log) + Flushed(old(partial)) + Section(name, currentTarget, totalTargets)
    {
      currentTarget := currentTarget + 1;
      if totalTargets <= 1 {
        return;
      }
      FlushPartial();
      if currentTarget > 1 {
        log := log + [""];
      }
      log := log + ["── " + name + " (" + Decimal(currentTarget) + "/" + Decimal(totalTargets) + ") ──"];
    }

    method MarkFinished()
      modifies this`log, this`partial, this`finished
      ensures log == old(log) + Flushed(old(partial)) && partial == [] && finished
    {
      FlushPartial();
      finished := true;
    }

    /** Whatever a cancelled step had said so far stays in the log. */
    method MarkCancelled(strings: Strings)
      modifies this`log, this`partial, this`finished
      ensures log == old(log) + Flushed(old(partial)) + [strings.cancelled] && partial == [] && finished
    {
      FlushPartial();
      log := log + [strings.cancelled];
      finished := true;
    }

    /** A whole run on the screen. */
    method ApplyAll(events: seq<RunEvent>, strings: Strings)
      modifies this`log, this`partial
      ensures log == old(log) + LinesOf(events, strings, old(partial)).0
      ensures partial == LinesOf(events, strings, old(partial)).1
    {
      var k := 0;
      while k < |events|
        invariant k <= |events|
        invariant log == old(log) + LinesOf(events[..k], strings, old(partial)).0
        invariant partial == LinesOf(events[..k], strings, old(partial)).1
      {
        assert events[..k + 1][..k] == events[..k];
        Apply(events[k], strings);
        k := k + 1;
      }
      assert events[..k] == events;
    }
  }

  function LinesOf(events: seq<RunEvent>, strings: Strings, partial: string): (seq<string>, string) {
    if events == [] then ([], partial)
    else
      var before := LinesOf(events[..|events| - 1], strings, partial);
      var last := EventLines(events[|events| - 1], strings, before.1);
      (before.0 + last.0, last.1)
  }

  lemma {:induction false} LinesConcat(a: seq<RunEvent>, b: seq<RunEvent>, strings: Strings, partial: string)
    ensures LinesOf(a + b, strings, partial).0
         == LinesOf(a, strings, partial).0 + LinesOf(b, strings, LinesOf(a, strings, partial).1).0
    ensures LinesOf(a + b, strings, partial).1 == LinesOf(b, strings, LinesOf(a, strings, partial).1).1
  {
    hide EventLines;
    if b == [] {
      assert a + b == a;
    } else {
      assert (a + b)[..|a + b| - 1] == a + b[..|b| - 1];
      LinesConcat(a, b[..|b| - 1], strings, partial);
    }
  }

  /** However the output is cut into chunks, the lines and the text held back are those of the
      texts of all chunks split once. */
  lemma {:induction false} ChunkingDoesNotMatter(i: nat, chunks: seq<seq<Byte>>, strings: Strings, partial: string)
    requires '\n' !in partial
    ensures LinesOf(Outputs(i, chunks), strings, partial) == Split(partial + Flat(Texts(chunks)))
    decreases |chunks|
  {
    if chunks == [] {
      assert partial + Flat(Texts(chunks)) == partial;
      NothingToCut(partial);
    } else {
      hide Split, LinesOf, Flat, Texts, Outputs, EventLines;
      var first, rest, text := Output(i, chunks[0]), chunks[1..], Lossy(chunks[0]);
      FirstChunk(i, chunks, partial);
      LinesConcat([first], Outputs(i, rest), strings, partial);
      OneEvent(first, strings, partial);
      assert EventLines(first, strings, partial) == Split(partial + text);
      ChunkingDoesNotMatter(i, rest, strings, Split(partial + text).1);
      SplitInTwo(partial + text, Flat(Texts(rest)));
    }
  }

  lemma FirstChunk(i: nat, chunks: seq<seq<Byte>>, partial: string)
    requires chunks != []
    ensures Outputs(i, chunks) == [Output(i, chunks[0])] + Outputs(i, chunks[1..])
    ensures partial + Flat(Texts(chunks)) == partial + Lossy(chunks[0]) + Flat(Texts(chunks[1..]))
  {
    assert Texts(chunks)[1..] == Texts(chunks[1..]);
  }

  /** What is shown is the output, the text later conditions look at, exactly when no character is cut
      by a chunk. */
  lemma WhenTheLinesAreTheOutput(i: nat, chunks: seq<seq<Byte>>, strings: Strings)
    ensures LinesOf(Outputs(i, chunks), strings, []) == Split(Lossy(Flat(chunks))) <==> !CutsACharacter(chunks)
  {
    hide Split, LinesOf, Texts, Lossy, Flat, CutsACharacter;
    ChunkingDoesNotMatter(i, chunks, strings, []);
    assert [] + Flat(Texts(chunks)) == Flat(Texts(chunks));
    ReadInChunks(chunks);
    VisibleInLines(Flat(Texts(chunks)));
    VisibleInLines(Lossy(Flat(chunks)));
  }

  function VisibleOf(lines: seq<string>): nat {
    if lines == [] then 0 else Visible(lines[0]) + VisibleOf(lines[1..])
  }

  /** Splitting takes away line ends and nothing else. */
  lemma {:induction false} VisibleInLines(text: string)
    ensures Visible(text) == VisibleOf(Split(text).0) + Visible(Split(text).1)
    decreases |text|
  {
    hide WithoutLineEnd, Visible;
    var at := FirstNewline(text);
    if at.Some? {
      var piece, rest := text[..at.value + 1], text[at.value + 1..];
      assert text == piece + rest;
      VisibleConcat(piece, rest);
      LineEndsAreNotVisible(piece);
      VisibleInLines(rest);
      TakeALine(text, at.value);
      assert Split(text).0[1..] == Split(rest).0;
    }
  }

  lemma {:induction false} LineEndsAreNotVisible(piece: string)
    ensures Visible(WithoutLineEnd(piece)) == Visible(piece)
    decreases |piece|
  {
    if piece != [] && (piece[|piece| - 1] == '\r' || piece[|piece| - 1] == '\n') {
      LineEndsAreNotVisible(piece[..|piece| - 1]);
      assert piece == piece[..|piece| - 1] + [piece[|piece| - 1]];
      VisibleConcat(piece[..|piece| - 1], [piece[|piece| - 1]]);
    }
  }

  /** Two bytes of one character in two chunks are shown as two characters, where the output has one:
      a condition on it matches what nobody saw. */
  lemma ACutCharacterIsShownTwice(i: nat, strings: Strings)
    ensures var reply := Finished([[0xC3], [0xA9]], 0);
            && StatusOf(reply) == Ran(0, "\U{00E9}")
            && LinesOf(Outputs(i, reply.chunks), strings, []) == ([], "\U{FFFD}\U{FFFD}")
  {
    hide Split, LinesOf, Lossy, Flat, Texts, Outputs;
    var chunks: seq<seq<Byte>> := [[0xC3], [0xA9]];
    TwoBytesOfOne();
    ChunkingDoesNotMatter(i, chunks, strings, []);
    assert [] + Flat(Texts(chunks)) == Flat(Texts(chunks));
    NothingToCut("\U{FFFD}\U{FFFD}");
  }

  lemma NothingToCut(partial: string)
    requires '\n' !in partial
    ensures Split(partial) == ([], partial)
  {
    assert FirstNewline(partial).None?;
  }

  lemma OneEvent(event: RunEvent, strings: Strings, partial: string)
    ensures LinesOf([event], strings, partial) == EventLines(event, strings, partial)
  {
    hide EventLines;
    assert [event][..0] == [];
    var r := EventLines(event, strings, partial);
    assert [] + r.0 == r.0;
  }

  /** The lines of one step, from its output as a whole. */
  function StepLines(i: nat, step: ScriptStep, runs: bool, reply: Reply, strings: Strings): seq<string> {
    if !runs then [strings.skipped]
    else
      var text := Flat(Texts(ChunksOf(reply)));
      ["$ " + step.command] + Split(text).0 + EventLines(Ending(i, step, reply), strings, Split(text).1).0
  }

  lemma StepStandsAlone(i: nat, step: ScriptStep, runs: bool, reply: Reply, strings: Strings)
    ensures LinesOf(EventsOf(i, step, runs, reply), strings, []) == (StepLines(i, step, runs, reply, strings), [])
  {
    hide Flat, Split, LinesOf;
    if !runs {
      OneEvent(StepSkipped(i), strings, []);
    } else {
      var start, out, end := StepStarted(i, step.command), Outputs(i, ChunksOf(reply)), Ending(i, step, reply);
      OneEvent(start, strings, []);
      ChunkingDoesNotMatter(i, ChunksOf(reply), strings, []);
      LinesConcat([start], out, strings, []);
      assert [] + Flat(Texts(ChunksOf(reply))) == Flat(Texts(ChunksOf(reply)));
      LinesConcat([start] + out, [end], strings, []);
      OneEvent(end, strings, Split(Flat(Texts(ChunksOf(reply)))).1);
    }
  }

  function AllStepLines(steps: seq<ScriptStep>, replies: nat -> Reply, results: seq<StepStatus>, strings: Strings,
      n: nat): seq<string>
    requires n <= |results| <= |steps|
  {
    if n == 0 then []
    else
      AllStepLines(steps, replies, results, strings, n - 1)
      + StepLines(n - 1, steps[n - 1], Runs(steps, results, n - 1), replies(n - 1), strings)
  }

  /** On every run nothing is held back where a step starts, so each step's text appears between
      its own start and ending, and none of it is lost. */
  lemma {:induction false} NoTextCrossesSteps(steps: seq<ScriptStep>, replies: nat -> Reply,
      results: seq<StepStatus>, strings: Strings, n: nat)
    requires n <= |results| <= |steps|
    ensures LinesOf(TraceOf(steps, replies, results, n), strings, [])
            == (AllStepLines(steps, replies, results, strings, n), [])
  {
    hide LinesOf, StepLines, EventsOf;
    if n == 0 {
      assert LinesOf([], strings, []) == ([], []) by { NoEvents(strings); }
    } else {
      var events := EventsOf(n - 1, steps[n - 1], Runs(steps, results, n - 1), replies(n - 1));
      NoTextCrossesSteps(steps, replies, results, strings, n - 1);
      LinesConcat(TraceOf(steps, replies, results, n - 1), events, strings, []);
      StepStandsAlone(n - 1, steps[n - 1], Runs(steps, results, n - 1), replies(n - 1), strings);
    }
  }

  /** A cancelled run loses nothing either: wherever the output is cut off, the lines shown are its
      pieces but for their line ends, and the text held back is the rest of it. */
  lemma CancellingKeepsTheText(i: nat, chunks: seq<seq<Byte>>, strings: Strings)
    ensures var shown := LinesOf(Outputs(i, chunks), strings, []);
            var pieces := Pieces(Flat(Texts(chunks)));
            && Flat(pieces) + shown.1 == Flat(Texts(chunks))
            && |pieces| == |shown.0|
            && (forall k :: 0 <= k < |pieces| ==> IsLineOf(shown.0[k], pieces[k]))
  {
    hide Split, Pieces, IsLineOf, LinesOf;
    ChunkingDoesNotMatter(i, chunks, strings, []);
    assert [] + Flat(Texts(chunks)) == Flat(Texts(chunks));
    SplitLosesNothing(Flat(Texts(chunks)));
  }

  lemma NoEvents(strings: Strings)
    ensures LinesOf([], strings, []) == ([], [])
  {
  }
}
