/** The race between the output, two timers, an error and the close of a CLI run. */
module CliRace {
  import opened Prelude
  import opened Text

  // ----- the payload in the output

  /** The index of the first opening brace, or the length. */
  function OpenAt(s: string): (n: nat)
    ensures n <= |s| && (n < |s| ==> s[n] == '{')
  {
    if s == "" || s[0] == '{' then 0 else 1 + OpenAt(s[1..])
  }

  /** The length up to and with the last closing brace, or zero. */
  function CloseEnd(s: string): (n: nat)
    ensures n <= |s| && (n > 0 ==> s[n - 1] == '}')
  {
    if s == "" then 0
    else if s[|s| - 1] == '}' then |s|
    else CloseEnd(s[..|s| - 1])
  }

  function Braced(s: string): Option<string> {
    if OpenAt(s) < CloseEnd(s) then Some(s[OpenAt(s)..CloseEnd(s)]) else None
  }

  function Extract(raw: string): Option<string> {
    Braced(Trim(raw))
  }

  /** What is parsed in the end. */
  function Parsed(output: string): string {
    Extract(output).GetOr(Trim(output))
  }

  // ----- states and events

  /** Resolved with an output, or rejected with a message. */
  datatype Outcome =
    | Resolved(output: string)
    | TimedOut(message: string)
    | Failed(message: string)
    | Errored(message: string)

  /** A timer is not set, or waits, or is over (it fired or was cleared). */
  datatype Timer = Unset | Waiting | Over

  datatype State = State(
    stdout: string,
    stderr: string,
    outcome: Option<Outcome>,
    settlings: nat,
    timeout: Timer,
    jsonTimer: Timer,
    kills: nat)

  datatype Event =
    | Stdout(chunk: string)
    | Stderr(chunk: string)
    | JsonTimerFires
    | TimeoutFires
    | ErrorEvent(message: string)
    | CloseEvent(code: Option<int>)

  /** A timer fires only while it waits; everything else can happen at any time. */
  predicate Enabled(s: State, e: Event) {
    match e
    case JsonTimerFires => s.jsonTimer.Waiting?
    case TimeoutFires => s.timeout.Waiting?
    case _ => true
  }

  function Initial(): State {
    State("", "", None, 0, Waiting, Unset, 0)
  }

  function Cleared(t: Timer): Timer {
    if t.Waiting? then Over else t
  }

  function Settled(s: State, o: Outcome): State {
    if s.outcome.Some? then s
    else s.(outcome := Some(o), settlings := s.settlings + 1, timeout := Over, jsonTimer := Cleared(s.jsonTimer))
  }

  function FirstText(a: string, b: string): string {
    if a != "" then a else b
  }

  function TimeoutMessage(stdout: string, stderr: string, command: string): string {
    "CLI command timed out: " + FirstText(stderr, FirstText(stdout, command))
  }

  /** An exit code as text; a process that a signal ended has none. */
  function CodeText(code: Option<int>): string {
    match code
    case None => "null"
    case Some(n) => if n < 0 then "-" + Show(-n) else Show(n)
  }

  function FailureMessage(stdout: string, stderr: string, code: Option<int>): string {
    "CLI command failed (" + CodeText(code) + "): " + FirstText(stderr, stdout)
  }

  /** The effect of one event; `command` and `allowFailureExit` are fixed for a run. */
  function Next(s: State, e: Event, command: string, allowFailureExit: bool): State {
    match e
    case Stdout(chunk) =>
      var out := s.stdout + chunk;
      s.(stdout := out,
         jsonTimer := if s.outcome.None? && s.jsonTimer.Unset? && Extract(out).Some? then Waiting else s.jsonTimer)
    case Stderr(chunk) => s.(stderr := s.stderr + chunk)
    case JsonTimerFires =>
      var fired := s.(jsonTimer := Over);
      (match Extract(s.stdout)
       case None => fired
       case Some(payload) => Settled(fired.(kills := s.kills + 1), Resolved(payload)))
    case TimeoutFires =>
      var fired := s.(timeout := Over, kills := s.kills + 1);
      (match Extract(s.stdout)
       case Some(payload) => Settled(fired, Resolved(payload))
       case None => Settled(fired, TimedOut(TimeoutMessage(s.stdout, s.stderr, command))))
    case ErrorEvent(message) => Settled(s, Errored(message))
    case CloseEvent(code) =>
      var payload := Extract(s.stdout);
      if code == Some(0) || (allowFailureExit && payload.Some?) then Settled(s, Resolved(payload.GetOr(s.stdout)))
      else Settled(s, Failed(FailureMessage(s.stdout, s.stderr, code)))
  }

  // ----- the callbacks

  class CliRun {
    const command: string
    const allowFailureExit: bool
    var stdout: string
    var stderr: string
    var outcome: Option<Outcome>
    var settlings: nat
    var timeout: Timer
    var jsonTimer: Timer
    var kills: nat

    function Now(): State
      reads this
    {
      State(stdout, stderr, outcome, settlings, timeout, jsonTimer, kills)
    }

    constructor (command: string, allowFailureExit: bool)
      ensures Now() == Initial()
      ensures this.command == command && this.allowFailureExit == allowFailureExit
    {
      this.command, this.allowFailureExit := command, allowFailureExit;
      stdout, stderr, outcome, settlings := "", "", None, 0;
      timeout, jsonTimer, kills := Waiting, Unset, 0;
    }

    method Settle(o: Outcome)
      modifies this
      ensures Now() == Settled(old(Now()), o)
    {
      if outcome.Some? { return; }
      settlings := settlings + 1;
      timeout := Over;
      if jsonTimer.Waiting? { jsonTimer := Over; }
      outcome := Some(o);
    }

    method OnStdout(chunk: string)
      modifies this
      ensures Now() == Next(old(Now()), Stdout(chunk), command, allowFailureExit)
    {
      hide Extract, TimeoutMessage, FailureMessage;
      stdout := stdout + chunk;
      if outcome.None? && jsonTimer.Unset? && Extract(stdout).Some? {
        jsonTimer := Waiting;
      }
    }

    method OnStderr(chunk: string)
      modifies this
      ensures Now() == Next(old(Now()), Stderr(chunk), command, allowFailureExit)
    {
      stderr := stderr + chunk;
    }

    method OnJsonTimer()
      requires Enabled(Now(), JsonTimerFires)
      modifies this
      ensures Now() == Next(old(Now()), JsonTimerFires, command, allowFailureExit)
    {
      hide Extract, TimeoutMessage, FailureMessage;
      jsonTimer := Over;
      var payload := Extract(stdout);
      if payload.None? { return; }
      kills := kills + 1;
      Settle(Resolved(payload.value));
    }

    method OnTimeout()
      requires Enabled(Now(), TimeoutFires)
      modifies this
      ensures Now() == Next(old(Now()), TimeoutFires, command, allowFailureExit)
    {
      hide Extract, TimeoutMessage, FailureMessage;
      timeout := Over;
      kills := kills + 1;
      var payload := Extract(stdout);
      if payload.Some? {
        Settle(Resolved(payload.value));
        return;
      }
      Settle(TimedOut(TimeoutMessage(stdout, stderr, command)));
    }

    method OnError(message: string)
      modifies this
      ensures Now() == Next(old(Now()), ErrorEvent(message), command, allowFailureExit)
    {
      Settle(Errored(message));
    }

    method OnClose(code: Option<int>)
      modifies this
      ensures Now() == Next(old(Now()), CloseEvent(code), command, allowFailureExit)
    {
      hide Extract, TimeoutMessage, FailureMessage;
      var payload := Extract(stdout);
      if code == Some(0) || (allowFailureExit && payload.Some?) {
        Settle(Resolved(payload.GetOr(stdout)));
        return;
      }
      Settle(Failed(FailureMessage(stdout, stderr, code)));
    }
  }

  // ----- payloads grow

  lemma {:induction false} OpenInFront(a: string, b: string)
    requires OpenAt(a) < |a|
    ensures OpenAt(a + b) == OpenAt(a)
  {
    if a[0] != '{' {
      assert (a + b)[1..] == a[1..] + b;
      OpenInFront(a[1..], b);
    }
  }

  lemma {:induction false} OpenIsFirst(s: string, i: nat)
    requires i < |s| && s[i] == '{'
    ensures OpenAt(s) <= i
  {
    if s[0] != '{' {
      OpenIsFirst(s[1..], i - 1);
    }
  }

  lemma {:induction false} OpenBehind(a: string, s: string)
    requires '{' !in a
    ensures OpenAt(a + s) == |a| + OpenAt(s)
  {
    if a == "" {
      assert a + s == s;
    } else {
      assert a[0] in a && (a + s)[1..] == a[1..] + s;
      OpenBehind(a[1..], s);
    }
  }

  lemma {:induction false} CloseIsLast(s: string, i: nat)
    requires i < |s| && s[i] == '}'
    ensures i < CloseEnd(s)
  {
    if s[|s| - 1] != '}' {
      CloseIsLast(s[..|s| - 1], i);
    }
  }

  lemma {:induction false} CloseInFront(s: string, b: string)
    requires '}' !in b
    ensures CloseEnd(s + b) == CloseEnd(s)
  {
    if b == "" {
      assert s + b == s;
    } else {
      var n := |b| - 1;
      assert b[n] in b && (s + b)[..|s + b| - 1] == s + b[..n];
      CloseInFront(s, b[..n]);
    }
  }

  lemma {:induction false} CloseBehind(a: string, s: string)
    requires CloseEnd(s) > 0
    ensures CloseEnd(a + s) == |a| + CloseEnd(s)
  {
    var n := |s| - 1;
    if s[n] != '}' {
      assert (a + s)[..|a + s| - 1] == a + s[..n];
      CloseBehind(a, s[..n]);
    }
  }

  /** White space around the text does not change its payload. */
  lemma ExtractIsBraced(raw: string)
    ensures Extract(raw) == Braced(raw)
  {
    hide Trim, Braced, OpenAt, CloseEnd;
    var a, b := TrimSpec(raw);
    BlankHasNoBrace(a);
    BlankHasNoBrace(b);
    BracedInside(a, Trim(raw), b);
  }

  lemma BlankHasNoBrace(a: string)
    requires Blank(a)
    ensures '{' !in a && '}' !in a
  {
  }

  lemma BracesAreThere(s: string)
    ensures OpenAt(s) < |s| ==> '{' in s
    ensures CloseEnd(s) > 0 ==> '}' in s
  {
    hide OpenAt, CloseEnd;
    assert OpenAt(s) < |s| ==> s[OpenAt(s)] in s;
    assert CloseEnd(s) > 0 ==> s[CloseEnd(s) - 1] in s;
  }

  lemma {:induction false} NoOpen(s: string, b: string)
    requires OpenAt(s) == |s| && '{' !in b
    ensures OpenAt(s + b) == |s + b|
  {
    if s == "" {
      assert s + b == b;
      BracesAreThere(b);
    } else {
      assert (s + b)[1..] == s[1..] + b;
      NoOpen(s[1..], b);
    }
  }

  lemma {:induction false} NoClose(a: string, s: string)
    requires CloseEnd(s) == 0 && '}' !in a
    ensures CloseEnd(a + s) == 0
  {
    if s == "" {
      assert a + s == a;
      BracesAreThere(a);
    } else {
      assert (a + s)[..|a + s| - 1] == a + s[..|s| - 1];
      NoClose(a, s[..|s| - 1]);
    }
  }

  lemma BracedInside(a: string, s: string, b: string)
    requires '{' !in a && '}' !in a && '{' !in b && '}' !in b
    ensures Braced(a + s + b) == Braced(s)
  {
    hide OpenAt, CloseEnd;
    BracedBefore(s, b);
    BracedBehind(a, s + b);
    assert a + s + b == a + (s + b);
  }

  lemma BracedBefore(s: string, b: string)
    requires '{' !in b && '}' !in b
    ensures Braced(s + b) == Braced(s)
  {
    hide OpenAt, CloseEnd;
    CloseInFront(s, b);
    if OpenAt(s) < |s| {
      OpenInFront(s, b);
      assert OpenAt(s) < CloseEnd(s) ==> (s + b)[OpenAt(s)..CloseEnd(s)] == s[OpenAt(s)..CloseEnd(s)];
    } else {
      NoOpen(s, b);
    }
  }

  lemma BracedBehind(a: string, s: string)
    requires '{' !in a && '}' !in a
    ensures Braced(a + s) == Braced(s)
  {
    hide OpenAt, CloseEnd;
    OpenBehind(a, s);
    if CloseEnd(s) > 0 {
      CloseBehind(a, s);
      assert OpenAt(s) < CloseEnd(s)
             ==> (a + s)[|a| + OpenAt(s)..|a| + CloseEnd(s)] == s[OpenAt(s)..CloseEnd(s)];
    } else {
      NoClose(a, s);
    }
  }

  lemma SliceGrows(raw: string, more: string, i: nat, j: nat, k: nat)
    requires i <= j <= |raw| && j <= k <= |raw + more|
    ensures raw[i..j] <= (raw + more)[i..k]
  {
    assert (raw + more)[i..k][..j - i] == raw[i..j];
  }

  /** The payload of a longer output extends the payload of its front. */
  lemma PayloadGrows(raw: string, more: string)
    requires Extract(raw).Some?
    ensures Extract(raw + more).Some? && Extract(raw).value <= Extract(raw + more).value
  {
    hide OpenAt, CloseEnd, Extract;
    ExtractIsBraced(raw);
    ExtractIsBraced(raw + more);
    var s := raw + more;
    OpenInFront(raw, more);
    CloseIsLast(s, CloseEnd(raw) - 1);
    SliceGrows(raw, more, OpenAt(raw), CloseEnd(raw), CloseEnd(s));
  }

  /** A payload is its own payload, so what is resolved is what is parsed. */
  lemma PayloadIsParsed(raw: string)
    requires Extract(raw).Some?
    ensures Parsed(Extract(raw).value) == Extract(raw).value
  {
    hide OpenAt, CloseEnd, Extract;
    ExtractIsBraced(raw);
    var p := Braced(raw).value;
    var n := |p| - 1;
    assert p[0] == raw[OpenAt(raw)] && p[n] == raw[CloseEnd(raw) - 1];
    ExtractIsBraced(p);
    OpenIsFirst(p, 0);
    CloseIsLast(p, n);
    assert p[0..|p|] == p;
  }

  // ----- what each event does, written out

  /** The payload of an output: from its first opening brace to its last closing one. */
  ghost predicate Payload(output: string, p: string) {
    exists a, b :: PayloadBetween(output, a, p, b)
  }

  predicate PayloadBetween(output: string, a: string, p: string, b: string) {
    && output == a + p + b && '{' !in a && '}' !in b
    && |p| >= 2 && p[0] == '{' && p[|p| - 1] == '}'
  }

  lemma {:induction false} OpenAtFront(a: string, s: string)
    requires '{' !in a && s != "" && s[0] == '{'
    ensures OpenAt(a + s) == |a|
  {
    OpenBehind(a, s);
  }

  lemma CloseAtEnd(s: string, b: string)
    requires '}' !in b && s != "" && s[|s| - 1] == '}'
    ensures CloseEnd(s + b) == |s|
  {
    CloseInFront(s, b);
  }

  lemma {:induction false} NothingBefore(s: string)
    ensures '{' !in s[..OpenAt(s)]
  {
    if s != "" && s[0] != '{' {
      NothingBefore(s[1..]);
      assert s[..OpenAt(s)] == [s[0]] + s[1..][..OpenAt(s[1..])];
    }
  }

  lemma {:induction false} NothingBehind(s: string)
    ensures '}' !in s[CloseEnd(s)..]
  {
    if s != "" && s[|s| - 1] != '}' {
      var n := |s| - 1;
      NothingBehind(s[..n]);
      assert s[CloseEnd(s)..] == s[..n][CloseEnd(s[..n])..] + [s[n]];
    }
  }

  /** What the search for a payload finds is the payload, and it finds it if there is one. */
  lemma ExtractIff(output: string, p: string)
    ensures Extract(output) == Some(p) <==> Payload(output, p)
  {
    hide OpenAt, CloseEnd, Extract;
    ExtractIsBraced(output);
    if Braced(output) == Some(p) {
      var i, j := OpenAt(output), CloseEnd(output);
      NothingBefore(output);
      NothingBehind(output);
      SlicesJoin(output, i, j);
      BracesApart(output, i, j);
      assert PayloadBetween(output, output[..i], p, output[j..]);
    }
    if Payload(output, p) {
      var a, b :| PayloadBetween(output, a, p, b);
      assert a + p + b == a + (p + b);
      OpenAtFront(a, p + b);
      CloseAtEnd(a + p, b);
      assert output[|a|..|a + p|] == p;
    }
  }

  lemma SlicesJoin(s: string, i: nat, j: nat)
    requires i <= j <= |s|
    ensures s == s[..i] + s[i..j] + s[j..]
  {
  }

  lemma BracesApart(s: string, i: nat, j: nat)
    requires i < j <= |s| && s[i] == '{' && s[j - 1] == '}'
    ensures j - i >= 2 && s[i..j][0] == '{' && s[i..j][j - i - 1] == '}'
  {
  }

  predicate SameOutputs(s: State, t: State) {
    s.stdout == t.stdout && s.stderr == t.stderr
  }

  /** The run takes this outcome, if it has none, and clears its timers. */
  predicate Takes(s: State, t: State, o: Outcome) {
    if s.outcome.Some? then t.outcome == s.outcome && t.settlings == s.settlings
    else t.outcome == Some(o) && t.settlings == s.settlings + 1 && !t.timeout.Waiting? && !t.jsonTimer.Waiting?
  }

  /** What an event makes of a state, `p` being the payload if there is one. */
  predicate EventTells(s: State, e: Event, command: string, allowFailureExit: bool, p: Option<string>, t: State) {
    match e
    case Stdout(chunk) =>
      && t.stdout == s.stdout + chunk && t.stderr == s.stderr && t.outcome == s.outcome
      && t.settlings == s.settlings && t.kills == s.kills && t.timeout == s.timeout
      && t.jsonTimer == if s.outcome.None? && s.jsonTimer.Unset? && p.Some? then Waiting else s.jsonTimer
    case Stderr(chunk) => t == s.(stderr := s.stderr + chunk)
    case JsonTimerFires =>
      && SameOutputs(s, t)
      && (match p
          case Some(payload) => t.kills == s.kills + 1 && Takes(s, t, Resolved(payload))
          case None => t == s.(jsonTimer := Over))
    case TimeoutFires =>
      && SameOutputs(s, t) && t.kills == s.kills + 1
      && (match p
          case Some(payload) => Takes(s, t, Resolved(payload))
          case None =>
            var shown := if s.stderr != "" then s.stderr else if s.stdout != "" then s.stdout else command;
            Takes(s, t, TimedOut("CLI command timed out: " + shown)))
    case ErrorEvent(message) => SameOutputs(s, t) && t.kills == s.kills && Takes(s, t, Errored(message))
    case CloseEvent(code) =>
      && SameOutputs(s, t) && t.kills == s.kills
      && (if code == Some(0) || (allowFailureExit && p.Some?) then
            Takes(s, t, Resolved(if p.Some? then p.value else s.stdout))
          else
            var shown := if s.stderr != "" then s.stderr else s.stdout;
            Takes(s, t, Failed("CLI command failed (" + CodeText(code) + "): " + shown)))
  }

  ghost predicate PayloadIs(output: string, p: Option<string>) {
    match p
    case Some(payload) => Payload(output, payload)
    case None => forall payload :: !Payload(output, payload)
  }

  lemma FoundPayload(output: string)
    ensures PayloadIs(output, Extract(output))
  {
    hide Extract, Payload;
    forall p: string
      ensures Extract(output) == Some(p) <==> Payload(output, p)
    {
      ExtractIff(output, p);
    }
  }

  /** Every event does what is written, by the payload of the output so far. */
  lemma EventWritten(s: State, e: Event, command: string, allowFailureExit: bool) returns (p: Option<string>)
    ensures PayloadIs(if e.Stdout? then s.stdout + e.chunk else s.stdout, p)
    ensures EventTells(s, e, command, allowFailureExit, p, Next(s, e, command, allowFailureExit))
  {
    hide Extract, PayloadIs, CodeText;
    var output := if e.Stdout? then s.stdout + e.chunk else s.stdout;
    p := Extract(output);
    FoundPayload(output);
  }

  // ----- runs

  function Run(es: seq<Event>, command: string, allowFailureExit: bool): State {
    if es == [] then Initial()
    else Next(Run(es[..|es| - 1], command, allowFailureExit), es[|es| - 1], command, allowFailureExit)
  }

  /** Each event can happen where it happens. */
  ghost predicate Possible(es: seq<Event>, command: string, allowFailureExit: bool) {
    forall i :: 0 <= i < |es| ==> EnabledAt(es, i, command, allowFailureExit)
  }

  predicate EnabledAt(es: seq<Event>, i: nat, command: string, allowFailureExit: bool)
    requires i < |es|
  {
    Enabled(Run(es[..i], command, allowFailureExit), es[i])
  }

  /** It is settled once or not at all; nothing waits after that; and before that the
      timeout waits, and the JSON timer waits exactly when there is a payload. */
  predicate Sound(s: State) {
    && s.settlings == (if s.outcome.Some? then 1 else 0)
    && (s.outcome.Some? ==> !s.timeout.Waiting? && !s.jsonTimer.Waiting?)
    && (s.outcome.None? ==> s.timeout.Waiting? && !s.jsonTimer.Over?)
    && (s.outcome.None? ==> (s.jsonTimer.Waiting? <==> Extract(s.stdout).Some?))
  }

  lemma NothingYet()
    ensures Extract("") == None
  {
    hide Trim;
    ExtractIsBraced("");
  }

  lemma StepIsSound(s: State, e: Event, command: string, allowFailureExit: bool)
    requires Sound(s) && Enabled(s, e)
    ensures Sound(Next(s, e, command, allowFailureExit))
  {
    hide Extract, TimeoutMessage, FailureMessage;
    if e.Stdout? && Extract(s.stdout).Some? {
      PayloadGrows(s.stdout, e.chunk);
    }
  }

  /** Every order of events keeps the race sound. */
  lemma {:induction false} RunIsSound(es: seq<Event>, command: string, allowFailureExit: bool)
    requires Possible(es, command, allowFailureExit)
    ensures Sound(Run(es, command, allowFailureExit))
  {
    hide Next, Extract;
    if es == [] {
      NothingYet();
    } else {
      var n := |es| - 1;
      PossibleFront(es, n, command, allowFailureExit);
      RunIsSound(es[..n], command, allowFailureExit);
      assert EnabledAt(es, n, command, allowFailureExit);
      StepIsSound(Run(es[..n], command, allowFailureExit), es[n], command, allowFailureExit);
    }
  }

  lemma PossibleFront(es: seq<Event>, n: nat, command: string, allowFailureExit: bool)
    requires Possible(es, command, allowFailureExit) && n <= |es|
    ensures Possible(es[..n], command, allowFailureExit)
  {
    hide Enabled, Run;
    forall i | 0 <= i < |es[..n]|
      ensures EnabledAt(es[..n], i, command, allowFailureExit)
    {
      assert EnabledAt(es, i, command, allowFailureExit);
      assert es[..n][..i] == es[..i];
    }
  }

  /** The first outcome stays. */
  lemma {:induction false} OutcomeStays(es: seq<Event>, n: nat, command: string, allowFailureExit: bool)
    requires n <= |es| && Run(es[..n], command, allowFailureExit).outcome.Some?
    ensures Run(es, command, allowFailureExit).outcome == Run(es[..n], command, allowFailureExit).outcome
    decreases |es|
  {
    hide Extract, TimeoutMessage, FailureMessage, Run;
    if n == |es| {
      assert es[..n] == es;
    } else {
      var front := es[..|es| - 1];
      assert front[..n] == es[..n];
      OutcomeStays(front, n, command, allowFailureExit);
      RunStep(es, command, allowFailureExit);
    }
  }

  lemma RunStep(es: seq<Event>, command: string, allowFailureExit: bool)
    requires es != []
    ensures Run(es, command, allowFailureExit)
         == Next(Run(es[..|es| - 1], command, allowFailureExit), es[|es| - 1], command, allowFailureExit)
  {
  }

  /** A timeout, an error and a close always leave the race settled; so does the JSON timer,
      whose way out without a payload is never taken. */
  lemma TerminalEventsSettle(es: seq<Event>, e: Event, command: string, allowFailureExit: bool)
    requires Possible(es + [e], command, allowFailureExit)
    requires !e.Stdout? && !e.Stderr?
    ensures Run(es + [e], command, allowFailureExit).outcome.Some?
    ensures e.JsonTimerFires? ==> Extract(Run(es, command, allowFailureExit).stdout).Some?
  {
    hide Extract, TimeoutMessage, FailureMessage, Run;
    var all := es + [e];
    assert all[..|all| - 1] == es && all[..|es|] == es;
    PossibleFront(all, |es|, command, allowFailureExit);
    RunIsSound(es, command, allowFailureExit);
    RunStep(all, command, allowFailureExit);
    assert EnabledAt(all, |es|, command, allowFailureExit);
  }

  lemma {:induction false} OutputGrows(es: seq<Event>, n: nat, command: string, allowFailureExit: bool)
    requires n <= |es|
    ensures Run(es[..n], command, allowFailureExit).stdout <= Run(es, command, allowFailureExit).stdout
    decreases |es|
  {
    hide Extract, TimeoutMessage, FailureMessage, Run;
    if n == |es| {
      assert es[..n] == es;
    } else {
      var front := es[..|es| - 1];
      assert front[..n] == es[..n];
      OutputGrows(front, n, command, allowFailureExit);
      RunStep(es, command, allowFailureExit);
      StdoutStep(Run(front, command, allowFailureExit), es[|es| - 1], command, allowFailureExit);
    }
  }

  lemma StdoutStep(s: State, e: Event, command: string, allowFailureExit: bool)
    ensures s.stdout <= Next(s, e, command, allowFailureExit).stdout
  {
    hide Extract, TimeoutMessage, FailureMessage;
  }

  /** A run that is given up by the timeout had never shown a payload. */
  lemma TimedOutSawNothing(es: seq<Event>, n: nat, command: string, allowFailureExit: bool)
    requires n <= |es| && Run(es, command, allowFailureExit).outcome.None?
    requires Next(Run(es, command, allowFailureExit), TimeoutFires, command, allowFailureExit).outcome.value.TimedOut?
    ensures Extract(Run(es[..n], command, allowFailureExit).stdout) == None
  {
    hide Extract, TimeoutMessage, FailureMessage, Run;
    var early, late := Run(es[..n], command, allowFailureExit).stdout, Run(es, command, allowFailureExit).stdout;
    OutputGrows(es, n, command, allowFailureExit);
    var more := late[|early|..];
    assert early + more == late;
    if Extract(early).Some? {
      PayloadGrows(early, more);
    }
  }

  /** Once there is a payload, whatever resolves the run resolves it with an extension of
      that payload, which is then parsed as it is; and only an error, or a failing exit
      that is not allowed, can still reject it. */
  lemma PayloadDecides(es: seq<Event>, n: nat, e: Event, command: string, allowFailureExit: bool)
    requires n <= |es| && Possible(es + [e], command, allowFailureExit)
    requires Run(es, command, allowFailureExit).outcome.None?
    requires Extract(Run(es[..n], command, allowFailureExit).stdout).Some?
    ensures
      var p := Extract(Run(es[..n], command, allowFailureExit).stdout).value;
      var o := Next(Run(es, command, allowFailureExit), e, command, allowFailureExit).outcome;
      && (o.Some? && o.value.Resolved? ==> p <= o.value.output && Parsed(o.value.output) == o.value.output)
      && (o.Some? && !o.value.Resolved?
          ==> e.ErrorEvent? || (e.CloseEvent? && e.code != Some(0) && !allowFailureExit))
  {
    hide Extract, TimeoutMessage, FailureMessage, Run, Parsed;
    var early, late := Run(es[..n], command, allowFailureExit).stdout, Run(es, command, allowFailureExit).stdout;
    OutputGrows(es, n, command, allowFailureExit);
    PayloadGrows(early, late[|early|..]);
    assert early + late[|early|..] == late;
    PayloadIsParsed(late);
  }
}
