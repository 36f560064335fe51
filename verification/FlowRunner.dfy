/** Running parsed flow commands on a device: the clipboard and the text that is injected. */
module FlowRunner {
  import opened FlowParser
  import opened TextInjection

  /** What the device is asked for. `Locate` stands for the capture of the screen with the
      search in it, and is made on behalf of one command. */
  datatype Request =
    | SwitchUser
    | StopApp
    | StartApp
    | Locate(selector: Selector)
    | TapAt(x: int, y: int)
    | TypeText(encoded: string)

  /** A request with the position of its command. */
  datatype Entry = Entry(index: nat, request: Request)

  datatype Reply = Done | Found(x: int, y: int) | Broken

  /** The device answers the last request as it likes, in view of all the earlier ones. */
  type Device = seq<Entry> -> Reply

  datatype Outcome = Outcome(trace: seq<Entry>, ok: bool)

  // ----- specification

  function Text(trace: seq<Entry>, i: nat, text: string, device: Device): Outcome {
    var sent := trace + [Entry(i, TypeText(Encode(text)))];
    Outcome(sent, device(sent) != Broken)
  }

  /** The requests that one command adds, and whether the run goes on. */
  function StepOutcome(c: FlowCommand, clipboard: string, i: nat, trace: seq<Entry>, device: Device): Outcome {
    match c
    case LaunchApp =>
      var stopped := trace + [Entry(i, StopApp)];
      var started := stopped + [Entry(i, StartApp)];
      if device(stopped) == Broken then Outcome(stopped, false) else Outcome(started, device(started) != Broken)
    case AssertVisible(s, optional) =>
      var asked := trace + [Entry(i, Locate(s))];
      Outcome(asked, device(asked).Found? || optional)
    case TapOn(s, optional) =>
      var asked := trace + [Entry(i, Locate(s))];
      if !device(asked).Found? then Outcome(asked, optional)
      else
        var tapped := asked + [Entry(i, TapAt(device(asked).x, device(asked).y))];
        Outcome(tapped, device(tapped) != Broken || optional)
    case InputText(text) => Text(trace, i, text, device)
    case SetClipboard(_) => Outcome(trace, true)
    case PasteText => Text(trace, i, clipboard, device)
  }

  function NextClipboard(c: FlowCommand, clipboard: string): string {
    if c.SetClipboard? then c.text else clipboard
  }

  function RunFrom(cs: seq<FlowCommand>, i: nat, clipboard: string, trace: seq<Entry>, device: Device): Outcome
    requires i <= |cs|
    decreases |cs| - i
  {
    if i == |cs| then Outcome(trace, true)
    else
      var step := StepOutcome(cs[i], clipboard, i, trace, device);
      if step.ok then RunFrom(cs, i + 1, NextClipboard(cs[i], clipboard), step.trace, device) else step
  }

  function Run(cs: seq<FlowCommand>, device: Device): Outcome {
    var trace := [Entry(0, SwitchUser)];
    if device(trace) == Broken then Outcome(trace, false) else RunFrom(cs, 0, "", trace, device)
  }

  // ----- what a run sends, written out

  /** The text of the nearest `setClipboard` in front of position `i`, or no text. */
  function NearestClipboard(cs: seq<FlowCommand>, i: nat): string
    requires i <= |cs|
  {
    if i == 0 then ""
    else if cs[i - 1].SetClipboard? then cs[i - 1].text
    else NearestClipboard(cs, i - 1)
  }

  /** The requests of a command that went well, behind those before it. */
  ghost predicate Fits(cs: seq<FlowCommand>, i: nat, before: seq<Entry>, own: seq<Entry>, device: Device)
    requires i < |cs|
  {
    match cs[i]
    case LaunchApp =>
      && own == [Entry(i, StopApp), Entry(i, StartApp)]
      && device(before + [Entry(i, StopApp)]) != Broken && device(before + own) != Broken
    case AssertVisible(s, optional) => own == [Entry(i, Locate(s))] && (device(before + own).Found? || optional)
    case TapOn(s, optional) =>
      (match device(before + [Entry(i, Locate(s))])
       case Found(x, y) =>
         own == [Entry(i, Locate(s)), Entry(i, TapAt(x, y))] && (device(before + own) != Broken || optional)
       case _ => own == [Entry(i, Locate(s))] && optional)
    case InputText(text) => own == [Entry(i, TypeText(Encode(text)))] && device(before + own) != Broken
    case SetClipboard(_) => own == []
    case PasteText =>
      own == [Entry(i, TypeText(Encode(NearestClipboard(cs, i))))] && device(before + own) != Broken
  }

  /** The requests of a command that ends the run. */
  ghost predicate Stops(cs: seq<FlowCommand>, i: nat, before: seq<Entry>, own: seq<Entry>, device: Device)
    requires i < |cs|
  {
    match cs[i]
    case LaunchApp =>
      && device(before + own) == Broken
      && (own == [Entry(i, StopApp)]
          || (own == [Entry(i, StopApp), Entry(i, StartApp)] && device(before + [Entry(i, StopApp)]) != Broken))
    case AssertVisible(s, optional) => own == [Entry(i, Locate(s))] && !device(before + own).Found? && !optional
    case TapOn(s, optional) =>
      && !optional
      && (match device(before + [Entry(i, Locate(s))])
          case Found(x, y) =>
            own == [Entry(i, Locate(s)), Entry(i, TapAt(x, y))] && device(before + own) == Broken
          case _ => own == [Entry(i, Locate(s))])
    case InputText(text) => own == [Entry(i, TypeText(Encode(text)))] && device(before + own) == Broken
    case SetClipboard(_) => false
    case PasteText =>
      own == [Entry(i, TypeText(Encode(NearestClipboard(cs, i))))] && device(before + own) == Broken
  }

  ghost predicate FitsAt(cs: seq<FlowCommand>, trace: seq<Entry>, cuts: seq<nat>, i: nat, device: Device)
    requires i < |cs| && i + 1 < |cuts|
  {
    cuts[i] <= cuts[i + 1] <= |trace| && Fits(cs, i, trace[..cuts[i]], trace[cuts[i]..cuts[i + 1]], device)
  }

  /** Behind the user switch, the requests are those of the first commands, each between two
      neighbouring cuts, with nothing else between them. */
  ghost predicate Tells(cs: seq<FlowCommand>, trace: seq<Entry>, cuts: seq<nat>, device: Device) {
    && 1 <= |cuts| <= |cs| + 1 && cuts[0] == 1 && cuts[|cuts| - 1] <= |trace|
    && trace != [] && trace[0] == Entry(0, SwitchUser) && device(trace[..1]) != Broken
    && forall i :: 0 <= i < |cuts| - 1 ==> FitsAt(cs, trace, cuts, i, device)
  }

  /** A run that succeeds has the requests of all its commands; any other run ends with the user
      switch, or with the command behind those that went well. */
  ghost predicate RunTells(cs: seq<FlowCommand>, device: Device, r: Outcome, cuts: seq<nat>) {
    || (r == Outcome([Entry(0, SwitchUser)], false) && device(r.trace) == Broken)
    || (&& Tells(cs, r.trace, cuts, device)
        && (if r.ok then |cuts| == |cs| + 1 && cuts[|cs|] == |r.trace|
            else && |cuts| <= |cs|
                 && Stops(cs, |cuts| - 1, r.trace[..cuts[|cuts| - 1]], r.trace[cuts[|cuts| - 1]..], device)))
  }

  /** The requests that one command adds. */
  function Added(c: FlowCommand, clipboard: string, i: nat, trace: seq<Entry>, device: Device): seq<Entry> {
    StepGrows(c, clipboard, i, trace, device);
    StepOutcome(c, clipboard, i, trace, device).trace[|trace|..]
  }

  lemma StepGrows(c: FlowCommand, clipboard: string, i: nat, trace: seq<Entry>, device: Device)
    ensures trace <= StepOutcome(c, clipboard, i, trace, device).trace
  {
    hide Encode;
  }

  lemma StepFits(cs: seq<FlowCommand>, i: nat, trace: seq<Entry>, device: Device)
    requires i < |cs|
    ensures var clipboard := NearestClipboard(cs, i);
      var step, own := StepOutcome(cs[i], clipboard, i, trace, device), Added(cs[i], clipboard, i, trace, device);
      && step.trace == trace + own
      && (if step.ok then Fits(cs, i, trace, own, device) else Stops(cs, i, trace, own, device))
  {
    hide Encode, NearestClipboard;
    match cs[i] {
      case LaunchApp => PairBehind(trace, Entry(i, StopApp), Entry(i, StartApp));
      case TapOn(s, _) =>
        var found := device(trace + [Entry(i, Locate(s))]);
        if found.Found? {
          PairBehind(trace, Entry(i, Locate(s)), Entry(i, TapAt(found.x, found.y)));
        }
      case _ =>
    }
  }

  lemma PairBehind(trace: seq<Entry>, a: Entry, b: Entry)
    ensures trace + [a] + [b] == trace + [a, b]
  {
  }

  lemma TellsInFront(cs: seq<FlowCommand>, trace: seq<Entry>, cuts: seq<nat>, own: seq<Entry>, device: Device)
    requires Tells(cs, trace, cuts, device)
    ensures Tells(cs, trace + own, cuts, device)
  {
    hide Fits;
    var all := trace + own;
    assert all[..1] == trace[..1];
    forall i | 0 <= i < |cuts| - 1
      ensures FitsAt(cs, all, cuts, i, device)
    {
      assert FitsAt(cs, trace, cuts, i, device);
      assert all[..cuts[i]] == trace[..cuts[i]] && all[cuts[i]..cuts[i + 1]] == trace[cuts[i]..cuts[i + 1]];
    }
  }

  lemma TellsMore(cs: seq<FlowCommand>, trace: seq<Entry>, cuts: seq<nat>, own: seq<Entry>, device: Device)
    requires Tells(cs, trace, cuts, device) && |cuts| <= |cs| && cuts[|cuts| - 1] == |trace|
    requires Fits(cs, |cuts| - 1, trace, own, device)
    ensures Tells(cs, trace + own, cuts + [|trace + own|], device)
  {
    hide Fits;
    var all, more, n := trace + own, cuts + [|trace + own|], |cuts| - 1;
    TellsInFront(cs, trace, cuts, own, device);
    forall i | 0 <= i < |more| - 1
      ensures FitsAt(cs, all, more, i, device)
    {
      if i < n {
        assert FitsAt(cs, all, cuts, i, device);
      } else {
        assert all[..more[i]] == trace && all[more[i]..more[i + 1]] == own;
      }
    }
  }

  lemma {:induction false} RunFromTells(cs: seq<FlowCommand>, i: nat, trace: seq<Entry>, cuts: seq<nat>,
                                        device: Device)
      returns (all: seq<nat>)
    requires Tells(cs, trace, cuts, device) && i <= |cs| && |cuts| == i + 1 && cuts[i] == |trace|
    ensures RunTells(cs, device, RunFrom(cs, i, NearestClipboard(cs, i), trace, device), all)
    decreases |cs| - i
  {
    hide StepOutcome, Tells, Fits, Stops, Added;
    all := cuts;
    if i < |cs| {
      var clipboard := NearestClipboard(cs, i);
      var step, own := StepOutcome(cs[i], clipboard, i, trace, device), Added(cs[i], clipboard, i, trace, device);
      StepFits(cs, i, trace, device);
      if step.ok {
        assert NearestClipboard(cs, i + 1) == NextClipboard(cs[i], clipboard);
        TellsMore(cs, trace, cuts, own, device);
        all := RunFromTells(cs, i + 1, trace + own, cuts + [|trace + own|], device);
      } else {
        TellsInFront(cs, trace, cuts, own, device);
        assert (trace + own)[..|trace|] == trace && (trace + own)[|trace|..] == own;
      }
    }
  }

  /** What any run sends and how it ends, on any device. */
  lemma RunWritten(cs: seq<FlowCommand>, device: Device) returns (cuts: seq<nat>)
    ensures RunTells(cs, device, Run(cs, device), cuts)
  {
    hide RunFrom, Fits, Stops;
    cuts := [1];
    var trace := [Entry(0, SwitchUser)];
    assert trace[..1] == trace;
    if device(trace) != Broken {
      cuts := RunFromTells(cs, 0, trace, cuts, device);
    }
  }

  // ----- the loop

  method InjectText(value: string, i: nat, trace: seq<Entry>, device: Device) returns (r: Outcome)
    ensures r == Text(trace, i, value, device)
  {
    NormalizeIsEncode(value);
    var sent := trace + [Entry(i, TypeText(NormalizeText(value)))];
    return Outcome(sent, device(sent) != Broken);
  }

  method TapSelector(s: Selector, optional: bool, i: nat, trace: seq<Entry>, device: Device) returns (r: Outcome)
    ensures r == StepOutcome(TapOn(s, optional), "", i, trace, device)
  {
    var asked := trace + [Entry(i, Locate(s))];
    var found := device(asked);
    if !found.Found? { return Outcome(asked, optional); }
    var tapped := asked + [Entry(i, TapAt(found.x, found.y))];
    return Outcome(tapped, device(tapped) != Broken || optional);
  }

  method Launch(i: nat, trace: seq<Entry>, device: Device) returns (r: Outcome)
    ensures r == StepOutcome(LaunchApp, "", i, trace, device)
  {
    var stopped := trace + [Entry(i, StopApp)];
    if device(stopped) == Broken { return Outcome(stopped, false); }
    var started := stopped + [Entry(i, StartApp)];
    return Outcome(started, device(started) != Broken);
  }

  method RunCommands(cs: seq<FlowCommand>, device: Device) returns (r: Outcome)
    ensures r == Run(cs, device)
    ensures exists cuts :: RunTells(cs, device, r, cuts)
  {
    hide Text, RunTells, NearestClipboard;
    ghost var cuts := RunWritten(cs, device);
    var clipboard := "";
    var trace := [Entry(0, SwitchUser)];
    if device(trace) == Broken { return Outcome(trace, false); }
    var index := 0;
    while index < |cs|
      invariant index <= |cs|
      invariant RunFrom(cs, index, clipboard, trace, device) == Run(cs, device)
    {
      var step := Outcome(trace, true);
      match cs[index] {
        case LaunchApp => step := Launch(index, trace, device);
        case AssertVisible(s, optional) =>
          var asked := trace + [Entry(index, Locate(s))];
          step := Outcome(asked, device(asked).Found? || optional);
        case TapOn(s, optional) => step := TapSelector(s, optional, index, trace, device);
        case InputText(text) => step := InjectText(text, index, trace, device);
        case SetClipboard(text) => clipboard := text;
        case PasteText => step := InjectText(clipboard, index, trace, device);
      }
      if !step.ok { return step; }
      trace := step.trace;
      index := index + 1;
    }
    return Outcome(trace, true);
  }

  // ----- what is pasted

  /** The texts, with their positions, that the first `n` commands are to type. */
  function Typed(cs: seq<FlowCommand>, n: nat): seq<(nat, string)>
    requires n <= |cs|
  {
    if n == 0 then []
    else
      var c := cs[n - 1];
      Typed(cs, n - 1)
      + (if c.InputText? then [(n - 1, c.text)]
         else if c.PasteText? then [(n - 1, NearestClipboard(cs, n - 1))]
         else [])
  }

  function EncodedAll(texts: seq<(nat, string)>): seq<Entry> {
    if texts == [] then []
    else EncodedAll(texts[..|texts| - 1])
         + [Entry(texts[|texts| - 1].0, TypeText(Encode(texts[|texts| - 1].1)))]
  }

  /** The requests of a run that type text. */
  function TextRequests(trace: seq<Entry>): seq<Entry> {
    if trace == [] then []
    else
      var last := trace[|trace| - 1];
      TextRequests(trace[..|trace| - 1]) + (if last.request.TypeText? then [last] else [])
  }

  lemma TextRequestsAdd(trace: seq<Entry>, e: Entry)
    ensures TextRequests(trace + [e]) == TextRequests(trace) + (if e.request.TypeText? then [e] else [])
  {
    assert (trace + [e])[..|trace|] == trace;
  }

  lemma EncodedAdd(texts: seq<(nat, string)>, i: nat, text: string)
    ensures EncodedAll(texts + [(i, text)]) == EncodedAll(texts) + [Entry(i, TypeText(Encode(text)))]
  {
    hide Encode;
    assert (texts + [(i, text)])[..|texts|] == texts;
  }

  lemma StepTypes(cs: seq<FlowCommand>, i: nat, trace: seq<Entry>, device: Device)
    requires i < |cs|
    requires TextRequests(trace) == EncodedAll(Typed(cs, i))
    ensures TextRequests(StepOutcome(cs[i], NearestClipboard(cs, i), i, trace, device).trace)
         == EncodedAll(Typed(cs, i + 1))
  {
    hide Encode, EncodedAll, TextRequests, NearestClipboard;
    match cs[i] {
      case LaunchApp =>
        TextRequestsAdd(trace, Entry(i, StopApp));
        TextRequestsAdd(trace + [Entry(i, StopApp)], Entry(i, StartApp));
        assert Typed(cs, i + 1) == Typed(cs, i);
      case AssertVisible(s, _) =>
        TextRequestsAdd(trace, Entry(i, Locate(s)));
        assert Typed(cs, i + 1) == Typed(cs, i);
      case TapOn(s, _) =>
        var asked := trace + [Entry(i, Locate(s))];
        TextRequestsAdd(trace, Entry(i, Locate(s)));
        assert Typed(cs, i + 1) == Typed(cs, i);
        if device(asked).Found? {
          TextRequestsAdd(asked, Entry(i, TapAt(device(asked).x, device(asked).y)));
        }
      case InputText(text) =>
        TextRequestsAdd(trace, Entry(i, TypeText(Encode(text))));
        EncodedAdd(Typed(cs, i), i, text);
      case SetClipboard(_) =>
        assert Typed(cs, i + 1) == Typed(cs, i);
      case PasteText =>
        TextRequestsAdd(trace, Entry(i, TypeText(Encode(NearestClipboard(cs, i)))));
        EncodedAdd(Typed(cs, i), i, NearestClipboard(cs, i));
    }
  }

  lemma {:induction false} RunFromTypes(cs: seq<FlowCommand>, i: nat, trace: seq<Entry>, device: Device)
      returns (n: nat)
    requires i <= |cs| && TextRequests(trace) == EncodedAll(Typed(cs, i))
    ensures i <= n <= |cs|
    ensures var r := RunFrom(cs, i, NearestClipboard(cs, i), trace, device);
      && TextRequests(r.trace) == EncodedAll(Typed(cs, n))
      && (r.ok ==> n == |cs|)
    decreases |cs| - i
  {
    hide StepOutcome, TextRequests, EncodedAll, Typed;
    n := i;
    if i < |cs| {
      var step := StepOutcome(cs[i], NearestClipboard(cs, i), i, trace, device);
      StepTypes(cs, i, trace, device);
      n := i + 1;
      if step.ok {
        assert NearestClipboard(cs, i + 1) == NextClipboard(cs[i], NearestClipboard(cs, i));
        n := RunFromTypes(cs, i + 1, step.trace, device);
      }
    }
  }

  /** Over a whole run on any device: the texts typed are those of the first `n` commands,
      in order, each paste with the nearest earlier clipboard text; `n` is all of them
      when the run succeeds. */
  lemma RunTypes(cs: seq<FlowCommand>, device: Device) returns (n: nat)
    ensures n <= |cs|
    ensures TextRequests(Run(cs, device).trace) == EncodedAll(Typed(cs, n))
    ensures Run(cs, device).ok ==> n == |cs|
  {
    hide StepOutcome, RunFrom;
    var nothing: seq<Entry> := [];
    var trace := nothing + [Entry(0, SwitchUser)];
    TextRequestsAdd(nothing, Entry(0, SwitchUser));
    n := 0;
    if device(trace) != Broken {
      n := RunFromTypes(cs, 0, trace, device);
    }
  }

  /** When no text holds a backslash, everything that a run has typed decodes to the text
      that was meant. */
  lemma {:induction false} TypedDecodes(texts: seq<(nat, string)>, k: nat)
    requires k < |texts| && '\\' !in texts[k].1
    ensures |EncodedAll(texts)| == |texts|
    ensures EncodedAll(texts)[k].index == texts[k].0 && EncodedAll(texts)[k].request.TypeText?
    ensures Decode(EncodedAll(texts)[k].request.encoded) == texts[k].1
  {
    hide Encode, Decode;
    var last := |texts| - 1;
    EncodedLength(texts);
    EncodedLength(texts[..last]);
    if k < last {
      TypedDecodes(texts[..last], k);
    } else {
      DecodeEncode(texts[k].1);
    }
  }

  lemma {:induction false} EncodedLength(texts: seq<(nat, string)>)
    ensures |EncodedAll(texts)| == |texts|
  {
    if texts != [] {
      EncodedLength(texts[..|texts| - 1]);
    }
  }

  // ----- what stops a run

  /** A selector command that the flow must have. */
  predicate Mandatory(c: FlowCommand) {
    (c.AssertVisible? || c.TapOn?) && !c.optional
  }

  /** After a run that succeeded, the device had found the target of every mandatory command. */
  lemma {:induction false} SuccessMeetsSelectors(cs: seq<FlowCommand>, i: nat, clipboard: string, trace: seq<Entry>,
                                                 device: Device, k: nat)
      returns (asked: seq<Entry>)
    requires i <= k < |cs| && Mandatory(cs[k])
    requires RunFrom(cs, i, clipboard, trace, device).ok
    ensures asked <= RunFrom(cs, i, clipboard, trace, device).trace
    ensures asked != [] && asked[|asked| - 1] == Entry(k, Locate(cs[k].selector)) && device(asked).Found?
    decreases |cs| - i
  {
    hide StepOutcome;
    var step := StepOutcome(cs[i], clipboard, i, trace, device);
    if i == k {
      asked := MandatoryAsks(cs[i], clipboard, i, trace, device);
      TraceGrows(cs, i + 1, NextClipboard(cs[i], clipboard), step.trace, device);
    } else {
      asked := SuccessMeetsSelectors(cs, i + 1, NextClipboard(cs[i], clipboard), step.trace, device, k);
    }
  }

  lemma MandatoryAsks(c: FlowCommand, clipboard: string, i: nat, trace: seq<Entry>, device: Device)
      returns (asked: seq<Entry>)
    requires Mandatory(c) && StepOutcome(c, clipboard, i, trace, device).ok
    ensures asked <= StepOutcome(c, clipboard, i, trace, device).trace
    ensures asked != [] && asked[|asked| - 1] == Entry(i, Locate(c.selector)) && device(asked).Found?
  {
    asked := trace + [Entry(i, Locate(c.selector))];
  }

  lemma {:induction false} TraceGrows(cs: seq<FlowCommand>, i: nat, clipboard: string, trace: seq<Entry>,
                                      device: Device)
    requires i <= |cs|
    ensures trace <= RunFrom(cs, i, clipboard, trace, device).trace
    decreases |cs| - i
  {
    hide StepOutcome;
    if i < |cs| {
      var step := StepOutcome(cs[i], clipboard, i, trace, device);
      StepGrows(cs[i], clipboard, i, trace, device);
      if step.ok {
        TraceGrows(cs, i + 1, NextClipboard(cs[i], clipboard), step.trace, device);
      }
    }
  }

  /** What made a run stop: its last request was not met, and the command behind it is not an
      optional selector. */
  predicate Refused(trace: seq<Entry>, cs: seq<FlowCommand>, device: Device) {
    && trace != []
    && var last := trace[|trace| - 1];
       && last.index < |cs| && !Optional(cs[last.index])
       && (device(trace) == Broken || (last.request.Locate? && !device(trace).Found?))
  }

  predicate Optional(c: FlowCommand) {
    (c.AssertVisible? || c.TapOn?) && c.optional
  }

  lemma StepRefused(cs: seq<FlowCommand>, i: nat, clipboard: string, trace: seq<Entry>, device: Device)
    requires i < |cs| && !StepOutcome(cs[i], clipboard, i, trace, device).ok
    ensures Refused(StepOutcome(cs[i], clipboard, i, trace, device).trace, cs, device)
  {
    hide Encode;
  }

  /** A run that fails was refused something by the device that no optional selector asked for. */
  lemma {:induction false} FailureHasCause(cs: seq<FlowCommand>, i: nat, clipboard: string, trace: seq<Entry>,
                                           device: Device)
    requires i <= |cs| && !RunFrom(cs, i, clipboard, trace, device).ok
    ensures Refused(RunFrom(cs, i, clipboard, trace, device).trace, cs, device)
    decreases |cs| - i
  {
    hide StepOutcome, Refused;
    var step := StepOutcome(cs[i], clipboard, i, trace, device);
    if step.ok {
      FailureHasCause(cs, i + 1, NextClipboard(cs[i], clipboard), step.trace, device);
    } else {
      StepRefused(cs, i, clipboard, trace, device);
    }
  }

  // ----- what stands in front of a request

  /** An app is started only right behind its stop, and a tap goes to the point at which the
      device has just found the selector of the same command. */
  predicate OrderlyAt(trace: seq<Entry>, p: nat, device: Device)
    requires p < |trace|
  {
    match trace[p].request
    case StartApp => p > 0 && trace[p - 1] == Entry(trace[p].index, StopApp)
    case TapAt(x, y) =>
      && p > 0 && trace[p - 1].index == trace[p].index && trace[p - 1].request.Locate?
      && device(trace[..p]) == Found(x, y)
    case _ => true
  }

  ghost predicate Orderly(trace: seq<Entry>, device: Device) {
    forall p :: 0 <= p < |trace| ==> OrderlyAt(trace, p, device)
  }

  lemma OrderlyAdd(trace: seq<Entry>, e: Entry, device: Device)
    requires Orderly(trace, device) && OrderlyAt(trace + [e], |trace|, device)
    ensures Orderly(trace + [e], device)
  {
    var all := trace + [e];
    forall p | 0 <= p < |all|
      ensures OrderlyAt(all, p, device)
    {
      if p < |trace| {
        assert OrderlyAt(trace, p, device);
        assert all[..p] == trace[..p] && (p > 0 ==> all[p - 1] == trace[p - 1]) && all[p] == trace[p];
      }
    }
  }

  lemma StepOrderly(c: FlowCommand, clipboard: string, i: nat, trace: seq<Entry>, device: Device)
    requires Orderly(trace, device)
    ensures Orderly(StepOutcome(c, clipboard, i, trace, device).trace, device)
  {
    hide Encode, Orderly;
    match c {
      case LaunchApp =>
        OrderlyAdd(trace, Entry(i, StopApp), device);
        OrderlyAdd(trace + [Entry(i, StopApp)], Entry(i, StartApp), device);
      case AssertVisible(s, _) => OrderlyAdd(trace, Entry(i, Locate(s)), device);
      case TapOn(s, _) =>
        var asked := trace + [Entry(i, Locate(s))];
        OrderlyAdd(trace, Entry(i, Locate(s)), device);
        if device(asked).Found? {
          var tap := Entry(i, TapAt(device(asked).x, device(asked).y));
          assert (asked + [tap])[..|asked|] == asked;
          OrderlyAdd(asked, tap, device);
        }
      case InputText(text) => OrderlyAdd(trace, Entry(i, TypeText(Encode(text))), device);
      case SetClipboard(_) =>
      case PasteText => OrderlyAdd(trace, Entry(i, TypeText(Encode(clipboard))), device);
    }
  }

  lemma {:induction false} RunFromOrderly(cs: seq<FlowCommand>, i: nat, clipboard: string, trace: seq<Entry>,
                                          device: Device)
    requires i <= |cs| && Orderly(trace, device)
    ensures Orderly(RunFrom(cs, i, clipboard, trace, device).trace, device)
    decreases |cs| - i
  {
    hide StepOutcome, Orderly;
    if i < |cs| {
      var step := StepOutcome(cs[i], clipboard, i, trace, device);
      StepOrderly(cs[i], clipboard, i, trace, device);
      if step.ok {
        RunFromOrderly(cs, i + 1, NextClipboard(cs[i], clipboard), step.trace, device);
      }
    }
  }

  /** Every run is orderly, on any device. */
  lemma RunIsOrderly(cs: seq<FlowCommand>, device: Device)
    ensures Orderly(Run(cs, device).trace, device)
  {
    hide StepOutcome, RunFrom;
    RunFromOrderly(cs, 0, "", [Entry(0, SwitchUser)], device);
  }
}
