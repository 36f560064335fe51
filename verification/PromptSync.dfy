/** Synchronising the managed prompt blocks of a runtime config file: write mode,
    check mode and dry run. */
module PromptSync {
  import opened Prelude
  import opened Text
  import opened Json
  import opened ManagedBlock

  /** Parsing and printing of config files, printing with its final newline. */
  datatype Codec = Codec(parse: string -> Option<Value>, stringify: Value -> string) {
    /** What is printed for this value reads back as the value. */
    predicate RoundTrips(v: Value) {
      parse(stringify(v)) == Some(v)
    }
  }

  /** The prompt built for each agent, where its policy sources are readable. */
  type Prompts = map<Agent, string>

  datatype SyncError =
    | BadConfig
    | AgentMissing(agent: Agent)
    | PromptUnavailable(agent: Agent)
    | OutOfSync

  datatype SyncOptions = SyncOptions(agents: seq<Agent>, check: bool, dryRun: bool)

  datatype SyncResult = SyncResult(checkedAgents: nat, plannedAgents: nat, updatedAgents: nat)

  const PROMPT_APPEND := "prompt_append"
  const AGENTS := "agents"

  predicate Falsy(v: Value) {
    v == Null || v == Bool(false) || v == Num(0.0) || v == Str("")
  }

  /** The existing text, where it can be merged into: a string, null or nothing. */
  function ExistingText(fields: Fields): Option<Option<string>> {
    match Lookup(fields, PROMPT_APPEND)
    case None => Some(None)
    case Some(Null) => Some(None)
    case Some(Str(s)) => Some(Some(s))
    case Some(_) => None
  }

  /** One agent's entry after its block is merged in.  An array takes the property
      too, but printing drops it. */
  function UpdateEntry(entry: Value, agent: Agent, prompt: string): Result<Value, SyncError> {
    MarkersOfValid(agent);
    if Falsy(entry) then Err(AgentMissing(agent))
    else match entry
      case Arr(_) => Ok(entry)
      case Obj(fields) =>
        (match ExistingText(fields)
         case None => Err(BadConfig)
         case Some(text) =>
           Ok(Obj(Put(fields, PROMPT_APPEND, Str(MergePromptAppend(text, MarkersOf(agent), prompt))))))
      case _ => Err(BadConfig)
  }

  function UpdateAgent(agents: Fields, agent: Agent, prompts: Prompts): Result<Fields, SyncError> {
    match Lookup(agents, agent.Name())
    case None => Err(AgentMissing(agent))
    case Some(entry) =>
      if Falsy(entry) then Err(AgentMissing(agent))
      else if agent !in prompts then Err(PromptUnavailable(agent))
      else match UpdateEntry(entry, agent, prompts[agent])
        case Err(e) => Err(e)
        case Ok(updated) => Ok(Put(agents, agent.Name(), updated))
  }

  function UpdateAgents(agents: Fields, list: seq<Agent>, prompts: Prompts): Result<Fields, SyncError>
    decreases |list|
  {
    if list == [] then Ok(agents)
    else match UpdateAgent(agents, list[0], prompts)
      case Err(e) => Err(e)
      case Ok(next) => UpdateAgents(next, list[1..], prompts)
  }

  /** The agent table of a config: `parsed.agents ?? {}`, where it is an object. */
  function AgentTable(config: Fields): Option<Fields> {
    match Lookup(config, AGENTS)
    case None => Some([])
    case Some(Null) => Some([])
    case Some(Obj(fields)) => Some(fields)
    case Some(_) => None
  }

  /** The config that a write would store. */
  function NextConfig(config: Value, list: seq<Agent>, prompts: Prompts): Result<Value, SyncError> {
    if !config.Obj? then Err(BadConfig)
    else match AgentTable(config.fields)
      case None => Err(BadConfig)
      case Some(agents) =>
        match UpdateAgents(agents, list, prompts)
        case Err(e) => Err(e)
        case Ok(next) => Ok(Obj(Put(config.fields, AGENTS, Obj(next))))
  }

  function NextRaw(raw: string, codec: Codec, list: seq<Agent>, prompts: Prompts): Result<string, SyncError> {
    match codec.parse(raw)
    case None => Err(BadConfig)
    case Some(config) =>
      match NextConfig(config, list, prompts)
      case Err(e) => Err(e)
      case Ok(next) => Ok(codec.stringify(next))
  }

  class ConfigFile {
    var raw: string

    constructor (content: string)
      ensures raw == content
    {
      raw := content;
    }

    /** Check mode and dry run never write; a failure never writes; a write stores the next text. */
    method Sync(options: SyncOptions, codec: Codec, prompts: Prompts) returns (r: Result<SyncResult, SyncError>)
      modifies this
      ensures var next := NextRaw(old(raw), codec, options.agents, prompts);
              match next
              case Err(e) => r == Err(e) && raw == old(raw)
              case Ok(text) =>
                if options.check then
                  raw == old(raw)
                  && r == (if old(raw) == text then Ok(SyncResult(|options.agents|, |options.agents|, 0))
                           else Err(OutOfSync))
                else if options.dryRun then
                  raw == old(raw) && r == Ok(SyncResult(0, |options.agents|, 0))
                else
                  raw == text && r == Ok(SyncResult(0, |options.agents|, |options.agents|))
      ensures r.Ok? && !options.check && !options.dryRun && Distinct(options.agents) ==>
        WrittenOver(old(raw), raw, codec, options.agents, prompts)
    {
      hide WrittenOver;
      ghost var before := raw;
      var parsed := codec.parse(raw);
      if parsed.None? || !parsed.value.Obj? { return Err(BadConfig); }
      var config := parsed.value.fields;
      var table := AgentTable(config);
      if table.None? { return Err(BadConfig); }
      var agents := table.value;
      var checkedAgents := 0;
      var i := 0;
      while i < |options.agents|
        invariant 0 <= i <= |options.agents| && checkedAgents == i
        invariant raw == old(raw)
        invariant UpdateAgents(table.value, options.agents, prompts)
               == UpdateAgents(agents, options.agents[i..], prompts)
      {
        var updated := UpdateAgent(agents, options.agents[i], prompts);
        assert options.agents[i..][1..] == options.agents[i + 1..];
        if updated.Err? { return Err(updated.error); }
        agents := updated.value;
        checkedAgents := checkedAgents + 1;
        i := i + 1;
      }
      assert options.agents[i..] == [];
      var nextRaw := codec.stringify(Obj(Put(config, AGENTS, Obj(agents))));
      if options.check {
        if raw != nextRaw { return Err(OutOfSync); }
        return Ok(SyncResult(checkedAgents, |options.agents|, 0));
      }
      if options.dryRun { return Ok(SyncResult(0, |options.agents|, 0)); }
      raw := nextRaw;
      if Distinct(options.agents) { WriteHoldsPrompts(before, raw, codec, options.agents, prompts); }
      return Ok(SyncResult(0, |options.agents|, |options.agents|));
    }
  }

  // ----- a second pass over one entry

  /** The hand-written part of an entry's `prompt_append`. */
  function HandWritten(fields: Fields, agent: Agent): string
    requires ExistingText(fields).Some?
  {
    MarkersOfValid(agent);
    ManualText(ExistingText(fields).value, MarkersOf(agent))
  }

  /** The hand-written part of an entry carries no begin marker of its agent. */
  predicate CleanEntry(entry: Value, agent: Agent) {
    entry.Obj? && ExistingText(entry.fields).Some? ==>
      !Contains(HandWritten(entry.fields, agent), MarkersOf(agent).begin)
  }

  predicate PromptClosed(agent: Agent, prompts: Prompts) {
    agent in prompts ==> !Contains(prompts[agent], MarkersOf(agent).end)
  }

  lemma UpdateEntryTwice(entry: Value, agent: Agent, prompt: string)
    requires UpdateEntry(entry, agent, prompt).Ok?
    requires !Contains(prompt, MarkersOf(agent).end)
    ensures var once := UpdateEntry(entry, agent, prompt).value;
            UpdateEntry(once, agent, prompt) == Ok(once) <==> CleanEntry(entry, agent)
  {
    var m := MarkersOf(agent);
    MarkersOfValid(agent);
    if entry.Obj? {
      var text := ExistingText(entry.fields).value;
      var merged := MergePromptAppend(text, m, prompt);
      MergeReplaces(text, m, prompt, prompt);
      StorePromptTwice(entry.fields, merged, MergePromptAppend(Some(merged), m, prompt));
    }
  }

  lemma StorePromptTwice(fields: Fields, merged: string, again: string)
    ensures ExistingText(Put(fields, PROMPT_APPEND, Str(merged))) == Some(Some(merged))
    ensures again == merged
       <==> Put(Put(fields, PROMPT_APPEND, Str(merged)), PROMPT_APPEND, Str(again))
            == Put(fields, PROMPT_APPEND, Str(merged))
  {
    var stored := Put(fields, PROMPT_APPEND, Str(merged));
    PutLookup(fields, PROMPT_APPEND, Str(merged), PROMPT_APPEND);
    PutSame(stored, PROMPT_APPEND, Str(again));
  }

  // ----- the pass over the agent table

  lemma NamesDiffer(a: Agent, b: Agent)
    requires a != b
    ensures a.Name() != b.Name()
  {
    assert Atlas.Name()[0] == 'a' && Prometheus.Name()[0] == 'p';
  }

  /** A pass leaves every entry of a name it does not list. */
  lemma {:induction false} UnlistedEntryKept(agents: Fields, list: seq<Agent>, prompts: Prompts, key: string)
    requires UpdateAgents(agents, list, prompts).Ok?
    requires forall i :: 0 <= i < |list| ==> list[i].Name() != key
    ensures Lookup(UpdateAgents(agents, list, prompts).value, key) == Lookup(agents, key)
    decreases |list|
  {
    if list != [] {
      var next := UpdateAgent(agents, list[0], prompts).value;
      PassKeepsOther(agents, list[0], prompts, key);
      UnlistedEntryKept(next, list[1..], prompts, key);
    }
  }

  lemma PassKeepsOther(agents: Fields, agent: Agent, prompts: Prompts, key: string)
    requires UpdateAgent(agents, agent, prompts).Ok?
    requires agent.Name() != key
    ensures Lookup(UpdateAgent(agents, agent, prompts).value, key) == Lookup(agents, key)
  {
    var entry := Lookup(agents, agent.Name()).value;
    var updated := UpdateEntry(entry, agent, prompts[agent]).value;
    PutLookup(agents, agent.Name(), updated, key);
  }

  predicate Distinct(list: seq<Agent>) {
    forall i, j :: 0 <= i < j < |list| ==> list[i] != list[j]
  }

  /** A pass over distinct agents updates each listed entry once. */
  lemma {:induction false} ListedEntryUpdated(agents: Fields, list: seq<Agent>, prompts: Prompts, k: nat)
    requires UpdateAgents(agents, list, prompts).Ok? && Distinct(list) && k < |list|
    ensures list[k] in prompts && Lookup(agents, list[k].Name()).Some?
    ensures var updated := UpdateEntry(Lookup(agents, list[k].Name()).value, list[k], prompts[list[k]]);
            updated.Ok? && Lookup(UpdateAgents(agents, list, prompts).value, list[k].Name()) == Some(updated.value)
    decreases |list|
  {
    var first, rest := list[0], list[1..];
    var next := UpdateAgent(agents, first, prompts).value;
    if k == 0 {
      forall i | 0 <= i < |rest|
        ensures rest[i].Name() != first.Name()
      {
        assert list[0] != list[i + 1];
        NamesDiffer(rest[i], first);
      }
      UnlistedEntryKept(next, rest, prompts, first.Name());
      PutLookup(agents, first.Name(),
                UpdateEntry(Lookup(agents, first.Name()).value, first, prompts[first]).value, first.Name());
    } else {
      ListedEntryUpdated(next, rest, prompts, k - 1);
      assert rest[k - 1] == list[k] && list[0] != list[k];
      NamesDiffer(list[0], list[k]);
      PassKeepsOther(agents, first, prompts, list[k].Name());
    }
  }

  /** An agent whose entry a pass would leave as it is. */
  predicate Stable(agents: Fields, agent: Agent, prompts: Prompts) {
    UpdateAgent(agents, agent, prompts) == Ok(agents)
  }

  lemma {:induction false} StablePass(agents: Fields, list: seq<Agent>, prompts: Prompts)
    requires forall i :: 0 <= i < |list| ==> Stable(agents, list[i], prompts)
    ensures UpdateAgents(agents, list, prompts) == Ok(agents)
    decreases |list|
  {
    if list != [] {
      assert Stable(agents, list[0], prompts);
      StablePass(agents, list[1..], prompts);
    }
  }

  lemma StableEntry(agents: Fields, agent: Agent, prompts: Prompts, entry: Value)
    requires Lookup(agents, agent.Name()) == Some(entry) && agent in prompts
    ensures Stable(agents, agent, prompts) <==> UpdateEntry(entry, agent, prompts[agent]) == Ok(entry)
  {
    var u := UpdateEntry(entry, agent, prompts[agent]);
    if u.Ok? {
      PutSame(agents, agent.Name(), u.value);
    }
  }

  /** The hand-written text of every listed agent is free of that agent's begin marker. */
  predicate CleanTable(agents: Fields, list: seq<Agent>) {
    forall i :: 0 <= i < |list| && Lookup(agents, list[i].Name()).Some? ==>
      CleanEntry(Lookup(agents, list[i].Name()).value, list[i])
  }

  /** A second pass changes nothing exactly when the hand-written texts were clean. */
  lemma SecondPass(agents: Fields, list: seq<Agent>, prompts: Prompts)
    requires UpdateAgents(agents, list, prompts).Ok? && Distinct(list)
    requires forall i :: 0 <= i < |list| ==> PromptClosed(list[i], prompts)
    ensures UpdateAgents(UpdateAgents(agents, list, prompts).value, list, prompts)
              == UpdateAgents(agents, list, prompts)
       <==> CleanTable(agents, list)
  {
    var once := UpdateAgents(agents, list, prompts).value;
    forall k: nat | k < |list|
      ensures Stable(once, list[k], prompts)
         <==> (Lookup(agents, list[k].Name()).Some? ==> CleanEntry(Lookup(agents, list[k].Name()).value, list[k]))
    {
      StableAfterPass(agents, list, prompts, k);
    }
    if CleanTable(agents, list) {
      StablePass(once, list, prompts);
    }
    if UpdateAgents(once, list, prompts) == Ok(once) {
      forall k: nat | k < |list|
        ensures Stable(once, list[k], prompts)
      {
        ListedEntryUpdated(agents, list, prompts, k);
        ListedEntryUpdated(once, list, prompts, k);
        StableEntry(once, list[k], prompts, Lookup(once, list[k].Name()).value);
      }
    }
  }

  lemma StableAfterPass(agents: Fields, list: seq<Agent>, prompts: Prompts, k: nat)
    requires UpdateAgents(agents, list, prompts).Ok? && Distinct(list) && k < |list|
    requires PromptClosed(list[k], prompts)
    ensures Lookup(agents, list[k].Name()).Some?
    ensures Stable(UpdateAgents(agents, list, prompts).value, list[k], prompts)
       <==> CleanEntry(Lookup(agents, list[k].Name()).value, list[k])
  {
    ListedEntryUpdated(agents, list, prompts, k);
    var entry := Lookup(agents, list[k].Name()).value;
    var updated := UpdateEntry(entry, list[k], prompts[list[k]]).value;
    StableEntry(UpdateAgents(agents, list, prompts).value, list[k], prompts, updated);
    UpdateEntryTwice(entry, list[k], prompts[list[k]]);
  }

  // ----- what a write stores, written out

  /** The text of an agent's entry: what the user wrote, and the prompt between the markers. */
  predicate HoldsPrompt(text: string, manual: string, agent: Agent, prompt: string) {
    var name := if agent.Atlas? then "atlas" else "prometheus";
    text == (if manual == "" then "" else manual + "\n\n")
            + ("[mobile-e2e-mcp managed agent prompt:" + name + " begin]") + "\n" + prompt + "\n"
            + ("[mobile-e2e-mcp managed agent prompt:" + name + " end]")
  }

  /** An entry that is an object gets the prompt behind what the user wrote; a list stays. */
  predicate EntryWritten(before: Value, after: Value, agent: Agent, prompt: string) {
    match before
    case Obj(fields) =>
      && ExistingText(fields).Some? && after.Obj?
      && (match Lookup(after.fields, "prompt_append")
          case Some(Str(text)) => HoldsPrompt(text, HandWritten(fields, agent), agent, prompt)
          case _ => false)
    case _ => before.Arr? && after == before
  }

  predicate AgentWritten(before: Fields, after: Fields, agent: Agent, prompts: Prompts) {
    var name := if agent.Atlas? then "atlas" else "prometheus";
    && agent in prompts && Lookup(before, name).Some? && Lookup(after, name).Some?
    && EntryWritten(Lookup(before, name).value, Lookup(after, name).value, agent, prompts[agent])
  }

  /** The stored text prints a config whose agent table holds the prompt of every listed agent. */
  ghost predicate WrittenOver(was: string, now: string, codec: Codec, list: seq<Agent>, prompts: Prompts) {
    exists config: Fields, next: Fields, table: Fields ::
      && codec.parse(was) == Some(Obj(config)) && now == codec.stringify(Obj(next))
      && Lookup(next, "agents") == Some(Obj(table)) && AgentTable(config).Some?
      && forall k :: 0 <= k < |list| ==> AgentWritten(AgentTable(config).value, table, list[k], prompts)
  }

  lemma EntryHoldsPrompt(entry: Value, agent: Agent, prompt: string)
    requires UpdateEntry(entry, agent, prompt).Ok?
    ensures EntryWritten(entry, UpdateEntry(entry, agent, prompt).value, agent, prompt)
  {
    hide ManualText, MergePromptAppend, MARKER_PREFIX;
    MarkersOfValid(agent);
    if entry.Obj? {
      var text, m := ExistingText(entry.fields).value, MarkersOf(agent);
      var merged := MergePromptAppend(text, m, prompt);
      MergeWritten(text, m, prompt);
      MarkersAre(agent);
      PutLookup(entry.fields, PROMPT_APPEND, Str(merged), PROMPT_APPEND);
    }
  }

  lemma MarkersAre(agent: Agent)
    ensures var name := if agent.Atlas? then "atlas" else "prometheus";
      && agent.Name() == name
      && MarkersOf(agent).begin == "[mobile-e2e-mcp managed agent prompt:" + name + " begin]"
      && MarkersOf(agent).end == "[mobile-e2e-mcp managed agent prompt:" + name + " end]"
  {
  }

  lemma AgentHoldsPrompt(agents: Fields, list: seq<Agent>, prompts: Prompts, k: nat)
    requires UpdateAgents(agents, list, prompts).Ok? && Distinct(list) && k < |list|
    ensures AgentWritten(agents, UpdateAgents(agents, list, prompts).value, list[k], prompts)
  {
    hide UpdateEntry, UpdateAgents, EntryWritten, Lookup;
    ListedEntryUpdated(agents, list, prompts, k);
    EntryHoldsPrompt(Lookup(agents, list[k].Name()).value, list[k], prompts[list[k]]);
  }

  /** After a write, the entry of every listed agent holds that agent's prompt between its
      markers, behind exactly what the user wrote. */
  lemma WriteHoldsPrompts(was: string, now: string, codec: Codec, list: seq<Agent>, prompts: Prompts)
    requires NextRaw(was, codec, list, prompts) == Ok(now) && Distinct(list)
    ensures WrittenOver(was, now, codec, list, prompts)
  {
    hide UpdateAgents, AgentWritten, Distinct, Lookup, Put;
    var config := codec.parse(was).value.fields;
    var agents := AgentTable(config).value;
    var table := UpdateAgents(agents, list, prompts).value;
    PutLookup(config, AGENTS, Obj(table), AGENTS);
    forall k | 0 <= k < |list|
      ensures AgentWritten(agents, table, list[k], prompts)
    {
      AgentHoldsPrompt(agents, list, prompts, k);
    }
  }

  /** An agent whose prompt can be written: it is built, and the entry is an object whose text
      is missing, null or a string, or a list. */
  predicate Writable(agents: Fields, agent: Agent, prompts: Prompts) {
    agent in prompts
    && match Lookup(agents, if agent.Atlas? then "atlas" else "prometheus")
       case Some(Arr(_)) => true
       case Some(Obj(fields)) =>
         var text := Lookup(fields, "prompt_append");
         text.None? || text.value.Null? || text.value.Str?
       case _ => false
  }

  lemma WritableIff(agents: Fields, agent: Agent, prompts: Prompts)
    ensures UpdateAgent(agents, agent, prompts).Ok? <==> Writable(agents, agent, prompts)
  {
    hide MergePromptAppend, MarkersOf;
    MarkersAre(agent);
  }

  /** An entry that counts as missing: none, null, false, zero or the empty text. */
  predicate Absent(agents: Fields, agent: Agent) {
    match Lookup(agents, if agent.Atlas? then "atlas" else "prometheus")
    case None => true
    case Some(entry) =>
      entry.Null? || (entry.Bool? && !entry.b) || (entry.Num? && entry.n == 0.0) || (entry.Str? && entry.s == "")
  }

  /** Why an agent is refused: its entry is absent, or else its prompt cannot be built, or else
      the entry cannot take a text. */
  lemma RefusalWritten(agents: Fields, agent: Agent, prompts: Prompts)
    ensures var r := UpdateAgent(agents, agent, prompts);
      && (r == Err(AgentMissing(agent)) <==> Absent(agents, agent))
      && (r == Err(PromptUnavailable(agent)) <==> !Absent(agents, agent) && agent !in prompts)
      && (r == Err(BadConfig)
          <==> !Absent(agents, agent) && agent in prompts && !Writable(agents, agent, prompts))
  {
    hide MergePromptAppend, MarkersOf;
    MarkersAre(agent);
  }

  /** The first listed agent that is refused decides, with those before it written. */
  lemma {:induction false} FirstRefusalDecides(agents: Fields, list: seq<Agent>, prompts: Prompts, k: nat)
    requires k < |list| && UpdateAgents(agents, list[..k], prompts).Ok?
    requires UpdateAgent(UpdateAgents(agents, list[..k], prompts).value, list[k], prompts).Err?
    ensures UpdateAgents(agents, list, prompts)
         == Err(UpdateAgent(UpdateAgents(agents, list[..k], prompts).value, list[k], prompts).error)
    decreases k
  {
    hide UpdateAgent;
    if k > 0 {
      assert list[..k][1..] == list[1..][..k - 1];
      FirstRefusalDecides(UpdateAgent(agents, list[0], prompts).value, list[1..], prompts, k - 1);
    }
  }

  lemma WritingKeepsWritable(agents: Fields, agent: Agent, prompts: Prompts, other: Agent)
    requires UpdateAgent(agents, agent, prompts).Ok?
    ensures Writable(UpdateAgent(agents, agent, prompts).value, other, prompts) <==> Writable(agents, other, prompts)
  {
    hide MergePromptAppend, MarkersOf, Put, Lookup;
    MarkersAre(agent);
    MarkersAre(other);
    var next := UpdateAgent(agents, agent, prompts).value;
    var entry := Lookup(agents, agent.Name()).value;
    var updated := UpdateEntry(entry, agent, prompts[agent]).value;
    PutLookup(agents, agent.Name(), updated, other.Name());
    WritableIff(agents, agent, prompts);
    if other == agent && entry.Obj? {
      MarkersOfValid(agent);
      var merged := MergePromptAppend(ExistingText(entry.fields).value, MarkersOf(agent), prompts[agent]);
      PutLookup(entry.fields, PROMPT_APPEND, Str(merged), PROMPT_APPEND);
    } else if other != agent {
      NamesDiffer(agent, other);
    }
  }

  /** A pass succeeds exactly when every listed agent can be written. */
  lemma {:induction false} PassSucceedsIff(agents: Fields, list: seq<Agent>, prompts: Prompts)
    ensures UpdateAgents(agents, list, prompts).Ok?
       <==> forall k :: 0 <= k < |list| ==> Writable(agents, list[k], prompts)
    decreases |list|
  {
    hide UpdateAgent, Writable;
    if list != [] {
      WritableIff(agents, list[0], prompts);
      if UpdateAgent(agents, list[0], prompts).Ok? {
        var next := UpdateAgent(agents, list[0], prompts).value;
        PassSucceedsIff(next, list[1..], prompts);
        forall k | 0 <= k < |list|
          ensures Writable(next, list[k], prompts) <==> Writable(agents, list[k], prompts)
        {
          WritingKeepsWritable(agents, list[0], prompts, list[k]);
        }
        RestOfList(next, agents, list, prompts);
      }
    }
  }

  lemma RestOfList(next: Fields, agents: Fields, list: seq<Agent>, prompts: Prompts)
    requires list != [] && Writable(agents, list[0], prompts)
    requires forall k :: 0 <= k < |list| ==> (Writable(next, list[k], prompts) <==> Writable(agents, list[k], prompts))
    ensures (forall k :: 0 <= k < |list[1..]| ==> Writable(next, list[1..][k], prompts))
       <==> (forall k :: 0 <= k < |list| ==> Writable(agents, list[k], prompts))
  {
    hide Writable;
    if forall k :: 0 <= k < |list[1..]| ==> Writable(next, list[1..][k], prompts) {
      forall k | 0 <= k < |list|
        ensures Writable(agents, list[k], prompts)
      {
        assert k > 0 ==> list[k] == list[1..][k - 1];
      }
    }
  }

  // ----- whole files

  /** The codec reads back what the two passes print, and no more is asked of it. */
  predicate ReadsBack(config: Value, codec: Codec, list: seq<Agent>, prompts: Prompts) {
    var first := NextConfig(config, list, prompts);
    first.Ok? ==>
      && codec.RoundTrips(first.value)
      && var second := NextConfig(first.value, list, prompts);
         second.Ok? ==> codec.RoundTrips(second.value)
  }

  /** Write, then check with the same options and sources: the check passes exactly
      when every listed agent's hand-written text is free of its begin marker. */
  lemma WriteThenCheck(raw: string, codec: Codec, list: seq<Agent>, prompts: Prompts, written: string)
    requires NextRaw(raw, codec, list, prompts) == Ok(written) && Distinct(list)
    requires ReadsBack(codec.parse(raw).value, codec, list, prompts)
    requires forall i :: 0 <= i < |list| ==> PromptClosed(list[i], prompts)
    ensures NextRaw(written, codec, list, prompts) == Ok(written)
       <==> CleanTable(AgentTable(codec.parse(raw).value.fields).value, list)
  {
    hide UpdateAgents, CleanTable;
    SecondWrite(codec.parse(raw).value.fields, list, prompts);
  }

  /** Every configuration has a codec that reads back what the passes print. */
  lemma ReadsBackIsMet(config: Value, list: seq<Agent>, prompts: Prompts) returns (codec: Codec, raw: string)
    ensures codec.parse(raw) == Some(config) && ReadsBack(config, codec, list, prompts)
  {
    hide NextConfig;
    var first := NextConfig(config, list, prompts);
    var one := if first.Ok? then first.value else config;
    var second := NextConfig(one, list, prompts);
    var two := if second.Ok? then second.value else one;
    raw := "";
    codec := Codec(
      text => if text == "1" then Some(one) else if text == "2" then Some(two) else Some(config),
      v => if v == one then "1" else "2");
  }

  lemma SecondWrite(config: Fields, list: seq<Agent>, prompts: Prompts)
    requires NextConfig(Obj(config), list, prompts).Ok? && Distinct(list)
    requires forall i :: 0 <= i < |list| ==> PromptClosed(list[i], prompts)
    ensures NextConfig(NextConfig(Obj(config), list, prompts).value, list, prompts)
              == NextConfig(Obj(config), list, prompts)
       <==> CleanTable(AgentTable(config).value, list)
  {
    hide UpdateAgents, CleanTable, Put, Lookup, Distinct, PromptClosed;
    var agents := AgentTable(config).value;
    var once := UpdateAgents(agents, list, prompts).value;
    var next := Put(config, AGENTS, Obj(once));
    PutLookup(config, AGENTS, Obj(once), AGENTS);
    SecondPass(agents, list, prompts);
    var again := UpdateAgents(once, list, prompts);
    if again.Ok? {
      PutSame(next, AGENTS, Obj(again.value));
    }
  }

  /** A write leaves every top-level field of the config but the agent table. */
  lemma WriteKeepsConfig(config: Fields, list: seq<Agent>, prompts: Prompts, key: string)
    requires NextConfig(Obj(config), list, prompts).Ok? && key != AGENTS
    ensures NextConfig(Obj(config), list, prompts).value.Obj?
    ensures Lookup(NextConfig(Obj(config), list, prompts).value.fields, key) == Lookup(config, key)
  {
    var once := UpdateAgents(AgentTable(config).value, list, prompts).value;
    PutLookup(config, AGENTS, Obj(once), key);
  }

  /** A write leaves the entry of every agent that is not listed. */
  lemma WriteKeepsUnlisted(config: Fields, list: seq<Agent>, prompts: Prompts, key: string)
    requires NextConfig(Obj(config), list, prompts).Ok?
    requires forall i :: 0 <= i < |list| ==> list[i].Name() != key
    ensures AgentTable(NextConfig(Obj(config), list, prompts).value.fields).Some?
    ensures Lookup(AgentTable(NextConfig(Obj(config), list, prompts).value.fields).value, key)
         == Lookup(AgentTable(config).value, key)
  {
    var agents := AgentTable(config).value;
    PutLookup(config, AGENTS, Obj(UpdateAgents(agents, list, prompts).value), AGENTS);
    UnlistedEntryKept(agents, list, prompts, key);
  }

  /** In a listed entry every field but `prompt_append` stays. */
  lemma WriteKeepsFields(fields: Fields, agent: Agent, prompt: string, field: string)
    requires UpdateEntry(Obj(fields), agent, prompt).Ok? && field != PROMPT_APPEND
    ensures UpdateEntry(Obj(fields), agent, prompt).value.Obj?
    ensures Lookup(UpdateEntry(Obj(fields), agent, prompt).value.fields, field) == Lookup(fields, field)
  {
    MarkersOfValid(agent);
    var text := ExistingText(fields).value;
    PutLookup(fields, PROMPT_APPEND, Str(MergePromptAppend(text, MarkersOf(agent), prompt)), field);
  }

  /** In a listed entry the hand-written text stays, exactly when it was clean. */
  lemma WriteKeepsHandWritten(fields: Fields, agent: Agent, prompt: string)
    requires UpdateEntry(Obj(fields), agent, prompt).Ok?
    requires !Contains(prompt, MarkersOf(agent).end)
    ensures ExistingText(UpdateEntry(Obj(fields), agent, prompt).value.fields).Some?
    ensures HandWritten(UpdateEntry(Obj(fields), agent, prompt).value.fields, agent) == HandWritten(fields, agent)
       <==> CleanEntry(Obj(fields), agent)
  {
    MarkersOfValid(agent);
    var text := ExistingText(fields).value;
    var merged := MergePromptAppend(text, MarkersOf(agent), prompt);
    StorePromptTwice(fields, merged, merged);
    StripUndoesMerge(text, MarkersOf(agent), prompt);
  }
}
