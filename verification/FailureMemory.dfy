/** Failure memory: grouping records of failures into patterns. */
module FailureMemory {
  import opened Prelude
  import Live = LiveVerification

  type Category = Live.Category
  type Confidence = Live.Confidence

  datatype Record = Record(
    sourcePath: string,
    category: Category,
    reasonCode: string,
    confidence: Confidence,
    evidencePaths: seq<string>)

  datatype Recommendation =
    | DeviceDoctor | PolicyEscalation | RepairContract | InspectNetwork | RefineSelector | InspectCrash
    | ResolveInterruption | InspectKeyboard | CollectEvidence

  datatype Pattern = Pattern(
    key: string,
    category: Category,
    reasonCode: string,
    occurrences: nat,
    confidence: Confidence,
    sourcePaths: seq<string>,
    evidencePaths: seq<string>,
    recommendation: Recommendation)

  datatype Memory = Memory(runId: string, totalRecords: nat, patterns: seq<Pattern>)

  // ----- keys

  function CategoryName(c: Category): string {
    match c
    case Environment => "environment"
    case Policy => "policy"
    case AppReadiness => "app_readiness"
    case Network => "network"
    case UiTarget => "ui_target"
    case AppCrash => "app_crash"
    case Interruption => "interruption"
    case KeyboardFocus => "keyboard_focus"
    case Unknown => "unknown"
  }

  function KeyText(c: Category, reasonCode: string): string {
    CategoryName(c) + ":" + (if c.AppReadiness? then "*" else reasonCode)
  }

  function KeyOf(r: Record): string {
    KeyText(r.category, r.reasonCode)
  }

  function ColonAt(s: string): (n: nat)
    ensures n <= |s|
  {
    if s == "" || s[0] == ':' then 0 else 1 + ColonAt(s[1..])
  }

  lemma {:induction false} ColonBehind(a: string, b: string)
    requires ':' !in a
    ensures ColonAt(a + ":" + b) == |a|
  {
    if a == "" {
      assert a + ":" + b == ":" + b;
    } else {
      assert a[0] in a && (a + ":" + b)[1..] == a[1..] + ":" + b;
      ColonBehind(a[1..], b);
    }
  }

  lemma NamesHaveNoColon(c: Category)
    ensures ':' !in CategoryName(c)
  {
  }

  lemma NamesDiffer(c: Category, d: Category)
    requires CategoryName(c) == CategoryName(d)
    ensures c == d
  {
    NameLengths(c);
    NameLengths(d);
    NameStarts(c);
    NameStarts(d);
  }

  lemma NameLengths(c: Category)
    ensures |CategoryName(c)| == match c
      case Environment => 11 case Policy => 6 case AppReadiness => 13 case Network => 7 case UiTarget => 9
      case AppCrash => 9 case Interruption => 12 case KeyboardFocus => 14 case Unknown => 7
  {
  }

  lemma NameStarts(c: Category)
    ensures c.Network? ==> CategoryName(c)[0] == 'n'
    ensures c.Unknown? || c.UiTarget? ==> CategoryName(c)[0] == 'u'
    ensures c.AppCrash? ==> CategoryName(c)[0] == 'a'
  {
  }

  lemma KeyParts(c: Category, r: string)
    ensures ColonAt(KeyText(c, r)) == |CategoryName(c)|
    ensures KeyText(c, r)[..|CategoryName(c)|] == CategoryName(c)
    ensures KeyText(c, r)[|CategoryName(c)| + 1..] == if c.AppReadiness? then "*" else r
  {
    hide CategoryName, ColonAt;
    NamesHaveNoColon(c);
    ColonBehind(CategoryName(c), if c.AppReadiness? then "*" else r);
  }

  /** Two records have the same key exactly when they have the same category, and the same
      reason code too unless the category is app readiness. */
  lemma KeysIff(r: Record, s: Record)
    ensures KeyOf(r) == KeyOf(s)
       <==> r.category == s.category && (r.category.AppReadiness? || r.reasonCode == s.reasonCode)
  {
    hide CategoryName, ColonAt;
    if KeyOf(r) == KeyOf(s) {
      hide KeyText;
      KeyParts(r.category, r.reasonCode);
      KeyParts(s.category, s.reasonCode);
      NamesDiffer(r.category, s.category);
    }
  }

  // ----- groups, in the order of their first records

  type Groups = seq<(string, seq<Record>)>

  function AddTo(g: Groups, key: string, r: Record): Groups
    decreases |g|
  {
    if g == [] then [(key, [r])]
    else if g[0].0 == key then [(key, g[0].1 + [r])] + g[1..]
    else [g[0]] + AddTo(g[1..], key, r)
  }

  function GroupsOf(records: seq<Record>): Groups {
    if records == [] then []
    else
      var last := records[|records| - 1];
      AddTo(GroupsOf(records[..|records| - 1]), KeyOf(last), last)
  }

  function Matching(records: seq<Record>, key: string): seq<Record> {
    if records == [] then []
    else
      var last := records[|records| - 1];
      Matching(records[..|records| - 1], key) + (if KeyOf(last) == key then [last] else [])
  }

  function Group(g: Groups, key: string): seq<Record>
    decreases |g|
  {
    if g == [] then [] else if g[0].0 == key then g[0].1 else Group(g[1..], key)
  }

  function Total(g: Groups): nat
    decreases |g|
  {
    if g == [] then 0 else |g[0].1| + Total(g[1..])
  }

  predicate DistinctKeys(g: Groups) {
    forall i, j :: 0 <= i < j < |g| ==> g[i].0 != g[j].0
  }

  predicate HasKey(g: Groups, key: string) {
    exists i :: 0 <= i < |g| && g[i].0 == key
  }

  predicate NoneEmpty(g: Groups) {
    forall i :: 0 <= i < |g| ==> g[i].1 != []
  }

  lemma {:induction false} AddGroup(g: Groups, key: string, r: Record, other: string)
    ensures Group(AddTo(g, key, r), other) == Group(g, other) + (if other == key then [r] else [])
    ensures Total(AddTo(g, key, r)) == Total(g) + 1
    decreases |g|
  {
    if g == [] {
      var one: Groups := [(key, [r])];
      assert one[1..] == [];
    } else if g[0].0 == key {
      assert ([(key, g[0].1 + [r])] + g[1..])[1..] == g[1..];
    } else {
      AddGroup(g[1..], key, r, other);
      assert ([g[0]] + AddTo(g[1..], key, r))[1..] == AddTo(g[1..], key, r);
    }
  }

  lemma {:induction false} AddKeys(g: Groups, key: string, r: Record, other: string)
    ensures HasKey(AddTo(g, key, r), other) <==> HasKey(g, other) || other == key
    decreases |g|
  {
    if g == [] {
      assert AddTo(g, key, r)[0].0 == key;
    } else {
      KeysOfCons(g[0], g[1..], other);
      assert g == [g[0]] + g[1..];
      if g[0].0 == key {
        KeysOfCons((key, g[0].1 + [r]), g[1..], other);
      } else {
        AddKeys(g[1..], key, r, other);
        KeysOfCons(g[0], AddTo(g[1..], key, r), other);
      }
    }
  }

  lemma KeysOfCons(first: (string, seq<Record>), g: Groups, key: string)
    ensures HasKey([first] + g, key) <==> first.0 == key || HasKey(g, key)
  {
    var all := [first] + g;
    assert all[0] == first;
    if HasKey(g, key) {
      var i :| 0 <= i < |g| && g[i].0 == key;
      assert all[i + 1].0 == key;
    }
    if HasKey(all, key) {
      var i :| 0 <= i < |all| && all[i].0 == key;
      assert i > 0 ==> g[i - 1].0 == key;
    }
  }

  lemma {:induction false} AddDistinct(g: Groups, key: string, r: Record)
    requires DistinctKeys(g) && NoneEmpty(g)
    ensures DistinctKeys(AddTo(g, key, r)) && NoneEmpty(AddTo(g, key, r))
    decreases |g|
  {
    if g != [] {
      TailDistinct(g);
      if g[0].0 == key {
        ConsDistinct((key, g[0].1 + [r]), g[1..]);
      } else {
        AddDistinct(g[1..], key, r);
        AddKeys(g[1..], key, r, g[0].0);
        ConsDistinct(g[0], AddTo(g[1..], key, r));
      }
    }
  }

  lemma TailDistinct(g: Groups)
    requires g != [] && DistinctKeys(g) && NoneEmpty(g)
    ensures DistinctKeys(g[1..]) && NoneEmpty(g[1..]) && !HasKey(g[1..], g[0].0) && g[0].1 != []
  {
    var t := g[1..];
    forall i, j | 0 <= i < j < |t|
      ensures t[i].0 != t[j].0
    {
      assert g[i + 1].0 != g[j + 1].0;
    }
    forall i | 0 <= i < |t|
      ensures t[i].0 != g[0].0
    {
      assert g[0].0 != g[i + 1].0;
    }
  }

  lemma ConsDistinct(first: (string, seq<Record>), g: Groups)
    requires DistinctKeys(g) && NoneEmpty(g) && !HasKey(g, first.0) && first.1 != []
    ensures DistinctKeys([first] + g) && NoneEmpty([first] + g)
  {
  }

  lemma {:induction false} GroupAt(g: Groups, i: nat)
    requires DistinctKeys(g) && NoneEmpty(g) && i < |g|
    ensures Group(g, g[i].0) == g[i].1
    decreases |g|
  {
    if i > 0 {
      TailDistinct(g);
      assert g[1..][i - 1] == g[i] && HasKey(g[1..], g[i].0);
      GroupAt(g[1..], i - 1);
    }
  }

  /** Grouping is a partition: keys are distinct, no group is empty, each group holds the
      records of its key in their order, and the sizes sum up to the number of records. */
  lemma {:induction false} GroupsPartition(records: seq<Record>, key: string)
    ensures var g := GroupsOf(records);
      && DistinctKeys(g) && NoneEmpty(g)
      && Group(g, key) == Matching(records, key)
      && Total(g) == |records|
  {
    hide KeyOf, AddTo, DistinctKeys, NoneEmpty;
    if records == [] {
      NoGroups();
    } else {
      var n := |records| - 1;
      GroupsPartition(records[..n], key);
      AddGroup(GroupsOf(records[..n]), KeyOf(records[n]), records[n], key);
      AddDistinct(GroupsOf(records[..n]), KeyOf(records[n]), records[n]);
    }
  }

  lemma NoGroups()
    ensures DistinctKeys([]) && NoneEmpty([])
  {
  }

  lemma {:induction false} MatchingHas(records: seq<Record>, key: string, r: Record)
    ensures r in Matching(records, key) <==> r in records && KeyOf(r) == key
  {
    hide KeyOf;
    if records != [] {
      var n := |records| - 1;
      MatchingHas(records[..n], key, r);
      assert records == records[..n] + [records[n]];
    }
  }

  // ----- patterns

  function Rank(c: Confidence): nat {
    match c
    case High => 3
    case Medium => 2
    case Low => 1
  }

  function Lowest(records: seq<Record>): Confidence {
    if records == [] then Live.High
    else
      var front, last := Lowest(records[..|records| - 1]), records[|records| - 1].confidence;
      if Rank(last) < Rank(front) then last else front
  }

  function Unique(values: seq<string>): seq<string> {
    if values == [] then []
    else
      var front, last := Unique(values[..|values| - 1]), values[|values| - 1];
      if last != "" && last !in front then front + [last] else front
  }

  function Sources(records: seq<Record>): seq<string> {
    seq(|records|, i requires 0 <= i < |records| => records[i].sourcePath)
  }

  function Evidence(records: seq<Record>): seq<string> {
    if records == [] then [] else Evidence(records[..|records| - 1]) + records[|records| - 1].evidencePaths
  }

  function RecommendationFor(category: Category, confidence: Confidence): Recommendation {
    if confidence.Low? || category.Unknown? then CollectEvidence
    else match category
      case Environment => DeviceDoctor
      case Policy => PolicyEscalation
      case AppReadiness => RepairContract
      case Network => InspectNetwork
      case UiTarget => RefineSelector
      case AppCrash => InspectCrash
      case Interruption => ResolveInterruption
      case KeyboardFocus => InspectKeyboard
      case Unknown => CollectEvidence
  }

  function PatternOf(key: string, records: seq<Record>): Pattern {
    var confidence := Lowest(records);
    var category := if records == [] then Live.Unknown else records[0].category;
    var reasonCode := if records == [] then "UNKNOWN" else records[0].reasonCode;
    Pattern(key, category, reasonCode, |records|, confidence, Unique(Sources(records)), Unique(Evidence(records)),
            RecommendationFor(category, confidence))
  }

  function PatternsOf(g: Groups): seq<Pattern> {
    seq(|g|, i requires 0 <= i < |g| => PatternOf(g[i].0, g[i].1))
  }

  function MemoryOf(runId: string, records: seq<Record>): Memory {
    Memory(runId, |records|, PatternsOf(GroupsOf(records)))
  }

  method BuildMemory(runId: string, records: seq<Record>) returns (m: Memory)
    ensures m == MemoryOf(runId, records)
  {
    hide KeyOf, AddTo, PatternOf;
    var groups: Groups := [];
    for i := 0 to |records|
      invariant groups == GroupsOf(records[..i])
    {
      assert records[..i + 1][..i] == records[..i];
      groups := AddTo(groups, KeyOf(records[i]), records[i]);
    }
    assert records[..|records|] == records;
    var patterns: seq<Pattern> := [];
    for k := 0 to |groups|
      invariant patterns == PatternsOf(groups[..k])
    {
      patterns := patterns + [PatternOf(groups[k].0, groups[k].1)];
      PatternsGrow(groups, k);
    }
    assert groups[..|groups|] == groups;
    return Memory(runId, |records|, patterns);
  }

  lemma PatternsGrow(g: Groups, k: nat)
    requires k < |g|
    ensures PatternsOf(g[..k + 1]) == PatternsOf(g[..k]) + [PatternOf(g[k].0, g[k].1)]
  {
    hide PatternOf;
  }

  function Occurrences(patterns: seq<Pattern>): nat {
    if patterns == [] then 0 else patterns[0].occurrences + Occurrences(patterns[1..])
  }

  lemma {:induction false} OccurrencesTotal(g: Groups)
    ensures Occurrences(PatternsOf(g)) == Total(g)
    decreases |g|
  {
    hide Lowest, Unique, RecommendationFor;
    if g != [] {
      OccurrencesTotal(g[1..]);
      assert PatternsOf(g)[1..] == PatternsOf(g[1..]);
    }
  }

  /** The occurrences of the patterns sum up to the number of records, and the pattern at
      each place counts exactly the records that have its key. */
  lemma OccurrencesConserved(runId: string, records: seq<Record>, i: nat)
    requires i < |MemoryOf(runId, records).patterns|
    ensures var m := MemoryOf(runId, records);
      && Occurrences(m.patterns) == m.totalRecords == |records|
      && m.patterns[i].occurrences == |Matching(records, m.patterns[i].key)| > 0
  {
    hide GroupsOf, Matching, Lowest, Unique, RecommendationFor, Evidence, DistinctKeys, Group;
    var g := GroupsOf(records);
    GroupsPartition(records, g[i].0);
    GroupAt(g, i);
    OccurrencesTotal(g);
  }

  /** Every record has its pattern. */
  lemma {:induction false} EveryRecordCounts(records: seq<Record>, r: Record)
    requires r in records
    ensures HasKey(GroupsOf(records), KeyOf(r))
  {
    hide KeyOf, HasKey;
    var n := |records| - 1;
    AddKeys(GroupsOf(records[..n]), KeyOf(records[n]), records[n], KeyOf(r));
    if r != records[n] {
      assert r in records[..n];
      EveryRecordCounts(records[..n], r);
    }
  }

  lemma {:induction false} LowestIs(records: seq<Record>)
    ensures forall k :: 0 <= k < |records| ==> Rank(Lowest(records)) <= Rank(records[k].confidence)
    ensures records != [] ==> exists k :: 0 <= k < |records| && records[k].confidence == Lowest(records)
  {
    if records != [] {
      var n := |records| - 1;
      var front := records[..n];
      LowestIs(front);
      if front == [] {
        assert records[0].confidence == Lowest(records);
      } else {
        var k :| 0 <= k < |front| && front[k].confidence == Lowest(front);
        assert records[k].confidence == Lowest(front);
        assert records[n].confidence == Lowest(records) || records[k].confidence == Lowest(records);
      }
    }
  }

  /** A pattern speaks for all of its records: they share its category, and its reason code
      unless that is app readiness, and its confidence is their minimum. */
  lemma PatternSpeaksForRecords(runId: string, records: seq<Record>, i: nat, r: Record)
    requires i < |MemoryOf(runId, records).patterns|
    requires r in Matching(records, MemoryOf(runId, records).patterns[i].key)
    ensures var p := MemoryOf(runId, records).patterns[i];
      && r.category == p.category
      && (r.category.AppReadiness? || r.reasonCode == p.reasonCode)
      && Rank(p.confidence) <= Rank(r.confidence)
      && (exists q :: q in Matching(records, p.key) && q.confidence == p.confidence)
  {
    hide GroupsOf, Matching, Lowest, Unique, RecommendationFor, Evidence, DistinctKeys, Group, KeyOf, Rank;
    var g := GroupsOf(records);
    GroupsPartition(records, g[i].0);
    GroupAt(g, i);
    var own := g[i].1;
    assert own == Matching(records, g[i].0);
    MatchingHas(records, g[i].0, r);
    MatchingHas(records, g[i].0, own[0]);
    KeysIff(r, own[0]);
    LowestIs(own);
    var k :| 0 <= k < |own| && own[k].confidence == Lowest(own);
    assert own[k] in Matching(records, g[i].0);
  }

  /** Collected paths are the given ones, without empty ones and without duplicates. */
  lemma {:induction false} UniqueHolds(values: seq<string>)
    ensures forall i, j :: 0 <= i < j < |Unique(values)| ==> Unique(values)[i] != Unique(values)[j]
    ensures forall v :: v in Unique(values) <==> v in values && v != ""
  {
    if values != [] {
      var n := |values| - 1;
      UniqueHolds(values[..n]);
      assert values == values[..n] + [values[n]];
    }
  }

  // ----- validation

  /** The assertions of the validator. */
  predicate ValidPattern(p: Pattern) {
    && ':' in p.key
    && p.occurrences > 0
    && (p.confidence.High? ==> p.evidencePaths != [])
    && (p.confidence.Low? || p.category.Unknown? ==> p.recommendation.CollectEvidence?)
  }

  predicate Valid(m: Memory) {
    m.totalRecords >= |m.patterns| && forall i :: 0 <= i < |m.patterns| ==> ValidPattern(m.patterns[i])
  }

  lemma {:induction false} TotalIsEnough(g: Groups)
    requires NoneEmpty(g)
    ensures Total(g) >= |g|
    decreases |g|
  {
    if g != [] {
      assert g[0].1 != [];
      forall i | 0 <= i < |g[1..]|
        ensures g[1..][i].1 != []
      {
        assert g[i + 1].1 != [];
      }
      TotalIsEnough(g[1..]);
    }
  }

  lemma KeyHasColon(r: Record)
    ensures ':' in KeyOf(r)
  {
    hide CategoryName;
    assert KeyOf(r)[|CategoryName(r.category)|] == ':';
  }

  lemma WeakCollects(key: string, records: seq<Record>)
    ensures var p := PatternOf(key, records);
      p.confidence.Low? || p.category.Unknown? ==> p.recommendation.CollectEvidence?
  {
    hide Lowest, Unique, Evidence;
  }

  predicate Supported(p: Pattern) {
    p.confidence.High? ==> p.evidencePaths != []
  }

  lemma PatternValidIff(records: seq<Record>, i: nat)
    requires i < |GroupsOf(records)|
    ensures var p := PatternsOf(GroupsOf(records))[i];
      ValidPattern(p) <==> Supported(p)
  {
    hide GroupsOf, Matching, Lowest, Unique, RecommendationFor, Evidence, DistinctKeys, Group, KeyOf;
    var g := GroupsOf(records);
    GroupsPartition(records, g[i].0);
    GroupAt(g, i);
    MatchingHas(records, g[i].0, g[i].1[0]);
    KeyHasColon(g[i].1[0]);
    WeakCollects(g[i].0, g[i].1);
  }

  /** The validator takes a built memory exactly when every pattern of high confidence has
      some evidence. */
  lemma BuiltValidIff(runId: string, records: seq<Record>)
    ensures var m := MemoryOf(runId, records);
      Valid(m) <==> forall i :: 0 <= i < |m.patterns| ==> Supported(m.patterns[i])
  {
    hide GroupsOf, PatternOf, ValidPattern, Supported, NoneEmpty;
    var g := GroupsOf(records);
    GroupsPartition(records, "");
    TotalIsEnough(g);
    forall i | 0 <= i < |g|
      ensures ValidPattern(PatternsOf(g)[i]) <==> Supported(PatternsOf(g)[i])
    {
      PatternValidIff(records, i);
    }
  }

  // ----- records that the program makes

  /** A failure packet as read from a file: every field can be missing. */
  datatype PacketRef = PacketRef(
    category: Option<Category>,
    reasonCode: Option<string>,
    confidence: Option<Confidence>,
    artifacts: seq<Option<string>>)

  function FromPacket(sourcePath: string, packet: PacketRef): Record {
    Record(sourcePath, packet.category.GetOr(Live.Unknown), packet.reasonCode.GetOr("UNKNOWN"),
           packet.confidence.GetOr(Live.Low), Unique([sourcePath] + Paths(packet.artifacts)))
  }

  function Paths(artifacts: seq<Option<string>>): seq<string> {
    seq(|artifacts|, i requires 0 <= i < |artifacts| => artifacts[i].GetOr(""))
  }

  /** A candidate as read from a file: the reason codes of its blockers, and the paths of
      its verification. */
  datatype CandidateRef = CandidateRef(blockers: seq<Option<string>>, evidence: seq<string>)

  function FromCandidate(sourcePath: string, candidate: CandidateRef): seq<Record> {
    seq(|candidate.blockers|, i requires 0 <= i < |candidate.blockers| =>
      Record(sourcePath, Live.Environment, candidate.blockers[i].GetOr("UNKNOWN"), Live.High,
             Unique([sourcePath] + candidate.evidence)))
  }

  /** A file that failures are read from. */
  datatype Source =
    | PacketFile(path: string, packet: PacketRef)
    | CandidateFile(path: string, candidate: CandidateRef)

  function RecordsOf(source: Source): seq<Record> {
    match source
    case PacketFile(path, packet) => [FromPacket(path, packet)]
    case CandidateFile(path, candidate) => FromCandidate(path, candidate)
  }

  function AllRecords(sources: seq<Source>): seq<Record> {
    if sources == [] then [] else RecordsOf(sources[0]) + AllRecords(sources[1..])
  }

  /** The record lists its source among its evidence, as both builders have it. */
  predicate CitesSource(r: Record) {
    r.sourcePath != "" && r.sourcePath in r.evidencePaths
  }

  predicate AllCite(records: seq<Record>) {
    forall k :: 0 <= k < |records| ==> CitesSource(records[k])
  }

  /** Both record builders cite their source. */
  lemma BuildersCite(source: Source)
    requires source.path != ""
    ensures AllCite(RecordsOf(source))
  {
    hide Unique;
    match source {
      case PacketFile(path, packet) => UniqueKeepsFirst(path, Paths(packet.artifacts));
      case CandidateFile(path, candidate) => UniqueKeepsFirst(path, candidate.evidence);
    }
  }

  lemma UniqueKeepsFirst(path: string, others: seq<string>)
    requires path != ""
    ensures path in Unique([path] + others)
  {
    UniqueHolds([path] + others);
    assert ([path] + others)[0] == path;
  }

  lemma {:induction false} SourcesCite(sources: seq<Source>)
    requires forall k :: 0 <= k < |sources| ==> sources[k].path != ""
    ensures AllCite(AllRecords(sources))
  {
    hide CitesSource, RecordsOf;
    if sources != [] {
      BuildersCite(sources[0]);
      SourcesCite(sources[1..]);
    }
  }

  /** The memory built from any failure packets and candidates that have a path always passes
      its validator. */
  lemma SourcesPass(runId: string, sources: seq<Source>)
    requires forall k :: 0 <= k < |sources| ==> sources[k].path != ""
    ensures Valid(MemoryOf(runId, AllRecords(sources)))
  {
    hide AllCite, AllRecords, Valid, MemoryOf;
    SourcesCite(sources);
    BuiltRecordsPass(runId, AllRecords(sources));
  }

  lemma {:induction false} EvidenceHas(records: seq<Record>, k: nat, path: string)
    requires k < |records| && path in records[k].evidencePaths
    ensures path in Evidence(records)
  {
    var n := |records| - 1;
    if k < n {
      EvidenceHas(records[..n], k, path);
    }
  }

  /** A memory of records that cite their sources always passes its validator. */
  lemma BuiltRecordsPass(runId: string, records: seq<Record>)
    requires AllCite(records)
    ensures Valid(MemoryOf(runId, records))
  {
    hide GroupsOf, Valid, CitesSource, Supported;
    var g := GroupsOf(records);
    BuiltValidIff(runId, records);
    forall i | 0 <= i < |g|
      ensures Supported(PatternsOf(g)[i])
    {
      GroupSupported(records, i);
    }
  }

  lemma GroupSupported(records: seq<Record>, i: nat)
    requires i < |GroupsOf(records)|
    requires AllCite(records)
    ensures Supported(PatternsOf(GroupsOf(records))[i])
  {
    hide GroupsOf, Matching, Lowest, Unique, RecommendationFor, Evidence, DistinctKeys, Group, KeyOf;
    var g := GroupsOf(records);
    GroupsPartition(records, g[i].0);
    GroupAt(g, i);
    var r := g[i].1[0];
    MatchingHas(records, g[i].0, r);
    assert CitesSource(r);
    EvidenceHas(g[i].1, 0, r.sourcePath);
    UniqueHolds(Evidence(g[i].1));
    assert r.sourcePath in Unique(Evidence(g[i].1));
  }

  // ----- keys and recommendations, written out

  function Spelled(c: Category): string {
    match c
    case Environment => "environment"
    case Policy => "policy"
    case AppReadiness => "app_readiness"
    case Network => "network"
    case UiTarget => "ui_target"
    case AppCrash => "app_crash"
    case Interruption => "interruption"
    case KeyboardFocus => "keyboard_focus"
    case Unknown => "unknown"
  }

  /** A weak or unknown pattern asks for evidence; any other has the action of its category. */
  predicate Recommends(category: Category, confidence: Confidence, r: Recommendation) {
    match r
    case CollectEvidence => confidence.Low? || category.Unknown?
    case DeviceDoctor => !confidence.Low? && category.Environment?
    case PolicyEscalation => !confidence.Low? && category.Policy?
    case RepairContract => !confidence.Low? && category.AppReadiness?
    case InspectNetwork => !confidence.Low? && category.Network?
    case RefineSelector => !confidence.Low? && category.UiTarget?
    case InspectCrash => !confidence.Low? && category.AppCrash?
    case ResolveInterruption => !confidence.Low? && category.Interruption?
    case InspectKeyboard => !confidence.Low? && category.KeyboardFocus?
  }

  /** The confidence of a pattern: low if some record has low confidence, high if all have high. */
  lemma ConfidenceWritten(runId: string, records: seq<Record>, i: nat)
    requires i < |MemoryOf(runId, records).patterns|
    ensures var p := MemoryOf(runId, records).patterns[i];
      && (p.confidence.Low? <==> exists r :: r in records && KeyOf(r) == p.key && r.confidence.Low?)
      && (p.confidence.High? <==> forall r :: r in records && KeyOf(r) == p.key ==> r.confidence.High?)
  {
    hide GroupsOf, Matching, Lowest, Unique, RecommendationFor, Evidence, DistinctKeys, Group, KeyOf, Sources;
    var g := GroupsOf(records);
    GroupsPartition(records, g[i].0);
    GroupAt(g, i);
    LowestWritten(g[i].1);
    forall r: Record
      ensures r in g[i].1 <==> r in records && KeyOf(r) == g[i].0
    {
      MatchingHas(records, g[i].0, r);
    }
  }

  lemma {:induction false} LowestWritten(records: seq<Record>)
    ensures Lowest(records).Low? <==> exists r :: r in records && r.confidence.Low?
    ensures Lowest(records).High? <==> forall r :: r in records ==> r.confidence.High?
  {
    if records != [] {
      var n := |records| - 1;
      LowestWritten(records[..n]);
      assert records == records[..n] + [records[n]];
    }
  }

  /** The validator refuses each of these patterns, whatever else they hold. */
  lemma ValidatorRefuses(p: Pattern)
    ensures ':' !in p.key || p.occurrences == 0 ==> !ValidPattern(p)
    ensures p.confidence.High? && p.evidencePaths == [] ==> !ValidPattern(p)
    ensures (p.confidence.Low? || p.category.Unknown?) && !p.recommendation.CollectEvidence? ==> !ValidPattern(p)
  {
  }

  /** Every pattern of a memory: its key, its paths, and its recommendation. */
  lemma PatternWritten(runId: string, records: seq<Record>, i: nat)
    requires i < |MemoryOf(runId, records).patterns|
    ensures var p := MemoryOf(runId, records).patterns[i];
      && p.key == Spelled(p.category) + ":" + (if p.category.AppReadiness? then "*" else p.reasonCode)
      && Recommends(p.category, p.confidence, p.recommendation)
      && (forall v :: v in p.sourcePaths
            <==> v != "" && exists k :: 0 <= k < |records| && KeyOf(records[k]) == p.key && records[k].sourcePath == v)
      && (forall v :: v in p.evidencePaths
            <==> v != "" && exists k :: 0 <= k < |records| && KeyOf(records[k]) == p.key
                                        && v in records[k].evidencePaths)
  {
    hide GroupsOf, Matching, Lowest, Unique, RecommendationFor, Evidence, DistinctKeys, Group, KeyOf, Sources;
    var g := GroupsOf(records);
    GroupsPartition(records, g[i].0);
    GroupAt(g, i);
    var own := g[i].1;
    MatchingHas(records, g[i].0, own[0]);
    KeySpelled(own[0]);
    RecommendationIs(own[0].category, Lowest(own));
    UniqueHolds(Sources(own));
    forall v: string
      ensures v in Sources(own)
         <==> exists k :: 0 <= k < |records| && KeyOf(records[k]) == g[i].0 && records[k].sourcePath == v
    {
      SourcesOf(records, g[i].0, v);
    }
    UniqueHolds(Evidence(own));
    forall v: string
      ensures v in Evidence(own)
         <==> exists k :: 0 <= k < |records| && KeyOf(records[k]) == g[i].0 && v in records[k].evidencePaths
    {
      EvidenceOf(records, g[i].0, v);
    }
  }

  lemma KeySpelled(r: Record)
    ensures KeyOf(r) == Spelled(r.category) + ":" + (if r.category.AppReadiness? then "*" else r.reasonCode)
  {
    CategorySpelled(r.category);
  }

  lemma CategorySpelled(c: Category)
    ensures CategoryName(c) == Spelled(c)
  {
  }

  lemma RecommendationIs(category: Category, confidence: Confidence)
    ensures Recommends(category, confidence, RecommendationFor(category, confidence))
  {
  }

  lemma SourcesOf(records: seq<Record>, key: string, v: string)
    ensures v in Sources(Matching(records, key))
       <==> exists k :: 0 <= k < |records| && KeyOf(records[k]) == key && records[k].sourcePath == v
  {
    hide KeyOf, Matching;
    var own := Matching(records, key);
    if v in Sources(own) {
      var j :| 0 <= j < |own| && own[j].sourcePath == v;
      MatchingHas(records, key, own[j]);
      var k :| 0 <= k < |records| && records[k] == own[j];
    }
    if exists k :: 0 <= k < |records| && KeyOf(records[k]) == key && records[k].sourcePath == v {
      var k :| 0 <= k < |records| && KeyOf(records[k]) == key && records[k].sourcePath == v;
      MatchingHas(records, key, records[k]);
      var j :| 0 <= j < |own| && own[j] == records[k];
      assert Sources(own)[j] == v;
    }
  }

  lemma {:induction false} EvidenceIsThere(records: seq<Record>, v: string)
    ensures v in Evidence(records) <==> exists k :: 0 <= k < |records| && v in records[k].evidencePaths
  {
    if records != [] {
      var n := |records| - 1;
      EvidenceIsThere(records[..n], v);
      assert forall k :: 0 <= k < n ==> records[..n][k] == records[k];
    }
  }

  lemma EvidenceOf(records: seq<Record>, key: string, v: string)
    ensures v in Evidence(Matching(records, key))
       <==> exists k :: 0 <= k < |records| && KeyOf(records[k]) == key && v in records[k].evidencePaths
  {
    hide KeyOf, Matching, Evidence;
    var own := Matching(records, key);
    EvidenceIsThere(own, v);
    if v in Evidence(own) {
      var j :| 0 <= j < |own| && v in own[j].evidencePaths;
      MatchingHas(records, key, own[j]);
      var k :| 0 <= k < |records| && records[k] == own[j];
    }
    if exists k :: 0 <= k < |records| && KeyOf(records[k]) == key && v in records[k].evidencePaths {
      var k :| 0 <= k < |records| && KeyOf(records[k]) == key && v in records[k].evidencePaths;
      MatchingHas(records, key, records[k]);
      var j :| 0 <= j < |own| && own[j] == records[k];
    }
  }

  /** What is made of a packet's missing fields, and of a candidate's blockers. */
  lemma RecordsWritten(path: string, packet: PacketRef, candidate: CandidateRef, k: nat)
    requires k < |candidate.blockers|
    ensures var r := FromPacket(path, packet);
      && r.sourcePath == path
      && r.category == (if packet.category.Some? then packet.category.value else Live.Unknown)
      && r.reasonCode == (if packet.reasonCode.Some? then packet.reasonCode.value else "UNKNOWN")
      && r.confidence == (if packet.confidence.Some? then packet.confidence.value else Live.Low)
    ensures var rs := FromCandidate(path, candidate);
      && |rs| == |candidate.blockers|
      && rs[k].sourcePath == path && rs[k].category == Live.Environment && rs[k].confidence == Live.High
      && rs[k].reasonCode == (if candidate.blockers[k].Some? then candidate.blockers[k].value else "UNKNOWN")
  {
    hide Unique;
  }
}
