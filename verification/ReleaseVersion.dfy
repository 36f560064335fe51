/** Release versions: reading, bumping and comparing x.y.z, and choosing the next target. */
module ReleaseVersion {
  import opened Prelude
  import opened Text

  // ----- numerals

  predicate AllDigits(s: string) {
    forall i :: 0 <= i < |s| ==> IsDigit(s[i])
  }

  predicate IsNumeral(s: string) {
    s != "" && AllDigits(s)
  }

  function DigitValue(c: char): nat {
    if IsDigit(c) then c as int - '0' as int else 0
  }

  function Value(s: string): nat {
    if s == "" then 0 else 10 * Value(s[..|s| - 1]) + DigitValue(s[|s| - 1])
  }

  lemma DigitIsDigit(d: nat)
    requires d < 10
    ensures IsDigit(Digit(d)) && DigitValue(Digit(d)) == d
  {
  }

  /** Printing a number gives a numeral that reads as the number. */
  lemma {:induction false} ShowReads(n: nat)
    ensures IsNumeral(Show(n)) && Value(Show(n)) == n
  {
    hide Digit, IsDigit, DigitValue;
    DigitIsDigit(n % 10);
    if n >= 10 {
      ShowReads(n / 10);
      assert (Show(n / 10) + [Digit(n % 10)])[..|Show(n / 10)|] == Show(n / 10);
    } else {
      assert Show(n)[..0] == "" && Value("") == 0;
    }
  }

  lemma {:induction false} LeadingZero(s: string)
    ensures Value("0" + s) == Value(s)
  {
    if s == "" {
      assert ("0" + s)[..0] == "";
    } else {
      assert ("0" + s)[..|s|] == "0" + s[..|s| - 1];
      LeadingZero(s[..|s| - 1]);
    }
  }

  // ----- versions

  datatype Parts = Parts(major: string, minor: string, patch: string) {
    function Text(): string {
      major + "." + minor + "." + patch
    }

    predicate Numeric() {
      IsNumeral(major) && IsNumeral(minor) && IsNumeral(patch)
    }
  }

  /** The numbers of a version; leading zeros are gone. */
  datatype Version = Version(major: nat, minor: nat, patch: nat)

  function DigitsLength(s: string): (n: nat)
    ensures n <= |s|
  {
    if s == "" || !IsDigit(s[0]) then 0 else 1 + DigitsLength(s[1..])
  }

  /** The greedy match of three runs of digits with dots between them. */
  function Match(version: string): Option<Parts> {
    var a := DigitsLength(version);
    if a == 0 || a == |version| || version[a] != '.' then None
    else
      var behindMajor := version[a + 1..];
      var b := DigitsLength(behindMajor);
      if b == 0 || b == |behindMajor| || behindMajor[b] != '.' then None
      else
        var patch := behindMajor[b + 1..];
        if IsNumeral(patch) then Some(Parts(version[..a], behindMajor[..b], patch)) else None
  }

  predicate IsExact(version: string) {
    Match(version).Some?
  }

  lemma {:induction false} DigitsAre(s: string)
    ensures AllDigits(s[..DigitsLength(s)])
    ensures DigitsLength(s) < |s| ==> !IsDigit(s[DigitsLength(s)])
  {
    hide IsDigit;
    if s != "" && IsDigit(s[0]) {
      DigitsAre(s[1..]);
      var n := DigitsLength(s[1..]);
      assert s[..n + 1] == [s[0]] + s[1..][..n];
    }
  }

  lemma {:induction false} DigitsStop(a: string, b: string)
    requires AllDigits(a) && (b == "" || !IsDigit(b[0]))
    ensures DigitsLength(a + b) == |a|
  {
    hide IsDigit;
    if a == "" {
      assert a + b == b;
    } else {
      assert (a + b)[1..] == a[1..] + b;
      DigitsStop(a[1..], b);
    }
  }

  lemma MatchSound(version: string)
    requires IsExact(version)
    ensures Match(version).value.Numeric() && Match(version).value.Text() == version
  {
    hide AllDigits, DigitsLength;
    var a := DigitsLength(version);
    var rest := version[a + 1..];
    var b := DigitsLength(rest);
    DigitsAre(version);
    DigitsAre(rest);
    assert version == version[..a] + "." + rest && rest == rest[..b] + "." + rest[b + 1..];
    JoinParts(version[..a], rest[..b], rest[b + 1..]);
  }

  lemma JoinParts(a: string, b: string, c: string)
    ensures a + "." + (b + "." + c) == a + "." + b + "." + c
  {
  }

  lemma DotStops()
    ensures !IsDigit('.')
  {
  }

  lemma CutParts(a: string, rest: string)
    ensures var v := a + "." + rest;
      v[|a|] == '.' && v[..|a|] == a && v[|a| + 1..] == rest && |v| == |a| + 1 + |rest|
  {
  }

  lemma MatchJoined(major: string, minor: string, patch: string)
    requires IsNumeral(major) && IsNumeral(minor) && IsNumeral(patch)
    ensures Match(major + "." + (minor + "." + patch)) == Some(Parts(major, minor, patch))
  {
    hide AllDigits, DigitsLength, IsDigit;
    var rest := minor + "." + patch;
    CutParts(major, rest);
    CutParts(minor, patch);
    DotStops();
    DigitsStop(major, "." + rest);
    DigitsStop(minor, "." + patch);
    assert major + "." + rest == major + ("." + rest);
    assert rest == minor + ("." + patch);
  }

  /** A match has exactly the texts that it was put together from. */
  lemma MatchText(p: Parts)
    requires p.Numeric()
    ensures Match(p.Text()) == Some(p)
  {
    hide Match, IsNumeral;
    MatchJoined(p.major, p.minor, p.patch);
    JoinParts(p.major, p.minor, p.patch);
  }

  function NumbersOf(p: Parts): Version {
    Version(Value(p.major), Value(p.minor), Value(p.patch))
  }

  function Numbers(version: string): Version
    requires IsExact(version)
  {
    NumbersOf(Match(version).value)
  }

  // ----- bump and compare

  datatype Level = Patch | Minor | Major

  datatype Fault = UnsupportedFormat | NotComparable | NotGreater | ExtraArguments | NoExactVersion
                 | InvalidCombination | InvalidSelector

  function Raise(v: Version, level: Level): Version {
    match level
    case Major => Version(v.major + 1, 0, 0)
    case Minor => Version(v.major, v.minor + 1, 0)
    case Patch => Version(v.major, v.minor, v.patch + 1)
  }

  function Print(v: Version): string {
    Parts(Show(v.major), Show(v.minor), Show(v.patch)).Text()
  }

  function Bump(version: string, level: Level): Result<string, Fault> {
    if IsExact(version) then Ok(Print(Raise(Numbers(version), level))) else Err(UnsupportedFormat)
  }

  function FirstDelta(a: Version, b: Version): int {
    if a.major != b.major then a.major - b.major
    else if a.minor != b.minor then a.minor - b.minor
    else a.patch - b.patch
  }

  function Compare(left: string, right: string): Result<int, Fault> {
    if IsExact(left) && IsExact(right) then Ok(FirstDelta(Numbers(left), Numbers(right))) else Err(NotComparable)
  }

  /** The loop over the three components, with its early return. */
  method CompareSemver(left: string, right: string) returns (r: Result<int, Fault>)
    ensures r == Compare(left, right)
  {
    hide Match, Value;
    if !IsExact(left) || !IsExact(right) { return Err(NotComparable); }
    var l, m := Match(left).value, Match(right).value;
    var ls, ms := [l.major, l.minor, l.patch], [m.major, m.minor, m.patch];
    for index := 0 to 3
      invariant index > 0 ==> Value(l.major) == Value(m.major)
      invariant index > 1 ==> Value(l.minor) == Value(m.minor)
      invariant index > 2 ==> Value(l.patch) == Value(m.patch)
    {
      var delta := Value(ls[index]) - Value(ms[index]);
      if delta != 0 { return Ok(delta); }
    }
    return Ok(0);
  }

  /** Precedence as in section 11 of SemVer 2.0.0, for versions without a pre-release part. */
  predicate Precedes(a: Version, b: Version) {
    || a.major < b.major
    || (a.major == b.major && a.minor < b.minor)
    || (a.major == b.major && a.minor == b.minor && a.patch < b.patch)
  }

  /** A printed version is exact and reads as its numbers. */
  lemma PrintReads(v: Version)
    ensures IsExact(Print(v)) && Numbers(Print(v)) == v
  {
    hide Match, IsNumeral, Show, Value;
    ShowReads(v.major);
    ShowReads(v.minor);
    ShowReads(v.patch);
    MatchText(Parts(Show(v.major), Show(v.minor), Show(v.patch)));
  }

  /** Comparison agrees with precedence, and gives zero exactly for equal numbers. */
  lemma CompareIff(left: string, right: string)
    requires IsExact(left) && IsExact(right)
    ensures Compare(left, right).Ok?
    ensures var d := Compare(left, right).value;
      && (d < 0 <==> Precedes(Numbers(left), Numbers(right)))
      && (d > 0 <==> Precedes(Numbers(right), Numbers(left)))
      && (d == 0 <==> Numbers(left) == Numbers(right))
  {
    hide Match, Value;
  }

  /** Comparison is a total preorder on exact versions. */
  lemma ComparePreorder(a: string, b: string, c: string)
    requires IsExact(a) && IsExact(b) && IsExact(c)
    ensures Compare(a, a).value == 0
    ensures Compare(a, b).value <= 0 || Compare(b, a).value <= 0
    ensures Compare(a, b).value <= 0 && Compare(b, c).value <= 0 ==> Compare(a, c).value <= 0
    ensures Compare(a, b).value == -Compare(b, a).value
  {
    hide Match, Value;
  }

  /** A bump exists exactly for an exact version; it raises the numbers of its level, and
      compares as greater. */
  lemma BumpIsGreater(version: string, level: Level)
    ensures Bump(version, level).Ok? <==> IsExact(version)
    ensures IsExact(version) ==>
      var target := Bump(version, level).value;
      && IsExact(target) && Numbers(target) == Raise(Numbers(version), level)
      && Compare(target, version).value > 0
  {
    hide Match, Value, Print, IsExact, Numbers;
    if IsExact(version) {
      PrintReads(Raise(Numbers(version), level));
    }
  }

  /** Leading zeros are accepted, which section 2 of SemVer 2.0.0 forbids: they give another
      text of an equal version. */
  lemma LeadingZerosAreEqual(version: string)
    requires IsExact(version)
    ensures "0" + version != version && IsExact("0" + version) && Compare("0" + version, version) == Ok(0)
  {
    hide Match, Value, AllDigits, IsDigit;
    var p := Match(version).value;
    MatchSound(version);
    ZeroIsDigit(p.major);
    LeadingZero(p.major);
    var q := Parts("0" + p.major, p.minor, p.patch);
    ZeroText(p);
    MatchText(q);
    assert |"0" + version| == |version| + 1;
  }

  lemma ZeroIsDigit(s: string)
    requires IsNumeral(s)
    ensures IsNumeral("0" + s)
  {
  }

  lemma ZeroText(p: Parts)
    ensures Parts("0" + p.major, p.minor, p.patch).Text() == "0" + p.Text()
  {
  }

  // ----- targets and runs of releases

  datatype Args = ByLevel(level: Level) | Explicit(version: string)

  function Resolve(current: string, args: Args): Result<string, Fault> {
    match args
    case ByLevel(level) => Bump(current, level)
    case Explicit(version) =>
      match Compare(version, current)
      case Err(f) => Err(f)
      case Ok(d) => if d <= 0 then Err(NotGreater) else Ok(version)
  }

  /** Every resolved target is an exact version greater than the current one. */
  lemma ResolvedIsGreater(current: string, args: Args)
    requires Resolve(current, args).Ok?
    ensures IsExact(current) && IsExact(Resolve(current, args).value)
    ensures Precedes(Numbers(current), Numbers(Resolve(current, args).value))
  {
    hide Match, Value, Print, Raise, IsExact, Numbers, Precedes;
    match args {
      case ByLevel(level) =>
        BumpIsGreater(current, level);
        CompareIff(Bump(current, level).value, current);
      case Explicit(version) =>
        CompareIff(version, current);
    }
  }

  /** The versions of a run of releases, each resolved from the one before it. */
  ghost predicate ReleaseRun(versions: seq<string>, choices: seq<Args>) {
    && |versions| == |choices| + 1
    && forall i :: 0 <= i < |choices| ==> Resolve(versions[i], choices[i]) == Ok(versions[i + 1])
  }

  lemma PrecedesTransitive(a: Version, b: Version, c: Version)
    requires Precedes(a, b) && Precedes(b, c)
    ensures Precedes(a, c)
  {
  }

  /** Along any run of successful releases the versions strictly increase, so no version, and
      no tag made from one, comes twice. */
  lemma {:induction false} ReleasesIncrease(versions: seq<string>, choices: seq<Args>, i: nat, j: nat, prefix: string)
    requires ReleaseRun(versions, choices) && i < j < |versions|
    ensures IsExact(versions[i]) && IsExact(versions[j])
    ensures Precedes(Numbers(versions[i]), Numbers(versions[j]))
    ensures versions[i] != versions[j] && prefix + versions[i] != prefix + versions[j]
    decreases j - i
  {
    hide Match, Value, Resolve, IsExact, Numbers;
    assert Resolve(versions[i], choices[i]) == Ok(versions[i + 1]);
    ResolvedIsGreater(versions[i], choices[i]);
    if i + 1 < j {
      ReleasesIncrease(versions, choices, i + 1, j, prefix);
      PrecedesTransitive(Numbers(versions[i]), Numbers(versions[i + 1]), Numbers(versions[j]));
    }
    assert (prefix + versions[i])[|prefix|..] == versions[i] && (prefix + versions[j])[|prefix|..] == versions[j];
  }

  // ----- arguments

  function ArgAt(argv: seq<string>, i: nat): string {
    if i < |argv| then argv[i] else ""
  }

  function LevelNamed(s: string): Option<Level> {
    if s == "patch" then Some(Patch) else if s == "minor" then Some(Minor)
    else if s == "major" then Some(Major) else None
  }

  /** A missing argument and an empty one are the same. */
  function ParseArgs(argv: seq<string>): Result<Args, Fault> {
    var first, second := ArgAt(argv, 0), ArgAt(argv, 1);
    if |argv| > 2 then Err(ExtraArguments)
    else if first == "" then Ok(ByLevel(Patch))
    else if first == "--version" then
      if second == "" || !IsExact(second) then Err(NoExactVersion) else Ok(Explicit(second))
    else if second != "" then Err(InvalidCombination)
    else match LevelNamed(first)
      case Some(level) => Ok(ByLevel(level))
      case None => Err(InvalidSelector)
  }

  function BuildArgv(version: string): Result<seq<string>, Fault> {
    if IsExact(version) then Ok(["--version", version]) else Err(NoExactVersion)
  }

  /** Building and parsing explicit arguments are inverse to each other: what is built parses
      to its version, and whatever parses to an explicit version is what is built from it. */
  lemma ArgvRoundTrip(argv: seq<string>, version: string)
    ensures ParseArgs(argv) == Ok(Explicit(version)) <==> BuildArgv(version) == Ok(argv)
  {
    hide Match;
    EmptyIsNotExact();
    if ParseArgs(argv) == Ok(Explicit(version)) {
      assert argv == ["--version", version];
    }
  }

  lemma EmptyIsNotExact()
    ensures !IsExact("")
  {
  }

  // ----- targets, written out

  /** A level raises its own number and sets the smaller ones to zero. */
  predicate RaisedTo(v: Version, level: Level, w: Version) {
    match level
    case Major => w == Version(v.major + 1, 0, 0)
    case Minor => w == Version(v.major, v.minor + 1, 0)
    case Patch => w == Version(v.major, v.minor, v.patch + 1)
  }

  /** A bump prints the raised numbers; an explicit target stands exactly if both versions are
      exact and it is the later one. */
  lemma TargetsWritten(current: string, level: Level, version: string)
    ensures Resolve(current, ByLevel(level)).Ok? <==> IsExact(current)
    ensures IsExact(current) ==>
      && IsExact(Resolve(current, ByLevel(level)).value)
      && RaisedTo(Numbers(current), level, Numbers(Resolve(current, ByLevel(level)).value))
    ensures Resolve(current, Explicit(version)) == Ok(version)
       <==> IsExact(current) && IsExact(version) && Later(Numbers(version), Numbers(current))
    ensures Resolve(current, Explicit(version)).Ok? ==> Resolve(current, Explicit(version)).value == version
  {
    hide Match, Value, Print, IsExact, Numbers;
    BumpIsGreater(current, level);
    if IsExact(current) && IsExact(version) {
      CompareIff(version, current);
    }
  }

  predicate Later(a: Version, b: Version) {
    || a.major > b.major
    || (a.major == b.major && a.minor > b.minor)
    || (a.major == b.major && a.minor == b.minor && a.patch > b.patch)
  }

  predicate Empty(argv: seq<string>, i: nat) {
    i >= |argv| || argv[i] == ""
  }

  /** What the arguments of a release ask for. */
  predicate ArgsTell(argv: seq<string>, r: Result<Args, Fault>) {
    if |argv| > 2 then r == Err(ExtraArguments)
    else if Empty(argv, 0) then r == Ok(ByLevel(Patch))
    else if argv[0] == "--version" then
      r == if Empty(argv, 1) || !IsExact(argv[1]) then Err(NoExactVersion) else Ok(Explicit(argv[1]))
    else if !Empty(argv, 1) then r == Err(InvalidCombination)
    else r == if argv[0] == "patch" then Ok(ByLevel(Patch))
              else if argv[0] == "minor" then Ok(ByLevel(Minor))
              else if argv[0] == "major" then Ok(ByLevel(Major))
              else Err(InvalidSelector)
  }

  lemma ArgsWritten(argv: seq<string>)
    ensures ArgsTell(argv, ParseArgs(argv))
  {
    hide IsExact;
  }
}
