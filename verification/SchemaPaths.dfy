/** Where the findings of the schema checker point to. */
module SchemaPaths {
  import opened Prelude
  import opened Json
  import opened SchemaCheck

  // ----- places in a value and in a schema

  function Child(data: Value, step: PathStep): Option<Value> {
    match step
    case Key(key) => if data.Obj? then Lookup(data.fields, key) else None
    case Index(i) => if data.Arr? && i < |data.items| then Some(data.items[i]) else None
  }

  function SchemaFor(properties: seq<(string, Schema)>, key: string): Option<Schema> {
    if properties == [] then None
    else if properties[0].0 == key then Some(properties[0].1)
    else SchemaFor(properties[1..], key)
  }

  function ChildSchema(s: Schema, step: PathStep): Option<Schema> {
    match step
    case Key(key) => SchemaFor(s.properties, key)
    case Index(_) => s.items
  }

  function Navigate(data: Value, rel: Path): Option<Value>
    decreases |rel|
  {
    if rel == [] then Some(data)
    else match Child(data, rel[0])
      case None => None
      case Some(c) => Navigate(c, rel[1..])
  }

  function SchemaAt(s: Schema, rel: Path): Option<Schema>
    decreases |rel|
  {
    if rel == [] then Some(s)
    else match ChildSchema(s, rel[0])
      case None => None
      case Some(c) => SchemaAt(c, rel[1..])
  }

  /** An object or a list is asked for, and this is none. */
  predicate WrongComposite(data: Value, s: Schema) {
    (s.types == Some(Str("object")) && !data.Obj?) || (s.types == Some(Str("array")) && !data.Arr?)
  }

  lemma StopsIff(data: Value, s: Schema)
    ensures Stops(data, s) <==> WrongComposite(data, s)
  {
  }

  /** The checker gets to this place: it is there in the data and in the schema, no value
      above it has stopped the check, and only the first three items of a list count. */
  predicate Reached(data: Value, s: Schema, rel: Path)
    decreases |rel|
  {
    rel == [] ||
    (&& !WrongComposite(data, s)
     && (rel[0].Index? ==> rel[0].index < 3)
     && Child(data, rel[0]).Some? && ChildSchema(s, rel[0]).Some?
     && Reached(Child(data, rel[0]).value, ChildSchema(s, rel[0]).value, rel[1..]))
  }

  lemma {:induction false} ReachedIsThere(data: Value, s: Schema, rel: Path)
    requires Reached(data, s, rel)
    ensures Navigate(data, rel).Some? && SchemaAt(s, rel).Some?
    decreases |rel|
  {
    hide WrongComposite, Child, ChildSchema;
    if rel != [] {
      ReachedIsThere(Child(data, rel[0]).value, ChildSchema(s, rel[0]).value, rel[1..]);
    }
  }

  /** A value breaks a keyword of a schema. */
  ghost predicate Violates(data: Value, s: Schema, problem: Problem) {
    match problem
    case WrongType(name) => s.types == Some(Str(name)) && !IsA(data, name)
    case NotInEnum => s.enumeration.Some? && (data.Arr? || data.Obj? || data !in s.enumeration.value)
    case BelowMinimum => data.Num? && s.minimum.Some? && data.n < s.minimum.value
    case AboveMaximum => data.Num? && s.maximum.Some? && s.maximum.value < data.n
    case MissingField(f) => data.Obj? && f in s.required && !Has(data, f)
  }

  /** What is reported of a value itself: a wrong type that stops the check hides the rest. */
  ghost predicate Reported(data: Value, s: Schema, problem: Problem) {
    Violates(data, s, problem) && (WrongComposite(data, s) ==> problem.WrongType?)
  }

  /** Property names are distinct, as in every parsed object. */
  predicate Distinct(s: Schema)
    decreases s
  {
    && (forall i, j :: 0 <= i < j < |s.properties| ==> s.properties[i].0 != s.properties[j].0)
    && (forall i :: 0 <= i < |s.properties| ==> Distinct(s.properties[i].1))
    && (s.items.Some? ==> Distinct(s.items.value))
  }

  lemma {:induction false} SchemaForIndex(properties: seq<(string, Schema)>, i: nat)
    requires i < |properties|
    requires forall j, k :: 0 <= j < k < |properties| ==> properties[j].0 != properties[k].0
    ensures SchemaFor(properties, properties[i].0) == Some(properties[i].1)
  {
    if i > 0 {
      assert properties[0].0 != properties[i].0;
      forall j, k | 0 <= j < k < |properties[1..]|
        ensures properties[1..][j].0 != properties[1..][k].0
      {
        assert properties[j + 1].0 != properties[k + 1].0;
      }
      SchemaForIndex(properties[1..], i - 1);
    }
  }

  lemma {:induction false} SchemaForFinds(properties: seq<(string, Schema)>, key: string) returns (i: nat)
    requires SchemaFor(properties, key).Some?
    ensures i < |properties| && properties[i].0 == key && SchemaFor(properties, key) == Some(properties[i].1)
  {
    if properties[0].0 == key {
      i := 0;
    } else {
      i := SchemaForFinds(properties[1..], key);
      i := i + 1;
    }
  }

  // ----- findings of a value itself

  lemma WhenHas(ok: bool, path: Path, problem: Problem, f: Finding)
    ensures f in When(ok, path, problem) <==> !ok && f == Finding(path, problem)
  {
  }

  lemma ScalarFinding(data: Value, s: Schema, path: Path, f: Finding)
    ensures f in ScalarErrors(data, s, path)
       <==> f.path == path && !f.problem.MissingField? && Violates(data, s, f.problem)
  {
    hide When, TypeErrors, IsA;
    TypeFinding(data, s, path, f);
    WhenHas(EnumOk(data, s), path, NotInEnum, f);
    WhenHas(MinimumOk(data, s), path, BelowMinimum, f);
    WhenHas(MaximumOk(data, s), path, AboveMaximum, f);
    var a, b, c, d := TypeErrors(data, s, path), When(EnumOk(data, s), path, NotInEnum),
                      When(MinimumOk(data, s), path, BelowMinimum), When(MaximumOk(data, s), path, AboveMaximum);
    InFour(a, b, c, d, f);
  }

  lemma InFour<T>(a: seq<T>, b: seq<T>, c: seq<T>, d: seq<T>, x: T)
    ensures x in a + b + c + d <==> x in a || x in b || x in c || x in d
  {
  }

  lemma TypeFinding(data: Value, s: Schema, path: Path, f: Finding)
    ensures f in TypeErrors(data, s, path)
       <==> f.path == path && f.problem.WrongType? && Violates(data, s, f.problem)
  {
    hide HasType, IsA;
    if TypeName(s).Some? {
      HasTypeIff(data, TypeName(s).value);
    }
  }

  lemma {:induction false} RequiredFinding(data: Value, s: Schema, n: nat, path: Path, f: Finding)
    requires n <= |s.required| && data.Obj?
    ensures f in RequiredErrors(data, s, n, path)
       <==> f.path == path && f.problem.MissingField? && f.problem.field in s.required[..n]
            && !Has(data, f.problem.field)
  {
    hide Has, When;
    if n > 0 {
      RequiredFinding(data, s, n - 1, path, f);
      WhenHas(Has(data, s.required[n - 1]), path, MissingField(s.required[n - 1]), f);
      assert s.required[..n] == s.required[..n - 1] + [s.required[n - 1]];
    }
  }

  // ----- findings of the parts

  predicate FromProperty(data: Value, s: Schema, i: nat, path: Path, f: Finding)
    requires i < |s.properties| && data.Obj?
  {
    var (key, sub) := s.properties[i];
    Has(data, key) && f in Errors(Lookup(data.fields, key).value, sub, path + [Key(key)])
  }

  lemma {:induction false} PropertyFinding(data: Value, s: Schema, n: nat, path: Path, f: Finding)
    requires n <= |s.properties| && data.Obj?
    ensures f in PropertyErrors(data, s, n, path) <==> exists i :: 0 <= i < n && FromProperty(data, s, i, path, f)
    decreases n
  {
    hide Errors;
    if n > 0 {
      PropertyFinding(data, s, n - 1, path, f);
      assert FromProperty(data, s, n - 1, path, f) ==> f in PropertyErrors(data, s, n, path);
    }
  }

  predicate FromItem(data: Value, s: Schema, i: nat, path: Path, f: Finding)
    requires i < Sampled(data, s)
  {
    f in Errors(data.items[i], s.items.value, path + [Index(i)])
  }

  lemma {:induction false} ItemFinding(data: Value, s: Schema, n: nat, path: Path, f: Finding)
    requires n <= Sampled(data, s)
    ensures f in ItemErrors(data, s, n, path) <==> exists i :: 0 <= i < n && FromItem(data, s, i, path, f)
    decreases n
  {
    hide Errors, Sampled;
    if n > 0 {
      ItemFinding(data, s, n - 1, path, f);
      assert FromItem(data, s, n - 1, path, f) ==> f in ItemErrors(data, s, n, path);
    }
  }

  ghost predicate Own(data: Value, s: Schema, path: Path, f: Finding) {
    f.path == path && Reported(data, s, f.problem)
  }

  predicate FromParts(data: Value, s: Schema, path: Path, f: Finding) {
    && !Stops(data, s)
    && (|| (data.Obj? && f in PropertyErrors(data, s, |s.properties|, path))
        || f in ItemErrors(data, s, Sampled(data, s), path))
  }

  /** The findings are those of the value itself and those of its parts. */
  lemma FindingSource(data: Value, s: Schema, path: Path, f: Finding)
    ensures f in Errors(data, s, path) <==> Own(data, s, path, f) || FromParts(data, s, path, f)
  {
    hide Stops, ScalarErrors, TypeErrors, RequiredErrors, PropertyErrors, ItemErrors, Violates, Has, Sampled;
    hide WrongComposite;
    StopsIff(data, s);
    if Stops(data, s) {
      TypeFinding(data, s, path, f);
    } else {
      ScalarFinding(data, s, path, f);
      MissingIsOwn(data, s, path, f);
    }
  }

  lemma MissingIsOwn(data: Value, s: Schema, path: Path, f: Finding)
    ensures data.Obj? && f in RequiredErrors(data, s, |s.required|, path)
       <==> f.path == path && f.problem.MissingField? && Violates(data, s, f.problem)
  {
    hide RequiredErrors, Has;
    if data.Obj? {
      RequiredFinding(data, s, |s.required|, path, f);
      assert s.required[..|s.required|] == s.required;
    }
  }

  // ----- every path extends the starting path

  lemma {:induction false} PathsExtend(data: Value, s: Schema, path: Path, f: Finding)
    requires f in Errors(data, s, path)
    ensures path <= f.path
    decreases s
  {
    hide Errors, PropertyErrors, ItemErrors, Sampled, Has, Reported;
    FindingSource(data, s, path, f);
    if FromParts(data, s, path, f) {
      var step, sub, c := PartOf(data, s, path, f);
      PathsExtend(c, sub, path + [step], f);
    }
  }

  /** A finding of the parts comes from one property or one item. */
  lemma PartOf(data: Value, s: Schema, path: Path, f: Finding) returns (step: PathStep, sub: Schema, c: Value)
    requires FromParts(data, s, path, f)
    ensures sub < s && Child(data, step) == Some(c) && f in Errors(c, sub, path + [step])
    ensures step.Index? ==> step.index < 3 && s.items == Some(sub)
    ensures step.Key? ==> exists i :: 0 <= i < |s.properties| && s.properties[i] == (step.key, sub)
  {
    hide Errors, PropertyErrors, ItemErrors, Stops;
    if data.Obj? && f in PropertyErrors(data, s, |s.properties|, path) {
      PropertyFinding(data, s, |s.properties|, path, f);
      var i :| 0 <= i < |s.properties| && FromProperty(data, s, i, path, f);
      step, sub := Key(s.properties[i].0), s.properties[i].1;
      c := Lookup(data.fields, s.properties[i].0).value;
    } else {
      ItemFinding(data, s, Sampled(data, s), path, f);
      var i :| 0 <= i < Sampled(data, s) && FromItem(data, s, i, path, f);
      step, sub, c := Index(i), s.items.value, data.items[i];
    }
  }

  /** The other way: a finding of one part is a finding of the whole. */
  lemma PartIsFound(data: Value, s: Schema, path: Path, step: PathStep, f: Finding)
    requires !WrongComposite(data, s) && (step.Index? ==> step.index < 3)
    requires Child(data, step).Some? && ChildSchema(s, step).Some?
    requires f in Errors(Child(data, step).value, ChildSchema(s, step).value, path + [step])
    ensures FromParts(data, s, path, f)
  {
    hide Errors, PropertyErrors, ItemErrors, Stops, WrongComposite;
    StopsIff(data, s);
    match step {
      case Key(key) =>
        var i := SchemaForFinds(s.properties, key);
        assert FromProperty(data, s, i, path, f);
        PropertyFinding(data, s, |s.properties|, path, f);
      case Index(i) =>
        assert FromItem(data, s, i, path, f);
        ItemFinding(data, s, Sampled(data, s), path, f);
    }
  }

  // ----- main result

  lemma SamePath(path: Path, step: PathStep, rel: Path)
    requires rel != [] && path + [step] <= path + rel
    ensures step == rel[0]
  {
    assert (path + rel)[|path|] == rel[0] && (path + [step])[|path|] == step;
  }

  lemma LongerPath(path: Path, step: PathStep)
    ensures !(path + [step] <= path)
  {
  }

  lemma Regroup(path: Path, rel: Path)
    requires rel != []
    ensures path + [rel[0]] + rel[1..] == path + rel
  {
  }

  /** The schema of a part is the one that its step leads to. */
  lemma PartSchema(s: Schema, step: PathStep, sub: Schema)
    requires Distinct(s)
    requires step.Index? ==> s.items == Some(sub)
    requires step.Key? ==> exists i :: 0 <= i < |s.properties| && s.properties[i] == (step.key, sub)
    ensures ChildSchema(s, step) == Some(sub) && Distinct(sub)
  {
    if step.Key? {
      var i :| 0 <= i < |s.properties| && s.properties[i] == (step.key, sub);
      assert Distinct(s.properties[i].1);
      SchemaForIndex(s.properties, i);
    }
  }

  ghost predicate ReportedAt(data: Value, s: Schema, rel: Path, problem: Problem) {
    && Reached(data, s, rel)
    && (ReachedIsThere(data, s, rel);
        Reported(Navigate(data, rel).value, SchemaAt(s, rel).value, problem))
  }

  lemma {:induction false} FoundIsReached(data: Value, s: Schema, path: Path, rel: Path, problem: Problem)
    requires Distinct(s) && Finding(path + rel, problem) in Errors(data, s, path)
    ensures ReportedAt(data, s, rel, problem)
    decreases |rel|
  {
    hide Errors, Reported, Distinct, Stops, WrongComposite, Child, ChildSchema;
    StopsIff(data, s);
    var f := Finding(path + rel, problem);
    FindingSource(data, s, path, f);
    if Own(data, s, path, f) {
      assert |path + rel| == |path|;
    } else {
      var step, sub, c := PartOf(data, s, path, f);
      PathsExtend(c, sub, path + [step], f);
      LongerPath(path, step);
      assert rel == [] ==> path + rel == path;
      SamePath(path, step, rel);
      Regroup(path, rel);
      PartSchema(s, step, sub);
      FoundIsReached(c, sub, path + [step], rel[1..], problem);
    }
  }

  lemma {:induction false} ReachedIsFound(data: Value, s: Schema, path: Path, rel: Path, problem: Problem)
    requires ReportedAt(data, s, rel, problem)
    ensures Finding(path + rel, problem) in Errors(data, s, path)
    decreases |rel|
  {
    hide Errors, Reported, WrongComposite, Child, ChildSchema, FromParts;
    var f := Finding(path + rel, problem);
    FindingSource(data, s, path, f);
    if rel == [] {
      assert path + rel == path;
    } else {
      Regroup(path, rel);
      ReachedIsFound(Child(data, rel[0]).value, ChildSchema(s, rel[0]).value, path + [rel[0]], rel[1..], problem);
      PartIsFound(data, s, path, rel[0], f);
    }
  }

  /** The findings are exactly the broken keywords of the values that the checker reaches,
      each at the path that leads to the value. */
  lemma FindingsExact(data: Value, s: Schema, path: Path, rel: Path, problem: Problem)
    requires Distinct(s)
    ensures Finding(path + rel, problem) in Errors(data, s, path) <==> ReportedAt(data, s, rel, problem)
  {
    hide Errors, ReportedAt, Distinct;
    if Finding(path + rel, problem) in Errors(data, s, path) {
      FoundIsReached(data, s, path, rel, problem);
    }
    if ReportedAt(data, s, rel, problem) {
      ReachedIsFound(data, s, path, rel, problem);
    }
  }
}
