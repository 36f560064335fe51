/** The checker of tool outputs against a subset of JSON Schema. */
module SchemaCheck {
  import opened Prelude
  import opened Json

  /** A schema with the keywords that the checker reads.  The value of `type` is kept as
      it stands, since it can be a name or a list of names. */
  datatype Schema = Schema(
    types: Option<Value>,
    enumeration: Option<seq<Value>>,
    minimum: Option<real>,
    maximum: Option<real>,
    required: seq<string>,
    properties: seq<(string, Schema)>,
    items: Option<Schema>)

  datatype PathStep = Key(key: string) | Index(index: nat)

  type Path = seq<PathStep>

  datatype Problem =
    | WrongType(expected: string)
    | NotInEnum
    | BelowMinimum
    | AboveMaximum
    | MissingField(field: string)

  datatype Finding = Finding(path: Path, problem: Problem)

  // ----- the keywords

  predicate IsInteger(n: real) {
    n.Floor as real == n
  }

  predicate HasType(data: Value, name: string) {
    match name
    case "object" => data.Obj?
    case "array" => data.Arr?
    case "string" => data.Str?
    case "number" => data.Num?
    case "integer" => data.Num? && IsInteger(data.n)
    case "boolean" => data.Bool?
    case _ => true
  }

  /** The one type name of a schema; a list of names gives none. */
  function TypeName(s: Schema): Option<string> {
    if s.types.Some? && s.types.value.Str? then Some(s.types.value.s) else None
  }

  predicate TypeOk(data: Value, s: Schema) {
    TypeName(s).Some? ==> HasType(data, TypeName(s).value)
  }

  /** A wrong type that ends the check of a value at once. */
  predicate Stops(data: Value, s: Schema) {
    !TypeOk(data, s) && (TypeName(s).value == "object" || TypeName(s).value == "array")
  }

  predicate Composite(data: Value) {
    data.Arr? || data.Obj?
  }

  /** Membership as the language has it: a list or an object from another text is never
      the one in the enumeration. */
  predicate EnumOk(data: Value, s: Schema) {
    s.enumeration.Some? ==> !Composite(data) && data in s.enumeration.value
  }

  predicate MinimumOk(data: Value, s: Schema) {
    data.Num? && s.minimum.Some? ==> data.n >= s.minimum.value
  }

  predicate MaximumOk(data: Value, s: Schema) {
    data.Num? && s.maximum.Some? ==> data.n <= s.maximum.value
  }

  predicate Has(data: Value, key: string)
    requires data.Obj?
  {
    Lookup(data.fields, key).Some?
  }

  /** How many items of a list are looked at. */
  function Sampled(data: Value, s: Schema): (n: nat)
    ensures data.Arr? ==> n <= |data.items|
    ensures n > 0 ==> data.Arr? && s.items.Some?
  {
    if data.Arr? && s.items.Some? then (if |data.items| < 3 then |data.items| else 3) else 0
  }

  // ----- the findings, as the checker lists them

  function When(ok: bool, path: Path, problem: Problem): seq<Finding> {
    if ok then [] else [Finding(path, problem)]
  }

  function TypeErrors(data: Value, s: Schema, path: Path): seq<Finding> {
    if TypeOk(data, s) then [] else [Finding(path, WrongType(TypeName(s).value))]
  }

  function ScalarErrors(data: Value, s: Schema, path: Path): seq<Finding> {
    TypeErrors(data, s, path)
    + When(EnumOk(data, s), path, NotInEnum)
    + When(MinimumOk(data, s), path, BelowMinimum)
    + When(MaximumOk(data, s), path, AboveMaximum)
  }

  function RequiredErrors(data: Value, s: Schema, n: nat, path: Path): seq<Finding>
    requires n <= |s.required| && data.Obj?
  {
    if n == 0 then []
    else RequiredErrors(data, s, n - 1, path)
         + When(Has(data, s.required[n - 1]), path, MissingField(s.required[n - 1]))
  }

  function PropertyErrors(data: Value, s: Schema, n: nat, path: Path): seq<Finding>
    requires n <= |s.properties| && data.Obj?
    decreases s, 0, n
  {
    if n == 0 then []
    else
      var (key, sub) := s.properties[n - 1];
      PropertyErrors(data, s, n - 1, path)
      + (if Has(data, key) then Errors(Lookup(data.fields, key).value, sub, path + [Key(key)]) else [])
  }

  function ItemErrors(data: Value, s: Schema, n: nat, path: Path): seq<Finding>
    requires n <= Sampled(data, s)
    decreases s, 0, n
  {
    if n == 0 then []
    else ItemErrors(data, s, n - 1, path) + Errors(data.items[n - 1], s.items.value, path + [Index(n - 1)])
  }

  function Errors(data: Value, s: Schema, path: Path): seq<Finding>
    decreases s, 1, 0
  {
    if Stops(data, s) then TypeErrors(data, s, path)
    else
      ScalarErrors(data, s, path)
      + (if data.Obj? then RequiredErrors(data, s, |s.required|, path) else [])
      + (if data.Obj? then PropertyErrors(data, s, |s.properties|, path) else [])
      + ItemErrors(data, s, Sampled(data, s), path)
  }

  // ----- the checker

  method CheckScalar(data: Value, s: Schema, path: Path) returns (errors: seq<Finding>, stop: bool)
    ensures stop == Stops(data, s)
    ensures errors == if stop then TypeErrors(data, s, path) else ScalarErrors(data, s, path)
  {
    hide HasType;
    errors, stop := [], false;
    if s.types.Some? && s.types.value.Str? {
      var expected := s.types.value.s;
      if !HasType(data, expected) {
        errors := errors + [Finding(path, WrongType(expected))];
        if expected == "object" || expected == "array" { return errors, true; }
      }
    }
    if s.enumeration.Some? && (Composite(data) || data !in s.enumeration.value) {
      errors := errors + [Finding(path, NotInEnum)];
    }
    if data.Num? {
      if s.minimum.Some? && data.n < s.minimum.value {
        errors := errors + [Finding(path, BelowMinimum)];
      }
      if s.maximum.Some? && data.n > s.maximum.value {
        errors := errors + [Finding(path, AboveMaximum)];
      }
    }
  }

  method CheckRequired(data: Value, s: Schema, path: Path) returns (errors: seq<Finding>)
    requires data.Obj?
    ensures errors == RequiredErrors(data, s, |s.required|, path)
  {
    errors := [];
    for k := 0 to |s.required|
      invariant errors == RequiredErrors(data, s, k, path)
    {
      if !Has(data, s.required[k]) {
        errors := errors + [Finding(path, MissingField(s.required[k]))];
      }
    }
  }

  method ValidateAgainstSchema(data: Value, s: Schema, path: Path) returns (errors: seq<Finding>)
    ensures errors == Errors(data, s, path)
    decreases s
  {
    hide Stops, ScalarErrors, TypeErrors, Has, RequiredErrors;
    var stop;
    errors, stop := CheckScalar(data, s, path);
    if stop { return; }
    if data.Obj? {
      var missing := CheckRequired(data, s, path);
      errors := errors + missing;
      ghost var before := errors;
      for k := 0 to |s.properties|
        invariant errors == before + PropertyErrors(data, s, k, path)
      {
        var (key, sub) := s.properties[k];
        if Has(data, key) {
          assert sub == s.properties[k].1;
          HasValue(data, key);
          var nested := ValidateAgainstSchema(Lookup(data.fields, key).value, sub, path + [Key(key)]);
          errors := errors + nested;
        }
      }
    }
    if data.Arr? && s.items.Some? {
      ghost var before := errors;
      for i := 0 to if |data.items| < 3 then |data.items| else 3
        invariant errors == before + ItemErrors(data, s, i, path)
      {
        var nested := ValidateAgainstSchema(data.items[i], s.items.value, path + [Index(i)]);
        errors := errors + nested;
      }
    }
  }

  lemma HasValue(data: Value, key: string)
    requires data.Obj? && Has(data, key)
    ensures Lookup(data.fields, key).Some?
  {
  }

  // ----- acceptance, declaratively

  function Whole(k: int): real {
    k as real
  }

  /** What the six type names that the checker knows stand for; any other name is no test. */
  ghost predicate IsA(data: Value, name: string) {
    && (name == "object" ==> data.Obj?)
    && (name == "array" ==> data.Arr?)
    && (name == "string" ==> data.Str?)
    && (name == "number" ==> data.Num?)
    && (name == "integer" ==> data.Num? && exists k: int :: data.n == Whole(k))
    && (name == "boolean" ==> data.Bool?)
  }

  ghost predicate TypeMet(data: Value, s: Schema) {
    s.types.Some? && s.types.value.Str? ==> IsA(data, s.types.value.s)
  }

  ghost predicate ScalarOk(data: Value, s: Schema) {
    && TypeMet(data, s)
    && (s.enumeration.Some? ==> !data.Arr? && !data.Obj? && data in s.enumeration.value)
    && (data.Num? && s.minimum.Some? ==> s.minimum.value <= data.n)
    && (data.Num? && s.maximum.Some? ==> data.n <= s.maximum.value)
  }

  lemma HasTypeIff(data: Value, name: string)
    ensures HasType(data, name) <==> IsA(data, name)
  {
    if data.Num? {
      IntegerIff(data.n);
    }
  }

  lemma IntegerIff(n: real)
    ensures IsInteger(n) <==> exists k: int :: n == Whole(k)
  {
    if IsInteger(n) {
      assert n == Whole(n.Floor);
    }
  }

  /** The data has the type, is in the enumeration and in the bounds, has the required
      fields, and its listed properties and first three items conform in turn. */
  ghost predicate Conforms(data: Value, s: Schema)
    decreases s
  {
    && ScalarOk(data, s)
    && (data.Obj? ==> forall f :: f in s.required ==> Has(data, f))
    && (data.Obj? ==> forall i :: 0 <= i < |s.properties| && Has(data, s.properties[i].0)
                                  ==> Conforms(Lookup(data.fields, s.properties[i].0).value, s.properties[i].1))
    && (data.Arr? && s.items.Some? ==> forall i :: 0 <= i < |data.items| && i < 3
                                                   ==> Conforms(data.items[i], s.items.value))
  }

  lemma {:induction false} RequiredEmpty(data: Value, s: Schema, n: nat, path: Path)
    requires n <= |s.required| && data.Obj?
    ensures RequiredErrors(data, s, n, path) == [] <==> forall k :: 0 <= k < n ==> Has(data, s.required[k])
  {
    hide Has;
    if n > 0 {
      RequiredEmpty(data, s, n - 1, path);
    }
  }

  lemma {:induction false} PropertiesEmpty(data: Value, s: Schema, n: nat, path: Path)
    requires n <= |s.properties| && data.Obj?
    ensures PropertyErrors(data, s, n, path) == []
       <==> forall i :: 0 <= i < n && Has(data, s.properties[i].0)
                        ==> Conforms(Lookup(data.fields, s.properties[i].0).value, s.properties[i].1)
    decreases s, 0, n
  {
    hide Errors, Conforms;
    if n > 0 {
      PropertiesEmpty(data, s, n - 1, path);
      var (key, sub) := s.properties[n - 1];
      if Has(data, key) {
        HasValue(data, key);
        AcceptsIff(Lookup(data.fields, key).value, sub, path + [Key(key)]);
      }
    }
  }

  lemma {:induction false} ItemsEmpty(data: Value, s: Schema, n: nat, path: Path)
    requires n <= Sampled(data, s)
    ensures ItemErrors(data, s, n, path) == []
       <==> forall i :: 0 <= i < n ==> Conforms(data.items[i], s.items.value)
    decreases s, 0, n
  {
    hide Errors, Conforms, Sampled;
    if n > 0 {
      ItemsEmpty(data, s, n - 1, path);
      AcceptsIff(data.items[n - 1], s.items.value, path + [Index(n - 1)]);
    }
  }

  lemma ScalarEmpty(data: Value, s: Schema, path: Path)
    ensures ScalarErrors(data, s, path) == [] <==> ScalarOk(data, s)
    ensures Stops(data, s) ==> TypeErrors(data, s, path) != [] && !ScalarOk(data, s)
  {
    hide HasType, IsA;
    if TypeName(s).Some? {
      HasTypeIff(data, TypeName(s).value);
    }
  }

  lemma SampledItems(data: Value, s: Schema)
    ensures (forall i :: 0 <= i < Sampled(data, s) ==> Conforms(data.items[i], s.items.value))
       <==> (data.Arr? && s.items.Some? ==> forall i :: 0 <= i < |data.items| && i < 3
                                                        ==> Conforms(data.items[i], s.items.value))
  {
    hide Conforms;
  }

  /** The checker reports nothing exactly when the data conforms. */
  lemma {:induction false} AcceptsIff(data: Value, s: Schema, path: Path)
    ensures Errors(data, s, path) == [] <==> Conforms(data, s)
    decreases s, 1, 0
  {
    hide Stops, ScalarErrors, TypeErrors, ScalarOk, Has, Sampled, ItemErrors, PropertyErrors, RequiredErrors;
    ScalarEmpty(data, s, path);
    ItemsEmpty(data, s, Sampled(data, s), path);
    SampledItems(data, s);
    if data.Obj? {
      RequiredEmpty(data, s, |s.required|, path);
      PropertiesEmpty(data, s, |s.properties|, path);
    }
  }
}
