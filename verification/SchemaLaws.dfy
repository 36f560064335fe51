/** The schema checker against the JSON Schema standard, and under added constraints. */
module SchemaLaws {
  import opened Prelude
  import opened Json
  import opened SchemaCheck

  // ----- the standard meaning (JSON Schema Validation 2020-12, sections 6.1.1 to 6.5.3)

  /** Equal as JSON values: the order of the fields of an object does not matter, and of
      fields with one key the one that `Lookup` finds counts. */
  predicate SameJson(a: Value, b: Value)
    decreases a
  {
    match (a, b)
    case (Arr(x), Arr(y)) => |x| == |y| && forall i :: 0 <= i < |x| ==> SameJson(x[i], y[i])
    case (Obj(x), Obj(y)) =>
      && (forall i :: 0 <= i < |x| && Lookup(x, x[i].0) == Some(x[i].1)
                      ==> Has(b, x[i].0) && SameJson(x[i].1, Lookup(y, x[i].0).value))
      && (forall i :: 0 <= i < |y| ==> Has(a, y[i].0))
    case _ => a == b
  }

  predicate Listed(data: Value, values: seq<Value>) {
    exists i :: 0 <= i < |values| && SameJson(data, values[i])
  }

  /** A value of one of the seven named types; other names match nothing. */
  ghost predicate NamedType(data: Value, name: string) {
    || (name == "null" && data.Null?)
    || (name == "object" && data.Obj?)
    || (name == "array" && data.Arr?)
    || (name == "string" && data.Str?)
    || (name == "number" && data.Num?)
    || (name == "integer" && data.Num? && exists k: int :: data.n == Whole(k))
    || (name == "boolean" && data.Bool?)
  }

  ghost predicate StandardType(data: Value, s: Schema) {
    match s.types
    case Some(Str(name)) => NamedType(data, name)
    case Some(Arr(names)) => exists i :: 0 <= i < |names| && names[i].Str? && NamedType(data, names[i].s)
    case _ => true
  }

  ghost predicate StandardScalar(data: Value, s: Schema) {
    && StandardType(data, s)
    && (s.enumeration.Some? ==> Listed(data, s.enumeration.value))
    && (data.Num? && s.minimum.Some? ==> s.minimum.value <= data.n)
    && (data.Num? && s.maximum.Some? ==> data.n <= s.maximum.value)
  }

  /** Full conformance: every keyword as the standard has it, and every item of a list. */
  ghost predicate Standard(data: Value, s: Schema)
    decreases s
  {
    && StandardScalar(data, s)
    && (data.Obj? ==> forall f :: f in s.required ==> Has(data, f))
    && (data.Obj? ==> forall i :: 0 <= i < |s.properties| && Has(data, s.properties[i].0)
                                  ==> Standard(Lookup(data.fields, s.properties[i].0).value, s.properties[i].1))
    && (data.Arr? && s.items.Some? ==> forall i :: 0 <= i < |data.items| ==> Standard(data.items[i], s.items.value))
  }

  /** No list or object that the checker looks at is asked to be in an enumeration. */
  predicate ScalarEnums(data: Value, s: Schema)
    decreases s
  {
    && (s.enumeration.Some? ==> !data.Arr? && !data.Obj?)
    && (data.Obj? ==> forall i :: 0 <= i < |s.properties| && Has(data, s.properties[i].0)
                                  ==> ScalarEnums(Lookup(data.fields, s.properties[i].0).value, s.properties[i].1))
    && (data.Arr? && s.items.Some? ==> forall i :: 0 <= i < |data.items| && i < 3
                                                   ==> ScalarEnums(data.items[i], s.items.value))
  }

  ghost predicate Alike(data: Value, s: Schema) {
    Conforms(data, s) <==> ScalarEnums(data, s)
  }

  lemma StandardTypeOk(data: Value, s: Schema)
    requires StandardType(data, s)
    ensures TypeMet(data, s)
  {
    if s.types.Some? && s.types.value.Str? {
      NamedIsA(data, s.types.value.s);
    }
  }

  /** The checker's reading of a type name, and what it leaves out: `null` and unknown names. */
  lemma NamedIsA(data: Value, name: string)
    ensures NamedType(data, name) <==> IsA(data, name) && (Checked(name) || (name == "null" && data.Null?))
  {
  }

  predicate Checked(name: string) {
    || name == "object" || name == "array" || name == "string"
    || name == "number" || name == "integer" || name == "boolean"
  }

  lemma ScalarListed(data: Value, values: seq<Value>)
    requires !data.Arr? && !data.Obj?
    ensures Listed(data, values) <==> data in values
  {
    if data in values {
      var i :| 0 <= i < |values| && values[i] == data;
      assert SameJson(data, values[i]);
    }
  }

  /** Data that meets the standard is accepted exactly when no list or object among it is
      asked to be in an enumeration. */
  lemma {:induction false} StandardAcceptedIff(data: Value, s: Schema)
    requires Standard(data, s)
    ensures Conforms(data, s) <==> ScalarEnums(data, s)
    decreases s
  {
    hide StandardType, TypeMet, Lookup, Listed;
    StandardTypeOk(data, s);
    EnumAlike(data, s);
    if data.Obj? {
      forall i | 0 <= i < |s.properties| && Has(data, s.properties[i].0)
        ensures Alike(Lookup(data.fields, s.properties[i].0).value, s.properties[i].1)
      {
        HasValue(data, s.properties[i].0);
        StandardAcceptedIff(Lookup(data.fields, s.properties[i].0).value, s.properties[i].1);
      }
    }
    if data.Arr? && s.items.Some? {
      forall i | 0 <= i < |data.items| && i < 3
        ensures Alike(data.items[i], s.items.value)
      {
        StandardAcceptedIff(data.items[i], s.items.value);
      }
    }
  }

  lemma EnumAlike(data: Value, s: Schema)
    ensures s.enumeration.Some? && !data.Arr? && !data.Obj?
       ==> (data in s.enumeration.value <==> Listed(data, s.enumeration.value))
  {
    hide SameJson, Listed;
    if s.enumeration.Some? && !data.Arr? && !data.Obj? {
      ScalarListed(data, s.enumeration.value);
    }
  }

  /** A type that the checker does not read (a list of names, `null`, or an unknown name) is
      met as the standard has it. */
  ghost predicate UnreadTypeOk(data: Value, s: Schema) {
    match s.types
    case Some(Str(name)) => Checked(name) || (name == "null" && data.Null?)
    case Some(Arr(names)) => exists i :: 0 <= i < |names| && names[i].Str? && NamedType(data, names[i].s)
    case _ => true
  }

  lemma TypeSplits(data: Value, s: Schema)
    ensures StandardType(data, s) <==> TypeMet(data, s) && UnreadTypeOk(data, s)
  {
    hide Checked, IsA;
    if s.types.Some? && s.types.value.Str? {
      NamedIsA(data, s.types.value.s);
    }
  }

  /** What the checker does not look at meets the standard: unread types, and the items
      behind the third, at every place that it gets to. */
  ghost predicate UnreadOk(data: Value, s: Schema)
    decreases s
  {
    && UnreadTypeOk(data, s)
    && (data.Obj? ==> forall i :: 0 <= i < |s.properties| && Has(data, s.properties[i].0)
                                  ==> UnreadOk(Lookup(data.fields, s.properties[i].0).value, s.properties[i].1))
    && (data.Arr? && s.items.Some? ==> forall i :: 0 <= i < |data.items| && i < 3
                                                   ==> UnreadOk(data.items[i], s.items.value))
    && (data.Arr? && s.items.Some? ==> forall i :: 3 <= i < |data.items| ==> Standard(data.items[i], s.items.value))
  }

  ghost predicate Complete(data: Value, s: Schema) {
    Standard(data, s) <==> UnreadOk(data, s)
  }

  /** Accepted data meets the standard exactly when what the checker does not look at does. */
  lemma {:induction false} AcceptedIsStandardIff(data: Value, s: Schema)
    requires Conforms(data, s)
    ensures Standard(data, s) <==> UnreadOk(data, s)
    decreases s
  {
    hide StandardType, UnreadTypeOk, TypeMet, Lookup, Listed;
    TypeSplits(data, s);
    EnumAlike(data, s);
    if data.Obj? {
      forall i | 0 <= i < |s.properties| && Has(data, s.properties[i].0)
        ensures Complete(Lookup(data.fields, s.properties[i].0).value, s.properties[i].1)
      {
        HasValue(data, s.properties[i].0);
        AcceptedIsStandardIff(Lookup(data.fields, s.properties[i].0).value, s.properties[i].1);
      }
    }
    if data.Arr? && s.items.Some? {
      forall i | 0 <= i < |data.items| && i < 3
        ensures Complete(data.items[i], s.items.value)
      {
        AcceptedIsStandardIff(data.items[i], s.items.value);
      }
    }
  }

  /** A value that the checker accepts and the standard does not: a list of strings whose
      fourth item is no string. */
  lemma FourthItemAccepted(path: Path)
    ensures var text := Schema(Some(Str("string")), None, None, None, [], [], None);
      var s := Schema(None, None, None, None, [], [], Some(text));
      var data := Arr([Str("a"), Str("b"), Str("c"), Null]);
      && Errors(data, s, path) == []
      && !Standard(data, s)
  {
    hide Errors;
    var text := Schema(Some(Str("string")), None, None, None, [], [], None);
    var s := Schema(None, None, None, None, [], [], Some(text));
    var data := Arr([Str("a"), Str("b"), Str("c"), Null]);
    StringItems(text);
    AcceptsIff(data, s, path);
    assert !Standard(data.items[3], text);
  }

  lemma StringItems(text: Schema)
    requires text == Schema(Some(Str("string")), None, None, None, [], [], None)
    ensures Conforms(Str("a"), text) && Conforms(Str("b"), text) && Conforms(Str("c"), text)
    ensures !Standard(Null, text)
  {
  }

  /** A value that the standard accepts and the checker refuses: an empty list in an
      enumeration that lists it. */
  lemma CompositeEnumRefused(path: Path)
    ensures var s := Schema(None, Some([Arr([])]), None, None, [], [], None);
      && Standard(Arr([]), s)
      && Errors(Arr([]), s, path) != []
  {
    hide Errors;
    var s := Schema(None, Some([Arr([])]), None, None, [], [], None);
    assert SameJson(Arr([]), s.enumeration.value[0]);
    AcceptsIff(Arr([]), s, path);
  }

  // ----- what is not looked at

  /** Items behind the third never change the findings. */
  lemma OnlyThreeItems(items: seq<Value>, s: Schema, path: Path)
    requires |items| >= 3
    ensures Errors(Arr(items), s, path) == Errors(Arr(items[..3]), s, path)
  {
    hide Lookup, HasType;
    var all, front := Arr(items), Arr(items[..3]);
    SameKind(items, items[..3], s, path);
    if s.items.Some? {
      ItemsOfFront(items, s, 3, path);
    }
  }

  lemma SameKind(a: seq<Value>, b: seq<Value>, s: Schema, path: Path)
    ensures Stops(Arr(a), s) == Stops(Arr(b), s)
    ensures TypeErrors(Arr(a), s, path) == TypeErrors(Arr(b), s, path)
    ensures ScalarErrors(Arr(a), s, path) == ScalarErrors(Arr(b), s, path)
  {
    hide TypeName, When, HasType;
    if TypeName(s).Some? {
      SameType(a, b, TypeName(s).value);
    }
  }

  lemma SameType(a: seq<Value>, b: seq<Value>, name: string)
    ensures HasType(Arr(a), name) == HasType(Arr(b), name)
  {
  }

  lemma {:induction false} ItemsOfFront(items: seq<Value>, s: Schema, n: nat, path: Path)
    requires n <= 3 <= |items| && s.items.Some?
    ensures ItemErrors(Arr(items), s, n, path) == ItemErrors(Arr(items[..3]), s, n, path)
  {
    hide Errors;
    if n > 0 {
      ItemsOfFront(items, s, n - 1, path);
    }
  }

  // ----- lists of types

  predicate DifferInType(t: Schema, s: Schema) {
    t == s.(types := t.types)
  }

  /** A list of type names is ignored: the findings are those of the schema without a type. */
  lemma TypeListIgnored(data: Value, s: Schema, names: seq<Value>, path: Path)
    ensures Errors(data, s.(types := Some(Arr(names))), path) == Errors(data, s.(types := None), path)
  {
    hide HasType, ScalarErrors, RequiredErrors, PropertyErrors, ItemErrors, TypeErrors;
    var t, u := s.(types := Some(Arr(names))), s.(types := None);
    SameScalars(data, t, u, path);
    assert Sampled(data, t) == Sampled(data, u);
    SameItems(data, t, u, Sampled(data, t), path);
    if data.Obj? {
      SameRequired(data, t, u, |t.required|, path);
      SameProperties(data, t, u, |t.properties|, path);
    }
  }

  lemma SameScalars(data: Value, t: Schema, u: Schema, path: Path)
    requires DifferInType(t, u) && TypeName(t).None? && TypeName(u).None?
    ensures ScalarErrors(data, t, path) == ScalarErrors(data, u, path)
    ensures !Stops(data, t) && !Stops(data, u)
  {
    hide HasType;
  }

  lemma {:induction false} SameRequired(data: Value, t: Schema, u: Schema, n: nat, path: Path)
    requires DifferInType(t, u) && n <= |t.required| && data.Obj?
    ensures RequiredErrors(data, t, n, path) == RequiredErrors(data, u, n, path)
  {
    hide Has;
    if n > 0 {
      SameRequired(data, t, u, n - 1, path);
    }
  }

  lemma {:induction false} SameProperties(data: Value, t: Schema, u: Schema, n: nat, path: Path)
    requires DifferInType(t, u) && n <= |t.properties| && data.Obj?
    ensures PropertyErrors(data, t, n, path) == PropertyErrors(data, u, n, path)
  {
    hide Errors, Lookup;
    if n > 0 {
      SameProperties(data, t, u, n - 1, path);
    }
  }

  lemma {:induction false} SameItems(data: Value, t: Schema, u: Schema, n: nat, path: Path)
    requires DifferInType(t, u) && n <= Sampled(data, t) && n <= Sampled(data, u)
    ensures ItemErrors(data, t, n, path) == ItemErrors(data, u, n, path)
  {
    hide Errors;
    if n > 0 {
      SameItems(data, t, u, n - 1, path);
    }
  }

  // ----- more constraints

  /** The first schema has every constraint of the second, at every level. */
  predicate Tighter(t: Schema, s: Schema)
    decreases s, 1
  {
    && (s.types.None? || t.types == s.types || IntegerInNumber(t, s))
    && (s.enumeration.None?
        || (t.enumeration.Some? && forall v :: v in t.enumeration.value ==> v in s.enumeration.value))
    && (s.minimum.None? || (t.minimum.Some? && t.minimum.value >= s.minimum.value))
    && (s.maximum.None? || (t.maximum.Some? && t.maximum.value <= s.maximum.value))
    && (forall f :: f in s.required ==> f in t.required)
    && (forall i :: 0 <= i < |s.properties| ==> TighterProperty(t, s, i))
    && (s.items.None? || (t.items.Some? && Tighter(t.items.value, s.items.value)))
  }

  predicate IntegerInNumber(t: Schema, s: Schema) {
    t.types == Some(Str("integer")) && s.types == Some(Str("number"))
  }

  lemma IntegerIsNumber(data: Value)
    ensures IsA(data, "integer") ==> IsA(data, "number")
  {
  }

  predicate TighterProperty(t: Schema, s: Schema, i: nat)
    requires i < |s.properties|
    decreases s, 0
  {
    exists j :: 0 <= j < |t.properties| && t.properties[j].0 == s.properties[i].0
                && Tighter(t.properties[j].1, s.properties[i].1)
  }

  lemma TighterScalar(data: Value, t: Schema, s: Schema)
    requires Tighter(t, s) && ScalarOk(data, t)
    ensures ScalarOk(data, s)
  {
    hide TighterProperty, IsA;
    IntegerIsNumber(data);
  }

  /** A schema with added constraints accepts no more data. */
  lemma {:induction false} TighterAcceptsLess(data: Value, t: Schema, s: Schema)
    requires Tighter(t, s) && Conforms(data, t)
    ensures Conforms(data, s)
    decreases s
  {
    hide ScalarOk, Lookup;
    TighterScalar(data, t, s);
    if data.Obj? {
      forall i | 0 <= i < |s.properties| && Has(data, s.properties[i].0)
        ensures Conforms(Lookup(data.fields, s.properties[i].0).value, s.properties[i].1)
      {
        assert TighterProperty(t, s, i);
        var j :| 0 <= j < |t.properties| && t.properties[j].0 == s.properties[i].0
                 && Tighter(t.properties[j].1, s.properties[i].1);
        TighterAcceptsLess(Lookup(data.fields, s.properties[i].0).value, t.properties[j].1, s.properties[i].1);
      }
    }
    if data.Arr? && s.items.Some? {
      forall i | 0 <= i < |data.items| && i < 3
        ensures Conforms(data.items[i], s.items.value)
      {
        TighterAcceptsLess(data.items[i], t.items.value, s.items.value);
      }
    }
  }
}
