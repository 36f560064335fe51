/** JSON values.  An object keeps its fields in order, as parsing and printing do. */
module Json {
  import opened Prelude

  type Fields = seq<(string, Value)>

  datatype Value =
    | Null
    | Bool(b: bool)
    | Num(n: real)
    | Str(s: string)
    | Arr(items: seq<Value>)
    | Obj(fields: Fields)

  /** The value under a key. */
  function Lookup(fields: Fields, key: string): Option<Value>
    decreases |fields|
  {
    if fields == [] then None
    else if fields[0].0 == key then Some(fields[0].1)
    else Lookup(fields[1..], key)
  }

  /** Assignment to a property: in place if the key is there, at the end otherwise. */
  function Put(fields: Fields, key: string, v: Value): Fields
    decreases |fields|
  {
    if fields == [] then [(key, v)]
    else if fields[0].0 == key then [(key, v)] + fields[1..]
    else [fields[0]] + Put(fields[1..], key, v)
  }

  lemma {:induction false} PutLookup(fields: Fields, key: string, v: Value, other: string)
    ensures Lookup(Put(fields, key, v), other) == if other == key then Some(v) else Lookup(fields, other)
    decreases |fields|
  {
    if fields == [] {
      assert Put(fields, key, v)[1..] == [];
    } else if fields[0].0 == key {
      assert Put(fields, key, v)[1..] == fields[1..];
    } else {
      PutLookup(fields[1..], key, v, other);
      assert Put(fields, key, v)[1..] == Put(fields[1..], key, v);
    }
  }

  /** Putting back what is there changes nothing, and only that changes nothing. */
  lemma {:induction false} PutSame(fields: Fields, key: string, v: Value)
    ensures Put(fields, key, v) == fields <==> Lookup(fields, key) == Some(v)
    decreases |fields|
  {
    if fields == [] {
    } else if fields[0].0 == key {
      assert fields == [fields[0]] + fields[1..];
      assert Put(fields, key, v)[0] == (key, v);
    } else {
      PutSame(fields[1..], key, v);
      assert fields == [fields[0]] + fields[1..];
      assert Put(fields, key, v)[1..] == Put(fields[1..], key, v);
    }
  }
}
