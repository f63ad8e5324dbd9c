/** JSON objects as sequences of fields, and maps of raw values written in whatever order they iterate. */
module JsonFields {
  import opened Common

  /**
   A JSON value in a document. `Number` is an integer, `Other` any text that is none of the other
   kinds. `Empty` stands where a key was written with no value after it.
   */
  datatype Value = Empty | String(s: string) | Bool(b: bool) | Number(n: int) | Other(text: string) | Object(fields: seq<Field>)

  datatype Field = Field(key: string, value: Value)

  predicate WellFormed(v: Value) {
    match v
    case Empty => false
    case Object(fields) => forall i | 0 <= i < |fields| :: WellFormed(fields[i].value)
    case _ => true
  }

  /** A key without a value is malformed, and so is an object with one; strings, numbers and the like never are. */
  lemma EmptyIsMalformed(v: Value, fields: seq<Field>)
    ensures !WellFormed(Empty)
    ensures (exists k :: Field(k, Empty) in fields) ==> !WellFormed(Object(fields))
    ensures v != Empty && !v.Object? ==> WellFormed(v)
  {
    if k :| Field(k, Empty) in fields {
      var i :| 0 <= i < |fields| && fields[i] == Field(k, Empty);
      assert !WellFormed(fields[i].value);
    }
  }

  /** A raw value is the text read, kept as it is. */
  type Raws = map<string, Value>

  predicate AllWellFormed(m: Raws) {
    forall k | k in m :: WellFormed(m[k])
  }

  function Keys(fields: seq<Field>): seq<string> {
    seq(|fields|, i requires 0 <= i < |fields| => fields[i].key)
  }

  // ---------------------------------------------------------------------------
  // Maps of raw values
  // ---------------------------------------------------------------------------

  /** The fields list each entry of the map once. */
  predicate Lists(fields: seq<Field>, m: Raws) {
    if |fields| == 0 then m == map[]
    else
      var init, last := fields[..|fields|-1], fields[|fields|-1];
      last.key in m && m[last.key] == last.value && Lists(init, m - {last.key})
  }

  lemma ListOneMore(fields: seq<Field>, m: Raws, k: string, v: Value)
    requires Lists(fields, m) && k !in m
    ensures Lists(fields + [Field(k, v)], m[k := v])
  {
    assert (fields + [Field(k, v)])[..|fields|] == fields;
    assert m[k := v] - {k} == m;
  }

  /** The entries are written in whatever order the map is iterated. */
  method EncodeRaws(m: Raws) returns (fields: seq<Field>)
    ensures Lists(fields, m)
  {
    fields := [];
    var todo := m.Keys;
    while todo != {}
      invariant todo <= m.Keys
      invariant Lists(fields, m - todo)
    {
      var k :| k in todo;
      ListOneMore(fields, m - todo, k, m[k]);
      assert (m - todo)[k := m[k]] == m - (todo - {k});
      fields := fields + [Field(k, m[k])];
      todo := todo - {k};
    }
    assert m - {} == m;
  }

  /** What reading these fields makes of a map: later entries over earlier ones, nothing if a value is malformed. */
  function Gathered(base: Raws, fields: seq<Field>): Option<Raws> {
    if |fields| == 0 then Some(base)
    else
      var init, last := Gathered(base, fields[..|fields|-1]), fields[|fields|-1];
      if init.Some? && WellFormed(last.value) then Some(init.value[last.key := last.value]) else None
  }

  method DecodeRaws(base: Raws, fields: seq<Field>) returns (r: Option<Raws>)
    ensures r == Gathered(base, fields)
  {
    var m := base;
    var i := 0;
    while i < |fields|
      invariant i <= |fields|
      invariant Gathered(base, fields[..i]) == Some(m)
    {
      assert fields[..i+1][..i] == fields[..i];
      if !WellFormed(fields[i].value) {
        StaysMalformed(base, fields, i + 1);
        return None;
      }
      m := m[fields[i].key := fields[i].value];
      i := i + 1;
    }
    assert fields[..i] == fields;
    return Some(m);
  }

  lemma {:induction false} StaysMalformed(base: Raws, fields: seq<Field>, i: nat)
    requires i <= |fields| && Gathered(base, fields[..i]).None?
    ensures Gathered(base, fields).None?
  {
    if i == |fields| {
      assert fields[..i] == fields;
    } else {
      assert fields[..|fields|-1][..i] == fields[..i];
      StaysMalformed(base, fields[..|fields|-1], i);
    }
  }

  /** Whatever the order the entries were written in, reading them back gives the map, unless a value is malformed. */
  lemma {:induction false} GatherLists(base: Raws, fields: seq<Field>, m: Raws)
    requires Lists(fields, m)
    ensures Gathered(base, fields) == if AllWellFormed(m) then Some(base + m) else None
  {
    if |fields| == 0 {
      assert base + m == base;
    } else {
      var last := fields[|fields|-1];
      var rest := m - {last.key};
      GatherLists(base, fields[..|fields|-1], rest);
      assert m == rest[last.key := last.value];
      assert AllWellFormed(m) <==> AllWellFormed(rest) && WellFormed(last.value);
      assert base + m == (base + rest)[last.key := last.value];
    }
  }

  lemma {:induction false} GatheredWellFormed(base: Raws, fields: seq<Field>)
    requires AllWellFormed(base) && Gathered(base, fields).Some?
    ensures AllWellFormed(Gathered(base, fields).value)
  {
    if |fields| > 0 {
      GatheredWellFormed(base, fields[..|fields|-1]);
    }
  }

  /** The value at the last of the fields with this key. */
  function LastValue(fields: seq<Field>, key: string): Option<Value> {
    if |fields| == 0 then None
    else if fields[|fields|-1].key == key then Some(fields[|fields|-1].value)
    else LastValue(fields[..|fields|-1], key)
  }

  /** Key by key: what is read last is what is there, over what was there before. */
  lemma {:induction false} GatheredAt(base: Raws, fields: seq<Field>, key: string)
    requires Gathered(base, fields).Some?
    ensures var m := Gathered(base, fields).value;
            match LastValue(fields, key)
            case Some(v) => key in m && m[key] == v
            case None => (key in m <==> key in base) && (key in base ==> m[key] == base[key])
  {
    if |fields| > 0 {
      GatheredAt(base, fields[..|fields|-1], key);
    }
  }

  // ---------------------------------------------------------------------------
  // Optional fields
  // ---------------------------------------------------------------------------

  /** A field that is written only when it is set. */
  function Put(fields: seq<Field>, key: string, value: Option<Value>): seq<Field> {
    if value.None? then fields else fields + [Field(key, value.value)]
  }

  function OptString(o: Option<string>): Option<Value> {
    match o case None => None case Some(s) => Some(String(s))
  }

  function OptBool(o: Option<bool>): Option<Value> {
    match o case None => None case Some(b) => Some(Bool(b))
  }
}
