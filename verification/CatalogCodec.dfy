/**
 Reading a catalog from JSON, as far as it fails: on a value that does not decode, or on required
 fields that are missing. What the values decode to is not part of this model: `decodes` says of
 which values it works, for each of the catalog's own fields.
 */
module CatalogCodec {
  import opened Common
  import opened JsonFields
  import opened RequiredFields

  const FIELDS := ["id", "name", "description", "status", "highlightedPackages", "visible", "packages"]

  const MASK: bv8 := 0x43

  const REQUIRED := ["id", "name", "packages"]

  function RequiredBit(key: string): bv8 {
    if key == "id" then 0x01 else if key == "name" then 0x02 else if key == "packages" then 0x40 else 0
  }

  lemma MaskBits()
    ensures Bit(MASK, 0) && Bit(MASK, 1) && Bit(MASK, 6)
    ensures !Bit(MASK, 2) && !Bit(MASK, 3) && !Bit(MASK, 4) && !Bit(MASK, 5) && !Bit(MASK, 7)
  {
  }

  lemma BitsOfKey(key: string, i: nat)
    requires i < 8
    ensures Bit(RequiredBit(key), i) <==> (key == "id" && i == 0) || (key == "name" && i == 1) || (key == "packages" && i == 6)
  {
    assert "id"[0] == 'i' && "name"[0] == 'n' && "packages"[0] == 'p';
  }

  lemma FieldsTable()
    ensures Table(RequiredBit, FIELDS, MASK)
    ensures Names(MASK, FIELDS, 0) == REQUIRED
  {
    MaskBits();
    forall key, i: nat | i < 8
      ensures Bit(RequiredBit(key), i) <==> Bit(MASK, i) && key == FIELDS[i]
    {
      BitsOfKey(key, i);
    }
    assert Names(MASK, FIELDS, 6) == ["packages"];
    assert Names(MASK, FIELDS, 4) == ["packages"];
    assert Names(MASK, FIELDS, 2) == ["packages"];
  }

  datatype DecodeError = Malformed | Required(names: seq<string>)

  type Decoders = (string, Value) -> bool

  /** Values of unknown keys are skipped, but have to be JSON. */
  predicate FieldDecodes(f: Field, decodes: Decoders) {
    if f.key in FIELDS then decodes(f.key, f.value) else WellFormed(f.value)
  }

  predicate AllDecode(doc: seq<Field>, decodes: Decoders) {
    forall i | 0 <= i < |doc| :: FieldDecodes(doc[i], decodes)
  }

  lemma OneMoreKey(doc: seq<Field>, i: nat)
    requires i < |doc|
    ensures Seen(RequiredBit, Keys(doc[..i+1])) == Seen(RequiredBit, Keys(doc[..i])) | RequiredBit(doc[i].key)
  {
    assert Keys(doc[..i+1])[..i] == Keys(doc[..i]);
  }

  /** For any sequence of keys, in any order, with any repeated and any unknown: a value that does not decode fails
      the whole; otherwise the error names exactly the required fields that never occur, and without any there is no
      error. */
  method Decode(doc: seq<Field>, decodes: Decoders) returns (error: Option<DecodeError>)
    ensures error == if !AllDecode(doc, decodes) then Some(Malformed)
                     else if Absent(REQUIRED, Keys(doc)) != [] then Some(Required(Absent(REQUIRED, Keys(doc))))
                     else None
  {
    var requiredBitSet: bv8 := 0;
    for i := 0 to |doc|
      invariant requiredBitSet == Seen(RequiredBit, Keys(doc[..i]))
      invariant forall j | 0 <= j < i :: FieldDecodes(doc[j], decodes)
    {
      OneMoreKey(doc, i);
      requiredBitSet := requiredBitSet | RequiredBit(doc[i].key);
      var known := doc[i].key in ["id", "name", "description", "status", "highlightedPackages", "visible", "packages"];
      var ok := if known then decodes(doc[i].key, doc[i].value) else WellFormed(doc[i].value);
      if !ok { return Some(Malformed); }
    }
    assert doc[..|doc|] == doc;
    FieldsTable();
    MissedNames(RequiredBit, FIELDS, MASK, Keys(doc));
    var failures := MissingFields(requiredBitSet, MASK, FIELDS);
    return if |failures| > 0 then Some(Required(failures)) else None;
  }

  /** When every value decodes, decoding fails exactly when a required name is not among the keys, and then reports
      exactly those, each once. */
  lemma RequiredExactly(doc: seq<Field>)
    ensures Absent(REQUIRED, Keys(doc)) != [] <==> exists name :: name in REQUIRED && name !in Keys(doc)
    ensures forall name :: name in Absent(REQUIRED, Keys(doc)) <==> name in REQUIRED && name !in Keys(doc)
    ensures Distinct(Absent(REQUIRED, Keys(doc)))
  {
    var absent := Absent(REQUIRED, Keys(doc));
    AbsentExactly(REQUIRED, Keys(doc));
    assert |absent| > 0 ==> absent[0] in absent;
    assert "id"[0] == 'i' && "name"[0] == 'n' && "packages"[0] == 'p';
    AbsentOnce(REQUIRED, Keys(doc));
  }
}
