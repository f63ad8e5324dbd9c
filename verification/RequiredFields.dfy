/**
 How a generated decoder finds the required fields it has not seen: one bit per field, the missing
 ones taken off lowest first.
 */
module RequiredFields {

  /** 1 << i */
  function Place(i: nat): bv8
    requires i < 8
  {
    match i
    case 0 => 0x01
    case 1 => 0x02
    case 2 => 0x04
    case 3 => 0x08
    case 4 => 0x10
    case 5 => 0x20
    case 6 => 0x40
    case _ => 0x80
  }

  predicate Bit(b: bv8, i: nat)
    requires i < 8
  {
    b & Place(i) != 0
  }

  function CountFrom(b: bv8, i: nat): (n: nat)
    requires i <= 8
    decreases 8 - i
  {
    if i == 8 then 0 else (if Bit(b, i) then 1 else 0) + CountFrom(b, i + 1)
  }

  function OnesCount8(b: bv8): nat {
    CountFrom(b, 0)
  }

  function ZerosFrom(b: bv8, i: nat): (n: nat)
    requires i <= 8
    ensures i <= n <= 8 && (n < 8 ==> Bit(b, n)) && forall j | i <= j < n :: !Bit(b, j)
    decreases 8 - i
  {
    if i == 8 || Bit(b, i) then i else ZerosFrom(b, i + 1)
  }

  function TrailingZeros8(b: bv8): nat {
    ZerosFrom(b, 0)
  }

  /** b &^ (1 << i) */
  function Without(b: bv8, i: nat): bv8
    requires i < 8
  {
    b & !Place(i)
  }

  lemma ClearBit(b: bv8, i: nat, j: nat)
    requires i < 8 && j < 8
    ensures Bit(Without(b, i), j) <==> Bit(b, j) && j != i
  {
  }

  /** The bits of the mask that have not been seen. */
  function Missed(seen: bv8, mask: bv8): bv8 {
    (seen & mask) ^ mask
  }

  lemma MissedBit(seen: bv8, mask: bv8, i: nat)
    requires i < 8
    ensures Bit(Missed(seen, mask), i) <==> Bit(mask, i) && !Bit(seen, i)
  {
  }

  lemma OrBit(a: bv8, b: bv8, i: nat)
    requires i < 8
    ensures Bit(a | b, i) <==> Bit(a, i) || Bit(b, i)
  {
  }

  lemma NoBits(b: bv8)
    ensures OnesCount8(b) == 0 <==> b == 0
  {
    CountSome(b, 0);
    if OnesCount8(b) == 0 {
      assert !Bit(b, 0) && !Bit(b, 1) && !Bit(b, 2) && !Bit(b, 3) && !Bit(b, 4) && !Bit(b, 5) && !Bit(b, 6) && !Bit(b, 7);
    }
  }

  lemma {:induction false} CountSome(b: bv8, i: nat)
    requires i <= 8
    ensures CountFrom(b, i) == 0 <==> forall j: nat | i <= j < 8 :: !Bit(b, j)
    decreases 8 - i
  {
    if i < 8 {
      CountSome(b, i + 1);
    }
  }

  // ---------------------------------------------------------------------------
  // The names of bits
  // ---------------------------------------------------------------------------

  /** Every bit has a field. */
  predicate Named(b: bv8, fields: seq<string>) {
    forall i: nat | i < 8 && Bit(b, i) :: i < |fields|
  }

  /** The fields of the bits from `i` on, in ascending order. */
  function Names(b: bv8, fields: seq<string>, i: nat): seq<string>
    requires i <= 8 && Named(b, fields)
    decreases 8 - i
  {
    if i == 8 then []
    else if Bit(b, i) then [fields[i]] + Names(b, fields, i + 1)
    else Names(b, fields, i + 1)
  }

  /** Bits that differ below `i` alone count and name the same from there. */
  lemma {:induction false} SameFrom(b: bv8, c: bv8, fields: seq<string>, i: nat)
    requires i <= 8 && forall j: nat | i <= j < 8 :: Bit(b, j) == Bit(c, j)
    requires Named(b, fields) && Named(c, fields)
    ensures CountFrom(b, i) == CountFrom(c, i)
    ensures Names(b, fields, i) == Names(c, fields, i)
    decreases 8 - i
  {
    if i < 8 {
      SameFrom(b, c, fields, i + 1);
    }
  }

  /** Taking off the lowest bit takes off the first name. */
  lemma {:induction false} DropLowest(b: bv8, rest: bv8, t: nat, fields: seq<string>, i: nat)
    requires i <= t < 8 && Named(b, fields) && Named(rest, fields)
    requires Bit(b, t) && forall j: nat | j < t :: !Bit(b, j)
    requires forall j: nat | j < 8 :: Bit(rest, j) <==> Bit(b, j) && j != t
    ensures CountFrom(b, i) == 1 + CountFrom(rest, i)
    ensures Names(b, fields, i) == [fields[t]] + Names(rest, fields, i)
    decreases t - i
  {
    if i < t {
      DropLowest(b, rest, t, fields, i + 1);
    } else {
      SameFrom(b, rest, fields, i + 1);
    }
  }

  lemma SomeBit(b: bv8)
    requires OnesCount8(b) > 0
    ensures TrailingZeros8(b) < 8
  {
    CountSome(b, 0);
  }

  lemma WithoutLowest(b: bv8, t: nat, fields: seq<string>)
    requires t < 8 && Named(b, fields)
    ensures Named(Without(b, t), fields)
    ensures forall j: nat | j < 8 :: Bit(Without(b, t), j) <==> Bit(b, j) && j != t
  {
    forall j: nat | j < 8 ensures Bit(Without(b, t), j) <==> Bit(b, j) && j != t {
      ClearBit(b, t, j);
    }
  }

  lemma {:induction false} TakeLowest(b: bv8, fields: seq<string>)
    requires OnesCount8(b) > 0 && Named(b, fields)
    ensures var t := TrailingZeros8(b);
            && t < |fields| && t < 8 && Named(Without(b, t), fields)
            && OnesCount8(b) == 1 + OnesCount8(Without(b, t))
            && Names(b, fields, 0) == [fields[t]] + Names(Without(b, t), fields, 0)
  {
    var t := TrailingZeros8(b);
    SomeBit(b);
    var rest := Without(b, t);
    WithoutLowest(b, t, fields);
    DropLowest(b, rest, t, fields, 0);
  }

  // ---------------------------------------------------------------------------
  // Missing fields
  // ---------------------------------------------------------------------------

  /** The required names that are not among the keys, in order. */
  function Absent(required: seq<string>, keys: seq<string>): seq<string> {
    if required == [] then []
    else if required[0] in keys then Absent(required[1..], keys)
    else [required[0]] + Absent(required[1..], keys)
  }

  lemma {:induction false} AbsentExactly(required: seq<string>, keys: seq<string>)
    ensures forall name :: name in Absent(required, keys) <==> name in required && name !in keys
  {
    if required != [] {
      AbsentExactly(required[1..], keys);
      assert required == [required[0]] + required[1..];
    }
  }

  ghost predicate Distinct(names: seq<string>) {
    forall i, j | 0 <= i < j < |names| :: names[i] != names[j]
  }

  lemma {:induction false} AbsentOnce(required: seq<string>, keys: seq<string>)
    requires Distinct(required)
    ensures Distinct(Absent(required, keys))
  {
    if required != [] {
      AbsentOnce(required[1..], keys);
      AbsentExactly(required[1..], keys);
    }
  }

  /** Each key sets its bits. */
  function Seen(bits: string -> bv8, keys: seq<string>): bv8 {
    if |keys| == 0 then 0 else Seen(bits, keys[..|keys|-1]) | bits(keys[|keys|-1])
  }

  /** A table of bits sets the bit of each required field by its name alone, and no other bit. */
  ghost predicate Table(bits: string -> bv8, fields: seq<string>, mask: bv8) {
    Named(mask, fields) && forall key, i: nat | i < 8 :: Bit(bits(key), i) <==> Bit(mask, i) && key == fields[i]
  }

  lemma SeenGrows(bits: string -> bv8, keys: seq<string>, i: nat)
    requires |keys| > 0 && i < 8
    ensures Bit(Seen(bits, keys), i) <==> Bit(Seen(bits, keys[..|keys|-1]), i) || Bit(bits(keys[|keys|-1]), i)
  {
    OrBit(Seen(bits, keys[..|keys|-1]), bits(keys[|keys|-1]), i);
  }

  lemma {:induction false} SeenBit(bits: string -> bv8, fields: seq<string>, mask: bv8, keys: seq<string>, i: nat)
    requires Table(bits, fields, mask) && i < 8
    ensures Bit(Seen(bits, keys), i) <==> Bit(mask, i) && fields[i] in keys
  {
    if |keys| > 0 {
      SeenBit(bits, fields, mask, keys[..|keys|-1], i);
      SeenGrows(bits, keys, i);
      assert keys == keys[..|keys|-1] + [keys[|keys|-1]];
    }
  }

  lemma {:induction false} NamesAbsent(missed: bv8, fields: seq<string>, mask: bv8, keys: seq<string>, i: nat)
    requires i <= 8 && Named(mask, fields) && Named(missed, fields)
    requires forall j: nat | j < 8 :: Bit(missed, j) <==> Bit(mask, j) && fields[j] !in keys
    ensures Names(missed, fields, i) == Absent(Names(mask, fields, i), keys)
    decreases 8 - i
  {
    if i < 8 {
      NamesAbsent(missed, fields, mask, keys, i + 1);
      if Bit(mask, i) {
        var rest := Names(mask, fields, i + 1);
        assert ([fields[i]] + rest)[1..] == rest;
      }
    }
  }

  /** The bits missed are those of the required names that are not among the keys. */
  lemma MissedNames(bits: string -> bv8, fields: seq<string>, mask: bv8, keys: seq<string>)
    requires Table(bits, fields, mask)
    ensures Named(Missed(Seen(bits, keys), mask), fields)
    ensures Names(Missed(Seen(bits, keys), mask), fields, 0) == Absent(Names(mask, fields, 0), keys)
  {
    var missed := Missed(Seen(bits, keys), mask);
    forall j: nat | j < 8 ensures Bit(missed, j) <==> Bit(mask, j) && fields[j] !in keys {
      SeenBit(bits, fields, mask, keys, j);
      MissedBit(Seen(bits, keys), mask, j);
    }
    NamesAbsent(missed, fields, mask, keys, 0);
  }

  lemma MissedNamed(seen: bv8, mask: bv8, fields: seq<string>)
    requires Named(mask, fields)
    ensures Named(Missed(seen, mask), fields)
  {
    forall i: nat | i < 8 ensures Bit(Missed(seen, mask), i) ==> Bit(mask, i) {
      MissedBit(seen, mask, i);
    }
  }

  lemma {:induction false} NoNames(b: bv8, fields: seq<string>, i: nat)
    requires i <= 8 && Named(b, fields) && CountFrom(b, i) == 0
    ensures Names(b, fields, i) == []
    decreases 8 - i
  {
    if i < 8 {
      NoNames(b, fields, i + 1);
    }
  }

  lemma AllTaken(b: bv8, fields: seq<string>)
    requires Named(b, fields) && OnesCount8(b) == 0
    ensures b == 0 && Names(b, fields, 0) == []
  {
    NoBits(b);
    NoNames(b, fields, 0);
  }

  /** One step of the loop: the lowest bit of `b` moves to the names. */
  lemma {:induction false} MoveLowest(failures: seq<string>, b: bv8, fields: seq<string>, all: seq<string>)
    requires OnesCount8(b) > 0 && Named(b, fields) && failures + Names(b, fields, 0) == all
    ensures var t := TrailingZeros8(b);
            && t < |fields| && t < 8 && Named(Without(b, t), fields)
            && OnesCount8(b) == 1 + OnesCount8(Without(b, t))
            && failures + [fields[t]] + Names(Without(b, t), fields, 0) == all
  {
    TakeLowest(b, fields);
  }

  /** Takes the lowest bit off as many times as there are bits. */
  method TakeNames(b: bv8, fields: seq<string>) returns (names: seq<string>)
    requires Named(b, fields)
    ensures names == Names(b, fields, 0)
  {
    names := [];
    var result := b;
    var missed := OnesCount8(result);
    for bitN := 0 to missed
      invariant OnesCount8(result) == missed - bitN
      invariant Named(result, fields)
      invariant names + Names(result, fields, 0) == Names(b, fields, 0)
    {
      MoveLowest(names, result, fields, Names(b, fields, 0));
      var bitIdx := TrailingZeros8(result);
      names := names + [fields[bitIdx]];
      result := Without(result, bitIdx);
    }
    AllTaken(result, fields);
    assert result == 0;
  }

  /** The names of the required fields that were not seen, in ascending order of field. */
  method MissingFields(seen: bv8, mask: bv8, fields: seq<string>) returns (failures: seq<string>)
    requires Named(mask, fields)
    ensures Named(Missed(seen, mask), fields)
    ensures failures == Names(Missed(seen, mask), fields, 0)
  {
    MissedNamed(seen, mask, fields);
    var result := Missed(seen, mask);
    if result == 0 {
      NoBits(result);
      NoNames(result, fields, 0);
      return [];
    }
    failures := TakeNames(result, fields);
  }
}
