/**
 Problem details, written to and read from JSON. Printing and parsing URIs are not part of this
 model: `show` and `parse` stand for them.
 */
module ProblemCodec {
  import opened Common
  import opened JsonFields

  type Int64 = n: int | -0x8000_0000_0000_0000 <= n < 0x8000_0000_0000_0000

  /** `additional` is None for a nil map. */
  datatype Problem<U> = Problem(typ: Option<U>, title: Option<string>, status: Option<Int64>,
                                detail: Option<string>, instance: Option<string>, additional: Option<Raws>)

  datatype Key = Type | Title | Status | Detail | Instance | Additional

  function Text(k: Key): string
    requires k != Additional
  {
    match k
    case Type => "type"
    case Title => "title"
    case Status => "status"
    case Detail => "detail"
    case Instance => "instance"
  }

  function KeyOf(s: string): Key {
    if s == "type" then Type
    else if s == "title" then Title
    else if s == "status" then Status
    else if s == "detail" then Detail
    else if s == "instance" then Instance
    else Additional
  }

  lemma KeyOfText(k: Key)
    requires k != Additional
    ensures KeyOf(Text(k)) == k
  {
    assert "type"[1] == 'y' && "title"[1] == 'i' && "status"[0] == 's' && "detail"[0] == 'd' && "instance"[0] == 'i';
  }

  function OrEmpty(m: Option<Raws>): Raws {
    if m.Some? then m.value else map[]
  }

  // ---------------------------------------------------------------------------
  // Reading
  // ---------------------------------------------------------------------------

  type Parser<!U> = string -> Option<U>

  /** Reading one field: None when its value is not of the field's type. Any other key is additional. */
  function SetKey<U>(parse: Parser<U>, p: Problem<U>, key: string, v: Value): Option<Problem<U>> {
    match KeyOf(key)
    case Type => if v.String? && parse(v.s).Some? then Some(p.(typ := parse(v.s))) else None
    case Title => if v.String? then Some(p.(title := Some(v.s))) else None
    case Status =>
      if v.Number? && -0x8000_0000_0000_0000 <= v.n < 0x8000_0000_0000_0000 then Some(p.(status := Some(v.n))) else None
    case Detail => if v.String? then Some(p.(detail := Some(v.s))) else None
    case Instance => if v.String? then Some(p.(instance := Some(v.s))) else None
    case Additional => if WellFormed(v) then Some(p.(additional := Some(OrEmpty(p.additional)[key := v]))) else None
  }

  /** Reading the fields in order. */
  function Folded<U>(parse: Parser<U>, p: Problem<U>, doc: seq<Field>): Option<Problem<U>> {
    if |doc| == 0 then Some(p)
    else
      var init, last := Folded(parse, p, doc[..|doc|-1]), doc[|doc|-1];
      if init.Some? then SetKey(parse, init.value, last.key, last.value) else None
  }

  function Zero<U>(): Problem<U> {
    Problem(None, None, None, None, None, None)
  }

  /** What decoding a document into `p` results in: its additional members are dropped first. */
  function Decoded<U>(parse: Parser<U>, p: Problem<U>, doc: seq<Field>): Option<Problem<U>> {
    Folded(parse, p.(additional := Some(map[])), doc)
  }

  // ---------------------------------------------------------------------------
  // Writing
  // ---------------------------------------------------------------------------

  function OptUri<U>(show: U -> string, u: Option<U>): Option<Value> {
    match u case None => None case Some(uri) => Some(String(show(uri)))
  }

  function OptInt(n: Option<Int64>): Option<Value> {
    match n case None => None case Some(value) => Some(Number(value))
  }

  function FixedFields<U>(show: U -> string, p: Problem<U>): seq<Field> {
    var d := Put(Put([], Text(Type), OptUri(show, p.typ)), Text(Title), OptString(p.title));
    Put(Put(Put(d, Text(Status), OptInt(p.status)), Text(Detail), OptString(p.detail)), Text(Instance), OptString(p.instance))
  }

  /** A document that writes `p`, whatever the order of its additional members. */
  ghost predicate Encodes<U>(show: U -> string, p: Problem<U>, doc: seq<Field>) {
    exists rest :: Lists(rest, OrEmpty(p.additional)) && doc == FixedFields(show, p) + rest
  }

  // ---------------------------------------------------------------------------
  // Round trips
  // ---------------------------------------------------------------------------

  /** The condition under which a problem survives. */
  ghost predicate Clean<U>(parse: Parser<U>, show: U -> string, p: Problem<U>) {
    && (p.typ.Some? ==> parse(show(p.typ.value)) == p.typ)
    && forall k | k in OrEmpty(p.additional) :: KeyOf(k) == Additional && WellFormed(OrEmpty(p.additional)[k])
  }

  function Normal<U>(p: Problem<U>): Problem<U> {
    p.(additional := Some(OrEmpty(p.additional)))
  }

  function Then<U>(parse: Parser<U>, p: Option<Problem<U>>, k: Key, v: Option<Value>): Option<Problem<U>>
    requires k != Additional
  {
    if v.None? || p.None? then p else SetKey(parse, p.value, Text(k), v.value)
  }

  lemma FoldAppend<U>(parse: Parser<U>, p: Problem<U>, doc: seq<Field>, f: Field)
    ensures Folded(parse, p, doc + [f]) == if Folded(parse, p, doc).None? then None
                                           else SetKey(parse, Folded(parse, p, doc).value, f.key, f.value)
  {
    assert (doc + [f])[..|doc|] == doc;
  }

  lemma FoldPut<U>(parse: Parser<U>, p: Problem<U>, doc: seq<Field>, k: Key, v: Option<Value>)
    requires k != Additional
    ensures Folded(parse, p, Put(doc, Text(k), v)) == Then(parse, Folded(parse, p, doc), k, v)
  {
    if v.Some? {
      FoldAppend(parse, p, doc, Field(Text(k), v.value));
    }
  }

  function ReadType<U>(parse: Parser<U>, show: U -> string, p: Problem<U>): Option<Problem<U>> {
    var typ := if p.typ.Some? then parse(show(p.typ.value)) else None;
    if p.typ.Some? && typ.None? then None else Some(Zero().(typ := typ, additional := Some(map[])))
  }

  lemma ThenStrings<U>(parse: Parser<U>, p: Problem<U>, s: Option<string>)
    ensures p.title.None? ==> Then(parse, Some(p), Title, OptString(s)) == Some(p.(title := s))
    ensures p.detail.None? ==> Then(parse, Some(p), Detail, OptString(s)) == Some(p.(detail := s))
    ensures p.instance.None? ==> Then(parse, Some(p), Instance, OptString(s)) == Some(p.(instance := s))
  {
    KeyOfText(Title);
    KeyOfText(Detail);
    KeyOfText(Instance);
  }

  lemma ThenInt<U>(parse: Parser<U>, p: Problem<U>, n: Option<Int64>)
    ensures p.status.None? ==> Then(parse, Some(p), Status, OptInt(n)) == Some(p.(status := n))
  {
    KeyOfText(Status);
  }

  lemma ThenUri<U>(parse: Parser<U>, show: U -> string, p: Problem<U>)
    ensures Then(parse, Some(Zero().(additional := Some(map[]))), Type, OptUri(show, p.typ)) == ReadType(parse, show, p)
  {
    KeyOfText(Type);
  }

  function ReadRest<U>(parse: Parser<U>, first: Option<Problem<U>>, p: Problem<U>): Option<Problem<U>> {
    var status := Then(parse, Then(parse, first, Title, OptString(p.title)), Status, OptInt(p.status));
    Then(parse, Then(parse, status, Detail, OptString(p.detail)), Instance, OptString(p.instance))
  }

  lemma RestReads<U>(parse: Parser<U>, first: Problem<U>, p: Problem<U>)
    requires first.title.None? && first.status.None? && first.detail.None? && first.instance.None?
    ensures ReadRest(parse, Some(first), p)
            == Some(first.(title := p.title, status := p.status, detail := p.detail, instance := p.instance))
  {
    var q := first.(title := p.title);
    ThenStrings(parse, first, p.title);
    ThenInt(parse, q, p.status);
    q := q.(status := p.status);
    ThenStrings(parse, q, p.detail);
    ThenStrings(parse, q.(detail := p.detail), p.instance);
  }

  lemma FoldInOrder<U>(parse: Parser<U>, show: U -> string, p: Problem<U>)
    ensures Folded(parse, Zero().(additional := Some(map[])), FixedFields(show, p))
            == ReadRest(parse, ReadType(parse, show, p), p)
  {
    var z: Problem<U> := Zero().(additional := Some(map[]));
    FoldPut(parse, z, [], Type, OptUri(show, p.typ));
    var d := Put([], Text(Type), OptUri(show, p.typ));
    ThenUri(parse, show, p);
    FoldPut(parse, z, d, Title, OptString(p.title));
    d := Put(d, Text(Title), OptString(p.title));
    FoldPut(parse, z, d, Status, OptInt(p.status));
    d := Put(d, Text(Status), OptInt(p.status));
    FoldPut(parse, z, d, Detail, OptString(p.detail));
    d := Put(d, Text(Detail), OptString(p.detail));
    FoldPut(parse, z, d, Instance, OptString(p.instance));
  }

  /** The fixed fields read back, unless the type's URI does not parse. */
  lemma FoldFixed<U>(parse: Parser<U>, show: U -> string, p: Problem<U>)
    ensures var first := ReadType(parse, show, p);
            Folded(parse, Zero().(additional := Some(map[])), FixedFields(show, p))
            == if first.None? then None else Some(p.(typ := first.value.typ, additional := Some(map[])))
  {
    FoldInOrder(parse, show, p);
    var first := ReadType(parse, show, p);
    if first.Some? {
      RestReads(parse, first.value, p);
    }
  }

  /** Additional members read after the fixed fields join them, in any order. */
  lemma {:induction false} FoldAdditional<U>(parse: Parser<U>, p: Problem<U>, doc: seq<Field>, rest: seq<Field>, m: Raws)
    requires Lists(rest, m) && forall k | k in m :: KeyOf(k) == Additional
    requires Folded(parse, p, doc).Some? && Folded(parse, p, doc).value.additional.Some?
    ensures var q := Folded(parse, p, doc).value;
            Folded(parse, p, doc + rest)
            == if AllWellFormed(m) then Some(q.(additional := Some(q.additional.value + m))) else None
  {
    var q := Folded(parse, p, doc).value;
    if |rest| == 0 {
      assert doc + rest == doc;
      assert q.additional.value + m == q.additional.value;
    } else {
      var init, last := rest[..|rest|-1], rest[|rest|-1];
      var fewer := m - {last.key};
      FoldAdditional(parse, p, doc, init, fewer);
      FoldAppend(parse, p, doc + init, last);
      assert doc + rest == doc + init + [last];
      assert m == fewer[last.key := last.value];
      assert AllWellFormed(m) <==> AllWellFormed(fewer) && WellFormed(last.value);
      assert (q.additional.value + fewer)[last.key := last.value] == q.additional.value + m;
    }
  }

  predicate Sound<U>(p: Problem<U>) {
    p.additional.Some? && forall k | k in p.additional.value :: KeyOf(k) == Additional && WellFormed(p.additional.value[k])
  }

  lemma {:induction false} FoldedSound<U>(parse: Parser<U>, p: Problem<U>, doc: seq<Field>)
    requires Sound(p) && Folded(parse, p, doc).Some?
    ensures Sound(Folded(parse, p, doc).value)
  {
    if |doc| > 0 {
      FoldedSound(parse, p, doc[..|doc|-1]);
    }
  }

  /** A problem reads back as its normal form exactly when its URI does and its additional members are well-formed
      and do not use the names of the fixed fields. */
  lemma RoundTripExactly<U>(parse: Parser<U>, show: U -> string, p: Problem<U>, doc: seq<Field>)
    requires Encodes(show, p, doc)
    ensures Decoded(parse, Zero(), doc) == Some(Normal(p)) <==> Clean(parse, show, p)
  {
    var m := OrEmpty(p.additional);
    var rest :| Lists(rest, m) && doc == FixedFields(show, p) + rest;
    var z: Problem<U> := Zero().(additional := Some(map[]));
    FoldFixed(parse, show, p);
    if forall k | k in m :: KeyOf(k) == Additional {
      if Folded(parse, z, FixedFields(show, p)).Some? {
        FoldAdditional(parse, z, FixedFields(show, p), rest, m);
        assert map[] + m == m;
      } else {
        FoldFails(parse, z, FixedFields(show, p), rest);
      }
    } else if Folded(parse, z, doc).Some? {
      FoldedSound(parse, z, doc);
    }
  }

  /** A problem with an additional member "title" reads back with that title instead. */
  lemma TitleTaken<U>(parse: Parser<U>, show: U -> string)
    ensures var p: Problem<U> := Zero().(additional := Some(map["title" := String("a")]));
            var doc := [Field("title", String("a"))];
            && Encodes(show, p, doc)
            && Decoded(parse, Zero(), doc) == Some(Zero().(title := Some("a"), additional := Some(map[])))
            && Decoded(parse, Zero(), doc) != Some(Normal(p))
  {
    var p: Problem<U> := Zero().(additional := Some(map["title" := String("a")]));
    var doc := [Field("title", String("a"))];
    var m := OrEmpty(p.additional);
    assert Lists([], map[]) && m - {"title"} == map[] && doc[..0] == [];
    assert Lists(doc, m);
    assert FixedFields(show, p) == [] && [] + doc == doc;
    KeyOfText(Title);
    FoldAppend(parse, Zero().(additional := Some(map[])), [], doc[0]);
  }

  lemma {:induction false} FoldFails<U>(parse: Parser<U>, p: Problem<U>, doc: seq<Field>, rest: seq<Field>)
    requires Folded(parse, p, doc).None?
    ensures Folded(parse, p, doc + rest).None?
  {
    if |rest| == 0 {
      assert doc + rest == doc;
    } else {
      FoldFails(parse, p, doc, rest[..|rest|-1]);
      assert doc + rest == doc + rest[..|rest|-1] + [rest[|rest|-1]];
      FoldAppend(parse, p, doc + rest[..|rest|-1], rest[|rest|-1]);
    }
  }

  /** What was read from any document reads back the same after writing it again, if the URI does. */
  lemma DecodeEncodeDecode<U>(parse: Parser<U>, show: U -> string, doc: seq<Field>, doc': seq<Field>)
    requires Decoded(parse, Zero(), doc).Some?
    requires var p := Decoded(parse, Zero(), doc).value;
             Encodes(show, p, doc') && (p.typ.Some? ==> parse(show(p.typ.value)) == p.typ)
    ensures Decoded(parse, Zero(), doc') == Decoded(parse, Zero(), doc)
  {
    var p := Decoded(parse, Zero(), doc).value;
    FoldedSound(parse, Zero().(additional := Some(map[])), doc);
    RoundTripExactly(parse, show, p, doc');
    assert Normal(p) == p;
  }

  // ---------------------------------------------------------------------------
  // Names
  // ---------------------------------------------------------------------------

  function StringOf(v: Option<Value>): Option<string> {
    match v case Some(String(s)) => Some(s) case _ => None
  }

  ghost predicate Named<U>(parse: Parser<U>, p: Problem<U>, doc: seq<Field>) {
    && p.typ == (match LastValue(doc, "type") case Some(String(s)) => parse(s) case _ => None)
    && p.title == StringOf(LastValue(doc, "title"))
    && p.detail == StringOf(LastValue(doc, "detail"))
    && p.instance == StringOf(LastValue(doc, "instance"))
    && (match LastValue(doc, "status")
        case Some(Number(n)) => p.status.Some? && p.status.value == n
        case _ => p.status.None?)
  }

  ghost predicate NamedAdditional<U>(p: Problem<U>, doc: seq<Field>) {
    p.additional.Some? &&
    forall k :: if k in ["type", "title", "status", "detail", "instance"] then k !in p.additional.value
                else match LastValue(doc, k)
                  case Some(v) => k in p.additional.value && p.additional.value[k] == v
                  case None => k !in p.additional.value
  }

  lemma IsLiteral(key: string)
    ensures key == "type" <==> KeyOf(key) == Type
    ensures key == "title" <==> KeyOf(key) == Title
    ensures key == "status" <==> KeyOf(key) == Status
    ensures key == "detail" <==> KeyOf(key) == Detail
    ensures key == "instance" <==> KeyOf(key) == Instance
    ensures key in ["type", "title", "status", "detail", "instance"] <==> KeyOf(key) != Additional
  {
    KeyOfText(Type);
    KeyOfText(Title);
    KeyOfText(Status);
    KeyOfText(Detail);
    KeyOfText(Instance);
  }

  lemma {:induction false} FixedByName<U>(parse: Parser<U>, doc: seq<Field>)
    requires Folded(parse, Zero().(additional := Some(map[])), doc).Some?
    ensures Named(parse, Folded(parse, Zero().(additional := Some(map[])), doc).value, doc)
  {
    if |doc| > 0 {
      FixedByName(parse, doc[..|doc|-1]);
      IsLiteral(doc[|doc|-1].key);
    }
  }

  lemma {:induction false} AdditionalByName<U>(parse: Parser<U>, doc: seq<Field>)
    requires Folded(parse, Zero().(additional := Some(map[])), doc).Some?
    ensures NamedAdditional(Folded(parse, Zero().(additional := Some(map[])), doc).value, doc)
  {
    if |doc| > 0 {
      AdditionalByName(parse, doc[..|doc|-1]);
      IsLiteral(doc[|doc|-1].key);
    }
  }

  /** Each fixed field of a problem that was read is the last value under its name, and each additional member the last
      value under a name that is not one of the five. */
  lemma DecodedByName<U>(parse: Parser<U>, doc: seq<Field>)
    requires Decoded(parse, Zero(), doc).Some?
    ensures Named(parse, Decoded(parse, Zero(), doc).value, doc)
    ensures NamedAdditional(Decoded(parse, Zero(), doc).value, doc)
  {
    FixedByName(parse, doc);
    AdditionalByName(parse, doc);
  }

  // ---------------------------------------------------------------------------
  // The problem object
  // ---------------------------------------------------------------------------

  class ProblemObject<U> {
    var problem: Problem<U>
    const parse: Parser<U>
    const show: U -> string

    constructor (parse: Parser<U>, show: U -> string)
      ensures problem == Zero() && this.parse == parse && this.show == show
    {
      problem, this.parse, this.show := Zero(), parse, show;
    }

    method Encode() returns (doc: seq<Field>)
      ensures Encodes(show, problem, doc)
    {
      doc := Put([], Text(Type), OptUri(show, problem.typ));
      doc := Put(doc, Text(Title), OptString(problem.title));
      doc := Put(doc, Text(Status), OptInt(problem.status));
      doc := Put(doc, Text(Detail), OptString(problem.detail));
      doc := Put(doc, Text(Instance), OptString(problem.instance));
      var rest := EncodeRaws(OrEmpty(problem.additional));
      doc := doc + rest;
    }

    method Decode(doc: seq<Field>) returns (ok: bool)
      modifies this
      ensures ok <==> Decoded(parse, old(problem), doc).Some?
      ensures ok ==> problem == Decoded(parse, old(problem), doc).value
    {
      problem := problem.(additional := Some(map[]));
      ghost var start := problem;
      for i := 0 to |doc|
        invariant Folded(parse, start, doc[..i]) == Some(problem)
      {
        assert doc[..i+1] == doc[..i] + [doc[i]];
        FoldAppend(parse, start, doc[..i], doc[i]);
        var read := SetKey(parse, problem, doc[i].key, doc[i].value);
        if read.None? {
          FoldFails(parse, start, doc[..i+1], doc[i+1..]);
          assert doc[..i+1] + doc[i+1..] == doc;
          return false;
        }
        problem := read.value;
      }
      assert doc[..|doc|] == doc;
      return true;
    }
  }
}
