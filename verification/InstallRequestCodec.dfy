/** The request to install a service, written to and read from JSON. */
module InstallRequestCodec {
  import opened Common
  import opened JsonFields
  import opened RequiredFields

  /** `options` is None for a nil map. */
  datatype Install = Install(catalogId: string, packageName: string, packageVersion: Option<string>, version: Option<string>,
                             options: Option<Raws>, share: Option<bool>, friendlyName: Option<string>, name: string)

  const ZERO := Install("", "", None, None, None, None, None, "")

  datatype Key = CatalogId | PackageName | PackageVersion | Version | Options | Share | FriendlyName | Name | Unknown

  function Text(k: Key): string
    requires k != Unknown
  {
    match k
    case CatalogId => "catalogId"
    case PackageName => "packageName"
    case PackageVersion => "packageVersion"
    case Version => "version"
    case Options => "options"
    case Share => "share"
    case FriendlyName => "friendlyName"
    case Name => "name"
  }

  function KeyOf(s: string): Key {
    if s == "catalogId" then CatalogId
    else if s == "packageName" then PackageName
    else if s == "packageVersion" then PackageVersion
    else if s == "version" then Version
    else if s == "options" then Options
    else if s == "share" then Share
    else if s == "friendlyName" then FriendlyName
    else if s == "name" then Name
    else Unknown
  }

  lemma KeyOfText(k: Key)
    requires k != Unknown
    ensures KeyOf(Text(k)) == k
  {
    assert "catalogId"[0] == 'c' && "packageName"[0] == 'p' && "packageVersion"[0] == 'p' && "version"[0] == 'v';
    assert "options"[0] == 'o' && "share"[0] == 's' && "friendlyName"[0] == 'f' && "name"[0] == 'n';
    assert "packageName"[7] == 'N' && "packageVersion"[7] == 'V';
  }

  lemma TextOfKey(s: string)
    ensures KeyOf(s) != Unknown ==> Text(KeyOf(s)) == s
  {
  }

  // ---------------------------------------------------------------------------
  // Reading
  // ---------------------------------------------------------------------------

  datatype DecodeError = Malformed | Required(names: seq<string>)

  function OrEmpty(m: Option<Raws>): Raws {
    if m.Some? then m.value else map[]
  }

  /** Reading one field: None when its value is not of the field's type. Options are added to those already there. */
  function SetKey(x: Install, k: Key, v: Value): Option<Install> {
    match k
    case CatalogId => if v.String? then Some(x.(catalogId := v.s)) else None
    case PackageName => if v.String? then Some(x.(packageName := v.s)) else None
    case PackageVersion => if v.String? then Some(x.(packageVersion := Some(v.s))) else None
    case Version => if v.String? then Some(x.(version := Some(v.s))) else None
    case Options =>
      if v.Object? && Gathered(OrEmpty(x.options), v.fields).Some?
      then Some(x.(options := Gathered(OrEmpty(x.options), v.fields))) else None
    case Share => if v.Bool? then Some(x.(share := Some(v.b))) else None
    case FriendlyName => if v.String? then Some(x.(friendlyName := Some(v.s))) else None
    case Name => if v.String? then Some(x.(name := v.s)) else None
    case Unknown => if WellFormed(v) then Some(x) else None
  }

  /** Reading the fields in order. */
  function Folded(x: Install, doc: seq<Field>): Option<Install> {
    if |doc| == 0 then Some(x)
    else
      var init, last := Folded(x, doc[..|doc|-1]), doc[|doc|-1];
      if init.Some? then SetKey(init.value, KeyOf(last.key), last.value) else None
  }

  const REQUIRED := [Text(CatalogId), Text(PackageName), Text(Options), Text(Name)]

  /** The required names the document does not have, in order. */
  function Missing(doc: seq<Field>): seq<string> {
    Absent(REQUIRED, Keys(doc))
  }

  /** What decoding a document into `x` results in. */
  function Decoded(x: Install, doc: seq<Field>): Result<Install, DecodeError> {
    var read := Folded(x.(share := Some(false)), doc);
    if read.None? then Failure(Malformed)
    else if Missing(doc) != [] then Failure(Required(Missing(doc)))
    else Success(read.value)
  }

  // ---------------------------------------------------------------------------
  // Writing
  // ---------------------------------------------------------------------------

  function FirstHalf(x: Install): seq<Field> {
    var d := Put(Put([], Text(CatalogId), Some(String(x.catalogId))), Text(PackageName), Some(String(x.packageName)));
    Put(Put(d, Text(PackageVersion), OptString(x.packageVersion)), Text(Version), OptString(x.version))
  }

  /** The document written when the options iterate in the order of `options`. */
  function Document(x: Install, options: seq<Field>): seq<Field> {
    var d := Put(Put(FirstHalf(x), Text(Options), Some(Object(options))), Text(Share), OptBool(x.share));
    Put(Put(d, Text(FriendlyName), OptString(x.friendlyName)), Text(Name), Some(String(x.name)))
  }

  ghost predicate Encodes(x: Install, doc: seq<Field>) {
    exists options :: Lists(options, OrEmpty(x.options)) && doc == Document(x, options)
  }

  // ---------------------------------------------------------------------------
  // Round trips
  // ---------------------------------------------------------------------------

  /** What is left of a request after writing and reading it. */
  function Normal(x: Install): Install {
    x.(options := Some(OrEmpty(x.options)), share := if x.share.Some? then x.share else Some(false))
  }

  function Then(x: Option<Install>, k: Key, v: Option<Value>): Option<Install> {
    if v.None? || x.None? then x else SetKey(x.value, k, v.value)
  }

  lemma FoldPut(x: Install, doc: seq<Field>, k: Key, v: Option<Value>)
    requires k != Unknown
    ensures Folded(x, Put(doc, Text(k), v)) == Then(Folded(x, doc), k, v)
  {
    KeyOfText(k);
    if v.Some? {
      var put := doc + [Field(Text(k), v.value)];
      assert put[..|doc|] == doc;
    }
  }

  lemma {:induction false} FoldPut2(x: Install, doc: seq<Field>, k: Key, v: Option<Value>, k': Key, v': Option<Value>)
    requires k != Unknown && k' != Unknown
    ensures Folded(x, Put(Put(doc, Text(k), v), Text(k'), v')) == Then(Then(Folded(x, doc), k, v), k', v')
  {
    FoldPut(x, doc, k, v);
    FoldPut(x, Put(doc, Text(k), v), k', v');
  }

  const START := ZERO.(share := Some(false))

  lemma ReadFirstHalf(x: Install, y: Install)
    requires y.packageVersion.None? && y.version.None?
    ensures Then(Then(Then(Then(Some(y), CatalogId, Some(String(x.catalogId))), PackageName, Some(String(x.packageName))),
                      PackageVersion, OptString(x.packageVersion)), Version, OptString(x.version))
            == Some(y.(catalogId := x.catalogId, packageName := x.packageName,
                       packageVersion := x.packageVersion, version := x.version))
  {
  }

  lemma FoldFirstHalf(x: Install)
    ensures Folded(START, FirstHalf(x)) == Some(START.(catalogId := x.catalogId, packageName := x.packageName,
                                                       packageVersion := x.packageVersion, version := x.version))
  {
    var d := Put(Put([], Text(CatalogId), Some(String(x.catalogId))), Text(PackageName), Some(String(x.packageName)));
    FoldPut2(START, [], CatalogId, Some(String(x.catalogId)), PackageName, Some(String(x.packageName)));
    FoldPut2(START, d, PackageVersion, OptString(x.packageVersion), Version, OptString(x.version));
    ReadFirstHalf(x, START);
  }

  lemma ReadSecondHalf(x: Install, y: Install, options: seq<Field>)
    requires Lists(options, OrEmpty(x.options)) && y.options.None? && y.share == Some(false) && y.friendlyName.None?
    ensures Then(Then(Then(Then(Some(y), Options, Some(Object(options))), Share, OptBool(x.share)),
                      FriendlyName, OptString(x.friendlyName)), Name, Some(String(x.name)))
            == if !AllWellFormed(OrEmpty(x.options)) then None
               else Some(y.(options := Some(OrEmpty(x.options)), share := Normal(x).share,
                            friendlyName := x.friendlyName, name := x.name))
  {
    GatherLists(map[], options, OrEmpty(x.options));
    assert map[] + OrEmpty(x.options) == OrEmpty(x.options);
  }

  lemma {:induction false} FoldDocument(x: Install, options: seq<Field>)
    requires Lists(options, OrEmpty(x.options))
    ensures Folded(START, Document(x, options)) == if AllWellFormed(OrEmpty(x.options)) then Some(Normal(x)) else None
  {
    var y := START.(catalogId := x.catalogId, packageName := x.packageName,
                    packageVersion := x.packageVersion, version := x.version);
    FoldFirstHalf(x);
    var d := Put(Put(FirstHalf(x), Text(Options), Some(Object(options))), Text(Share), OptBool(x.share));
    FoldPut2(START, FirstHalf(x), Options, Some(Object(options)), Share, OptBool(x.share));
    FoldPut2(START, d, FriendlyName, OptString(x.friendlyName), Name, Some(String(x.name)));
    ReadSecondHalf(x, y, options);
  }

  lemma PutKeys(doc: seq<Field>, key: string, v: Option<Value>)
    ensures forall k | k in Keys(doc) :: k in Keys(Put(doc, key, v))
    ensures v.Some? ==> key in Keys(Put(doc, key, v))
  {
    var put := Put(doc, key, v);
    if v.Some? {
      assert Keys(put) == Keys(doc) + [key];
    }
  }

  lemma NoneAbsent(x: Install, options: seq<Field>)
    ensures Missing(Document(x, options)) == []
  {
    var d := Put([], Text(CatalogId), Some(String(x.catalogId)));
    PutKeys([], Text(CatalogId), Some(String(x.catalogId)));
    PutKeys(d, Text(PackageName), Some(String(x.packageName)));
    d := Put(d, Text(PackageName), Some(String(x.packageName)));
    PutKeys(d, Text(PackageVersion), OptString(x.packageVersion));
    PutKeys(Put(d, Text(PackageVersion), OptString(x.packageVersion)), Text(Version), OptString(x.version));
    PutKeys(FirstHalf(x), Text(Options), Some(Object(options)));
    d := Put(FirstHalf(x), Text(Options), Some(Object(options)));
    PutKeys(d, Text(Share), OptBool(x.share));
    d := Put(d, Text(Share), OptBool(x.share));
    PutKeys(d, Text(FriendlyName), OptString(x.friendlyName));
    PutKeys(Put(d, Text(FriendlyName), OptString(x.friendlyName)), Text(Name), Some(String(x.name)));
    NothingAbsent(Keys(Document(x, options)));
  }

  lemma NothingAbsent(keys: seq<string>)
    ensures Absent(REQUIRED, keys) == [] <==>
            Text(CatalogId) in keys && Text(PackageName) in keys && Text(Options) in keys && Text(Name) in keys
  {
    AbsentExactly(REQUIRED, keys);
    assert Text(CatalogId) in REQUIRED && Text(PackageName) in REQUIRED && Text(Options) in REQUIRED && Text(Name) in REQUIRED;
    if Absent(REQUIRED, keys) != [] {
      assert Absent(REQUIRED, keys)[0] in REQUIRED;
    }
  }

  /** Under every order of the options, a request reads back as its normal form, unless an option is not
      well-formed JSON; then the document does not decode. */
  lemma {:induction false} RoundTripExactly(x: Install, doc: seq<Field>)
    requires Encodes(x, doc)
    ensures Decoded(ZERO, doc) == if AllWellFormed(OrEmpty(x.options)) then Success(Normal(x)) else Failure(Malformed)
    ensures forall k | k in OrEmpty(x.options) && OrEmpty(x.options)[k] == Empty :: Decoded(ZERO, doc) == Failure(Malformed)
  {
    var options :| Lists(options, OrEmpty(x.options)) && doc == Document(x, options);
    FoldDocument(x, options);
    NoneAbsent(x, options);
  }

  predicate Sound(x: Install) {
    x.share.Some? && AllWellFormed(OrEmpty(x.options))
  }

  lemma {:induction false} FoldedSound(x: Install, doc: seq<Field>)
    requires Sound(x) && Folded(x, doc).Some?
    ensures Sound(Folded(x, doc).value)
    ensures x.options.Some? || Text(Options) in Keys(doc) ==> Folded(x, doc).value.options.Some?
  {
    if |doc| > 0 {
      var init, last := doc[..|doc|-1], doc[|doc|-1];
      FoldedSound(x, init);
      assert Keys(doc) == Keys(init) + [last.key];
      KeyOfText(Options);
      if KeyOf(last.key) == Options {
        GatheredWellFormed(OrEmpty(Folded(x, init).value.options), last.value.fields);
      }
    }
  }

  /** What was read from any document reads back the same after writing it again. */
  lemma {:induction false} DecodeEncodeDecode(doc: seq<Field>, doc': seq<Field>)
    requires Decoded(ZERO, doc).Success? && Encodes(Decoded(ZERO, doc).value, doc')
    ensures Decoded(ZERO, doc') == Decoded(ZERO, doc)
  {
    var x := Decoded(ZERO, doc).value;
    RoundTripExactly(x, doc');
    FoldedSound(START, doc);
    NothingAbsent(Keys(doc));
    assert Normal(x) == x;
  }

  // ---------------------------------------------------------------------------
  // Names
  // ---------------------------------------------------------------------------

  function StringOr(v: Option<Value>, default_: string): string {
    match v case Some(String(s)) => s case _ => default_
  }

  function StringOf(v: Option<Value>): Option<string> {
    match v case Some(String(s)) => Some(s) case _ => None
  }

  /** The last value under `key` in any of the objects under "options". */
  function LastOption(doc: seq<Field>, key: string): Option<Value> {
    if |doc| == 0 then None
    else
      var init, last := doc[..|doc|-1], doc[|doc|-1];
      if last.key == "options" && last.value.Object? && LastValue(last.value.fields, key).Some?
      then LastValue(last.value.fields, key)
      else LastOption(init, key)
  }

  ghost predicate NamedStrings(x: Install, doc: seq<Field>) {
    && x.catalogId == StringOr(LastValue(doc, "catalogId"), "")
    && x.packageName == StringOr(LastValue(doc, "packageName"), "")
    && x.name == StringOr(LastValue(doc, "name"), "")
    && x.packageVersion == StringOf(LastValue(doc, "packageVersion"))
    && x.version == StringOf(LastValue(doc, "version"))
    && x.friendlyName == StringOf(LastValue(doc, "friendlyName"))
  }

  ghost predicate NamedRest(x: Install, doc: seq<Field>) {
    && x.share == Some(match LastValue(doc, "share") case Some(Bool(b)) => b case _ => false)
    && (x.options.Some? <==> LastValue(doc, "options").Some?)
    && forall k :: match LastOption(doc, k)
                   case Some(v) => k in OrEmpty(x.options) && OrEmpty(x.options)[k] == v
                   case None => k !in OrEmpty(x.options)
  }

  lemma IsLiteral(key: string)
    ensures key == "catalogId" <==> KeyOf(key) == CatalogId
    ensures key == "packageName" <==> KeyOf(key) == PackageName
    ensures key == "packageVersion" <==> KeyOf(key) == PackageVersion
    ensures key == "version" <==> KeyOf(key) == Version
    ensures key == "options" <==> KeyOf(key) == Options
    ensures key == "share" <==> KeyOf(key) == Share
    ensures key == "friendlyName" <==> KeyOf(key) == FriendlyName
    ensures key == "name" <==> KeyOf(key) == Name
  {
    IsText(key, CatalogId);
    IsText(key, PackageName);
    IsText(key, PackageVersion);
    IsText(key, Version);
    IsText(key, Options);
    IsText(key, Share);
    IsText(key, FriendlyName);
    IsText(key, Name);
  }

  lemma {:induction false} StringsByName(doc: seq<Field>)
    requires Folded(START, doc).Some?
    ensures NamedStrings(Folded(START, doc).value, doc)
  {
    if |doc| > 0 {
      StringsByName(doc[..|doc|-1]);
      IsLiteral(doc[|doc|-1].key);
    }
  }

  lemma {:induction false} RestByName(doc: seq<Field>)
    requires Folded(START, doc).Some?
    ensures NamedRest(Folded(START, doc).value, doc)
  {
    if |doc| > 0 {
      var init, last := doc[..|doc|-1], doc[|doc|-1];
      RestByName(init);
      IsLiteral(last.key);
      if KeyOf(last.key) == Options {
        forall k {
          GatheredAt(OrEmpty(Folded(START, init).value.options), last.value.fields, k);
        }
      }
    }
  }

  /** Each field of a request that was read is the last value under its name; the options are the last values in any
      of the objects under "options". So a document written for a request has each field under its name. */
  lemma DecodedByName(doc: seq<Field>)
    requires Decoded(ZERO, doc).Success?
    ensures NamedStrings(Decoded(ZERO, doc).value, doc) && NamedRest(Decoded(ZERO, doc).value, doc)
  {
    StringsByName(doc);
    RestByName(doc);
  }

  // ---------------------------------------------------------------------------
  // Required fields
  // ---------------------------------------------------------------------------

  const FIELDS := [Text(CatalogId), Text(PackageName), Text(PackageVersion), Text(Version),
                   Text(Options), Text(Share), Text(FriendlyName), Text(Name)]

  const MASK: bv8 := 0x93

  function RequiredBit(key: string): bv8 {
    match KeyOf(key)
    case CatalogId => 0x01
    case PackageName => 0x02
    case Options => 0x10
    case Name => 0x80
    case _ => 0
  }

  lemma IsText(key: string, k: Key)
    requires k != Unknown
    ensures key == Text(k) <==> KeyOf(key) == k
  {
    KeyOfText(k);
    TextOfKey(key);
  }

  lemma MaskBits()
    ensures Bit(MASK, 0) && Bit(MASK, 1) && Bit(MASK, 4) && Bit(MASK, 7)
    ensures !Bit(MASK, 2) && !Bit(MASK, 3) && !Bit(MASK, 5) && !Bit(MASK, 6)
  {
  }

  lemma BitsOfKey(k: Key, key: string, i: nat)
    requires i < 8 && k == KeyOf(key)
    ensures Bit(RequiredBit(key), i) <==> (k == CatalogId && i == 0) || (k == PackageName && i == 1)
                                          || (k == Options && i == 4) || (k == Name && i == 7)
  {
  }

  lemma FieldsTable()
    ensures Table(RequiredBit, FIELDS, MASK)
    ensures Names(MASK, FIELDS, 0) == REQUIRED
  {
    MaskBits();
    forall key, i: nat | i < 8
      ensures Bit(RequiredBit(key), i) <==> Bit(MASK, i) && key == FIELDS[i]
    {
      BitsOfKey(KeyOf(key), key, i);
      IsText(key, CatalogId);
      IsText(key, PackageName);
      IsText(key, Options);
      IsText(key, Name);
    }
    assert Names(MASK, FIELDS, 5) == [Text(Name)] by {
      assert Names(MASK, FIELDS, 7) == [Text(Name)];
    }
    assert Names(MASK, FIELDS, 2) == [Text(Options), Text(Name)];
  }

  /** When every value decodes, decoding fails exactly when a required name is not among the keys, and then
      reports exactly those, each once. */
  lemma RequiredExactly(x: Install, doc: seq<Field>)
    requires Folded(x.(share := Some(false)), doc).Some?
    ensures REQUIRED == ["catalogId", "packageName", "options", "name"]
    ensures Decoded(x, doc).Success? <==> forall name | name in REQUIRED :: name in Keys(doc)
    ensures Decoded(x, doc).Failure? ==>
              && Decoded(x, doc).error.Required? && Distinct(Decoded(x, doc).error.names)
              && forall name :: name in Decoded(x, doc).error.names <==> name in REQUIRED && name !in Keys(doc)
  {
    AbsentExactly(REQUIRED, Keys(doc));
    NothingAbsent(Keys(doc));
    IsText(Text(CatalogId), PackageName);
    IsText(Text(CatalogId), Options);
    IsText(Text(CatalogId), Name);
    IsText(Text(PackageName), Options);
    IsText(Text(PackageName), Name);
    IsText(Text(Options), Name);
    KeyOfText(CatalogId);
    KeyOfText(PackageName);
    KeyOfText(Options);
    AbsentOnce(REQUIRED, Keys(doc));
  }

  // ---------------------------------------------------------------------------
  // The request object
  // ---------------------------------------------------------------------------

  class ServiceInstallRequest {
    var catalogId: string
    var packageName: string
    var packageVersion: Option<string>
    var version: Option<string>
    var options: Option<Raws>
    var share: Option<bool>
    var friendlyName: Option<string>
    var name: string

    constructor ()
      ensures View() == ZERO
    {
      catalogId, packageName, name := "", "", "";
      packageVersion, version, options, share, friendlyName := None, None, None, None, None;
    }

    ghost function View(): Install
      reads this
    {
      Install(catalogId, packageName, packageVersion, version, options, share, friendlyName, name)
    }

    method Encode() returns (doc: seq<Field>)
      ensures Encodes(View(), doc)
    {
      var raws := EncodeRaws(OrEmpty(options));
      doc := Put([], Text(CatalogId), Some(String(catalogId)));
      doc := Put(doc, Text(PackageName), Some(String(packageName)));
      doc := Put(doc, Text(PackageVersion), OptString(packageVersion));
      doc := Put(doc, Text(Version), OptString(version));
      doc := Put(doc, Text(Options), Some(Object(raws)));
      doc := Put(doc, Text(Share), OptBool(share));
      doc := Put(doc, Text(FriendlyName), OptString(friendlyName));
      doc := Put(doc, Text(Name), Some(String(name)));
      assert doc == Document(View(), raws);
    }

    method DecodeField(key: Key, v: Value) returns (ok: bool)
      modifies this
      ensures ok <==> SetKey(old(View()), key, v).Some?
      ensures ok ==> View() == SetKey(old(View()), key, v).value
    {
      match key {
        case CatalogId =>
          if !v.String? { return false; }
          catalogId := v.s;
        case PackageName =>
          if !v.String? { return false; }
          packageName := v.s;
        case PackageVersion =>
          packageVersion := None;
          if !v.String? { return false; }
          packageVersion := Some(v.s);
        case Version =>
          version := None;
          if !v.String? { return false; }
          version := Some(v.s);
        case Options =>
          if !v.Object? { return false; }
          var raws := DecodeRaws(OrEmpty(options), v.fields);
          if raws.None? { return false; }
          options := raws;
        case Share =>
          share := None;
          if !v.Bool? { return false; }
          share := Some(v.b);
        case FriendlyName =>
          friendlyName := None;
          if !v.String? { return false; }
          friendlyName := Some(v.s);
        case Name =>
          if !v.String? { return false; }
          name := v.s;
        case Unknown =>
          return WellFormed(v);
      }
      return true;
    }

    method Decode(doc: seq<Field>) returns (r: Result<(), DecodeError>)
      modifies this
      ensures match Decoded(old(View()), doc)
              case Success(x) => r == Success(()) && View() == x
              case Failure(error) => r == Result.Failure(error)
    {
      var requiredBitSet: bv8 := 0;
      share := Some(false);
      ghost var start := View();
      var i := 0;
      while i < |doc|
        invariant i <= |doc|
        invariant start == old(View()).(share := Some(false))
        invariant Folded(start, doc[..i]) == Some(View())
        invariant requiredBitSet == Seen(RequiredBit, Keys(doc[..i]))
      {
        FoldOneMore(start, doc, i);
        requiredBitSet := requiredBitSet | RequiredBit(doc[i].key);
        var ok := DecodeField(KeyOf(doc[i].key), doc[i].value);
        if !ok {
          FoldFails(start, doc, i + 1);
          return Failure(Malformed);
        }
        i := i + 1;
      }
      assert doc[..i] == doc;
      FieldsTable();
      MissedNames(RequiredBit, FIELDS, MASK, Keys(doc));
      var failures := MissingFields(requiredBitSet, MASK, FIELDS);
      if |failures| > 0 { return Failure(Required(failures)); }
      return Success(());
    }
  }

  lemma FoldOneMore(x: Install, doc: seq<Field>, i: nat)
    requires i < |doc|
    ensures Folded(x, doc[..i+1]) == if Folded(x, doc[..i]).None? then None
                                     else SetKey(Folded(x, doc[..i]).value, KeyOf(doc[i].key), doc[i].value)
    ensures Seen(RequiredBit, Keys(doc[..i+1])) == Seen(RequiredBit, Keys(doc[..i])) | RequiredBit(doc[i].key)
  {
    assert doc[..i+1][..i] == doc[..i];
    assert Keys(doc[..i+1])[..i] == Keys(doc[..i]);
  }

  lemma {:induction false} FoldFails(x: Install, doc: seq<Field>, i: nat)
    requires i <= |doc| && Folded(x, doc[..i]).None?
    ensures Folded(x, doc).None?
  {
    if i == |doc| {
      assert doc[..i] == doc;
    } else {
      assert doc[..|doc|-1][..i] == doc[..i];
      FoldFails(x, doc[..|doc|-1], i);
    }
  }
}
