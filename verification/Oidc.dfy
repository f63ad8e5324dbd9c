/**
 Request authentication: the DPoP proof check and the OIDC verifier that drives it.

 Signature checking, JWT parsing, hashing, URL parsing and Unicode case folding are total
 functions supplied from outside; everything the code decides from their results is here.
 */
module Oidc {
  import opened Common
  import opened JtiCache

  // ---------------------------------------------------------------------------
  // What the libraries deliver
  // ---------------------------------------------------------------------------

  datatype Claims = Claims(htm: string, htu: string, iat: int, jti: string, ath: string)

  /** A parsed proof. `claims` is None when the signature does not verify under the proof's own key
      or the payload does not decode; `thumbprint` is None when hashing the key fails. */
  datatype Proof = Proof(hasKey: bool, typ: string, publicKey: bool, claims: Option<Claims>, thumbprint: Option<string>)

  datatype Url = Url(scheme: string, host: string, path: string, rawQuery: string)

  /** A decoded JSON value of a token claim. */
  datatype Value = Str(s: string) | Strings(ss: seq<string>) | List(items: seq<Value>)
                 | Object(fields: map<string, Value>) | OtherValue

  /** `fold` maps a string to the representative of its case-folding class, so that two strings
      are equal under folding exactly when their representatives are equal. */
  datatype Library = Library(
    parseProof: string -> Option<Proof>,
    parseUrl: string -> Option<Url>,
    fold: string -> string,
    tokenHash: string -> string,
    verifyToken: string -> Option<map<string, Value>>)

  predicate EqualFold(lib: Library, a: string, b: string) {
    lib.fold(a) == lib.fold(b)
  }

  // ---------------------------------------------------------------------------
  // The Authorization header
  // ---------------------------------------------------------------------------

  predicate HasScheme(lib: Library, line: string, scheme: string) {
    var cut := Cut(line, ' ');
    cut.Some? && EqualFold(lib, cut.value.0, scheme)
  }

  /** `lines[i]` is the first line that uses the scheme, and carries `credentials`. */
  ghost predicate FirstWith(lib: Library, lines: seq<string>, scheme: string, i: nat, credentials: string) {
    && i < |lines| && HasScheme(lib, lines[i], scheme) && credentials == Cut(lines[i], ' ').value.1
    && forall j | 0 <= j < i :: !HasScheme(lib, lines[j], scheme)
  }

  function FindAuthorization(lib: Library, lines: seq<string>, scheme: string): (r: Option<string>)
    ensures r.None? <==> forall i | 0 <= i < |lines| :: !HasScheme(lib, lines[i], scheme)
    ensures r.Some? ==> exists i: nat :: FirstWith(lib, lines, scheme, i, r.value)
  {
    if lines == [] then None
    else if HasScheme(lib, lines[0], scheme) then
      assert FirstWith(lib, lines, scheme, 0, Cut(lines[0], ' ').value.1);
      Some(Cut(lines[0], ' ').value.1)
    else
      var rest := FindAuthorization(lib, lines[1..], scheme);
      assert rest.Some? ==> exists i: nat :: FirstWith(lib, lines, scheme, i, rest.value) by {
        if rest.Some? {
          var i: nat :| FirstWith(lib, lines[1..], scheme, i, rest.value);
          assert FirstWith(lib, lines, scheme, i + 1, rest.value);
        }
      }
      rest
  }

  /** A header line uses a scheme exactly when it is a name that folds to it, a space, and the credentials. */
  lemma SchemeExactly(lib: Library, line: string, scheme: string)
    ensures HasScheme(lib, line, scheme) <==>
            exists name, credentials :: ' ' !in name && line == name + " " + credentials && lib.fold(name) == lib.fold(scheme)
    ensures forall name, credentials | ' ' !in name && line == name + " " + credentials ::
              Cut(line, ' ') == Some((name, credentials))
  {
    forall name, credentials | ' ' !in name && line == name + " " + credentials
      ensures Cut(line, ' ') == Some((name, credentials))
    {
      IndexOfAbsent(name, ' ');
      CutAtSeparator(name, credentials, ' ');
    }
    var cut := Cut(line, ' ');
    if cut.Some? {
      CutHead(line, ' ');
      IndexOfAbsent(cut.value.0, ' ');
      assert line == cut.value.0 + " " + cut.value.1;
    }
  }

  // ---------------------------------------------------------------------------
  // The proof
  // ---------------------------------------------------------------------------

  datatype Error =
    | MissingAuthorization | InvalidToken | MissingAudience | InvalidAudience | MissingClaim | MalformedClaim
    | TokenRequiresDPoP | MissingProof | MissingJktClaim | JktMismatch
    | UnparsableProof | MissingKey | WrongType | PrivateKey | BadSignature | MethodMismatch | UrlMismatch
    | IatMissing | IatInFuture | TooOld | JtiMissing | JtiReplayed | AthMissing | AthMismatch | NoThumbprint

  /** The scheme and host fold; path and query must be identical. */
  predicate MatchHtu(lib: Library, htu: string, expected: string) {
    var h, e := lib.parseUrl(htu), lib.parseUrl(expected);
    && h.Some? && h.value.scheme != ""
    && e.Some? && e.value.scheme != ""
    && EqualFold(lib, h.value.scheme, e.value.scheme)
    && EqualFold(lib, h.value.host, e.value.host)
    && h.value.path == e.value.path
    && h.value.rawQuery == e.value.rawQuery
  }

  /** `iat` counts whole seconds, `now` nanoseconds. Both ends of the window are inside it. */
  predicate InWindow(iat: int, now: int) {
    iat * SECOND - MAX_CLOCK_SKEW <= now <= iat * SECOND + MAX_PROOF_AGE
  }

  /** Everything that is checked before the identifier is looked up. */
  predicate Admissible(lib: Library, proof: string, httpMethod: string, url: string, now: int) {
    var p := lib.parseProof(proof);
    && p.Some? && p.value.hasKey && p.value.publicKey && p.value.claims.Some?
    && EqualFold(lib, p.value.typ, "dpop+jwt")
    && var c := p.value.claims.value;
       && EqualFold(lib, c.htm, httpMethod)
       && MatchHtu(lib, c.htu, url)
       && c.iat != 0 && InWindow(c.iat, now)
       && c.jti != ""
  }

  /** One proof fits one request: whatever else it is admissible for at the same time has the same method, scheme and
      host but for case, and the very same path and query. */
  lemma OneProofOneRequest(lib: Library, proof: string, httpMethod: string, url: string,
                           otherMethod: string, otherUrl: string, now: int)
    requires Admissible(lib, proof, httpMethod, url, now)
    ensures lib.parseUrl(url).Some?
    ensures Admissible(lib, proof, otherMethod, otherUrl, now) <==>
              && lib.fold(otherMethod) == lib.fold(httpMethod)
              && lib.parseUrl(otherUrl).Some? && lib.parseUrl(otherUrl).value.scheme != ""
              && lib.fold(lib.parseUrl(otherUrl).value.scheme) == lib.fold(lib.parseUrl(url).value.scheme)
              && lib.fold(lib.parseUrl(otherUrl).value.host) == lib.fold(lib.parseUrl(url).value.host)
              && lib.parseUrl(otherUrl).value.path == lib.parseUrl(url).value.path
              && lib.parseUrl(otherUrl).value.rawQuery == lib.parseUrl(url).value.rawQuery
  {
  }

  /** The claims say of the request what it is: its method, its URL part by part, and, from 60 seconds before to
      5 minutes after `iat`, its time. */
  ghost predicate Describes(lib: Library, c: Claims, httpMethod: string, url: string, now: int) {
    && lib.fold(c.htm) == lib.fold(httpMethod)
    && c.iat != 0 && c.iat * 1_000_000_000 - 60_000_000_000 <= now <= c.iat * 1_000_000_000 + 300_000_000_000
    && c.jti != ""
    && match (lib.parseUrl(c.htu), lib.parseUrl(url))
       case (Some(h), Some(e)) =>
         && h.scheme != "" && e.scheme != "" && lib.fold(h.scheme) == lib.fold(e.scheme)
         && lib.fold(h.host) == lib.fold(e.host) && h.path == e.path && h.rawQuery == e.rawQuery
       case _ => false
  }

  /** The checks before the identifier are these and those of the proof itself. */
  lemma AdmissibleExactly(lib: Library, proof: string, httpMethod: string, url: string, now: int)
    ensures Admissible(lib, proof, httpMethod, url, now) <==>
            match lib.parseProof(proof)
            case Some(Proof(true, typ, true, Some(c), _)) =>
              lib.fold(typ) == lib.fold("dpop+jwt") && Describes(lib, c, httpMethod, url, now)
            case _ => false
  {
  }

  function ClaimsOf(lib: Library, proof: string): Claims
    requires lib.parseProof(proof).Some? && lib.parseProof(proof).value.claims.Some?
  {
    lib.parseProof(proof).value.claims.value
  }

  /** What is checked after it: the proof names this access token, and its key hashes to `jkt`. */
  predicate BoundTo(lib: Library, proof: string, accessToken: string, jkt: string)
    requires lib.parseProof(proof).Some? && lib.parseProof(proof).value.claims.Some?
  {
    && ClaimsOf(lib, proof).ath != ""
    && ClaimsOf(lib, proof).ath == lib.tokenHash(accessToken)
    && lib.parseProof(proof).value.thumbprint == Some(jkt)
  }

  /** The ordered checks. The identifier is looked up, and so consumed, before `ath` is checked.
      `cache` is null when replay detection is off. */
  method VerifyProof(lib: Library, proof: string, httpMethod: string, url: string, accessToken: string,
                     now: int, cache: JTICache?, evictAt: int, insertAt: int)
    returns (r: Result<string, Error>)
    requires cache != null ==> cache.Valid() && cache.lastEviction <= evictAt <= insertAt
    modifies if cache == null then {} else {cache}
    ensures cache != null ==> cache.Valid()
    ensures !Admissible(lib, proof, httpMethod, url, now) ==> r.Failure? && (cache != null ==> unchanged(cache))
    ensures Admissible(lib, proof, httpMethod, url, now) && cache != null ==>
              var call := Call(ClaimsOf(lib, proof).jti, evictAt, insertAt);
              && cache.lastEviction == evictAt
              && cache.log == Record(old(cache.log), call, JTI_TTL)
              && cache.entries == Look(old(cache.entries), call, JTI_TTL).1
    ensures forall jkt :: r == Success(jkt) <==>
              && Admissible(lib, proof, httpMethod, url, now)
              && (cache != null ==> !Remembers(old(cache.log), ClaimsOf(lib, proof).jti, evictAt))
              && BoundTo(lib, proof, accessToken, jkt)
    ensures r.Success? ==>
              var p := lib.parseProof(proof).value;
              && Describes(lib, p.claims.value, httpMethod, url, now)
              && p.claims.value.ath == lib.tokenHash(accessToken) && p.thumbprint == Some(r.value)
    ensures r == Failure(JtiReplayed) <==>
              && Admissible(lib, proof, httpMethod, url, now)
              && cache != null && Remembers(old(cache.log), ClaimsOf(lib, proof).jti, evictAt)
  {
    var parsed := lib.parseProof(proof);
    if parsed.None? { return Failure(UnparsableProof); }
    var p := parsed.value;
    if !p.hasKey { return Failure(MissingKey); }
    if !EqualFold(lib, p.typ, "dpop+jwt") { return Failure(WrongType); }
    if !p.publicKey { return Failure(PrivateKey); }
    if p.claims.None? { return Failure(BadSignature); }
    var c := p.claims.value;
    if !EqualFold(lib, c.htm, httpMethod) { return Failure(MethodMismatch); }
    if !MatchHtu(lib, c.htu, url) { return Failure(UrlMismatch); }
    if c.iat == 0 { return Failure(IatMissing); }
    var issuedAt := c.iat * SECOND;
    if issuedAt > now + MAX_CLOCK_SKEW { return Failure(IatInFuture); }
    if now - issuedAt > MAX_PROOF_AGE { return Failure(TooOld); }
    if c.jti == "" { return Failure(JtiMissing); }
    if cache != null {
      var seen := cache.Seen(c.jti, evictAt, insertAt);
      if seen { return Failure(JtiReplayed); }
    }
    if c.ath == "" { return Failure(AthMissing); }
    if c.ath != lib.tokenHash(accessToken) { return Failure(AthMismatch); }
    if p.thumbprint.None? { return Failure(NoThumbprint); }
    return Success(p.thumbprint.value);
  }

  // ---------------------------------------------------------------------------
  // The token
  // ---------------------------------------------------------------------------

  datatype Config = Config(usernameClaim: string, groupsClaim: string, rolesClaim: string, audience: string)

  /** One audience that is not a string invalidates the list, even beside a matching one. */
  predicate AudienceOk(audience: string, claims: map<string, Value>) {
    audience == "" ||
    ("aud" in claims &&
     match claims["aud"]
     case Str(s) => s == audience
     case Strings(ss) => audience in ss
     case List(items) => (forall v | v in items :: v.Str?) && Str(audience) in items
     case _ => false)
  }

  /** All the strings of a list claim, or nothing at all. */
  ghost predicate IsStringArray(claims: map<string, Value>, name: string, out: seq<string>) {
    if name != "" && name in claims && claims[name].List? && forall v | v in claims[name].items :: v.Str?
    then |out| == |claims[name].items| && forall i | 0 <= i < |out| :: claims[name].items[i] == Str(out[i])
    else out == []
  }

  /** The key the token is bound to, "" when it is not bound. */
  function CnfJkt(claims: map<string, Value>): string {
    if "cnf" in claims && claims["cnf"].Object? && "jkt" in claims["cnf"].fields && claims["cnf"].fields["jkt"].Str?
    then claims["cnf"].fields["jkt"].s else ""
  }

  /** Without an audience configured every token is for it. Otherwise the "aud" claim names it, alone or in a list. */
  lemma AudienceExactly(audience: string, claims: map<string, Value>)
    ensures AudienceOk("", claims)
    ensures audience != "" && "aud" !in claims ==> !AudienceOk(audience, claims)
    ensures forall s :: audience != "" && "aud" in claims && claims["aud"] == Str(s) ==>
                        (AudienceOk(audience, claims) <==> s == audience)
    ensures forall ss: seq<string> :: audience != "" && "aud" in claims && claims["aud"] == Strings(ss) ==>
                         (AudienceOk(audience, claims) <==> exists i :: 0 <= i < |ss| && ss[i] == audience)
    ensures forall items: seq<Value> :: audience != "" && "aud" in claims && claims["aud"] == List(items) ==>
                            (AudienceOk(audience, claims) <==>
                               (forall i | 0 <= i < |items| :: items[i].Str?)
                               && exists i :: 0 <= i < |items| && items[i] == Str(audience))
  {
  }

  /** The bound key is the string at "cnf", "jkt", where there is one. */
  lemma CnfJktExactly(claims: map<string, Value>, jkt: string)
    requires jkt != ""
    ensures CnfJkt(claims) == jkt <==>
            "cnf" in claims && claims["cnf"].Object? && "jkt" in claims["cnf"].fields
            && claims["cnf"].fields["jkt"] == Str(jkt)
  {
  }

  predicate TokenOk(cfg: Config, lib: Library, token: string) {
    var claims := lib.verifyToken(token);
    && claims.Some? && AudienceOk(cfg.audience, claims.value)
    && cfg.usernameClaim in claims.value && claims.value[cfg.usernameClaim].Str?
  }

  function BoundKey(lib: Library, token: string): string {
    match lib.verifyToken(token) case None => "" case Some(claims) => CnfJkt(claims)
  }

  datatype User = User(username: string, groups: seq<string>, roles: seq<string>,
                       attributes: map<string, Value>, cnfJkt: string)

  ghost predicate IsUser(cfg: Config, claims: map<string, Value>, u: User) {
    && cfg.usernameClaim in claims && claims[cfg.usernameClaim] == Str(u.username)
    && IsStringArray(claims, cfg.groupsClaim, u.groups)
    && IsStringArray(claims, cfg.rolesClaim, u.roles)
    && u.attributes == claims - {cfg.usernameClaim, cfg.groupsClaim, cfg.rolesClaim}
    && u.cnfJkt == CnfJkt(claims)
  }

  // ---------------------------------------------------------------------------
  // The request
  // ---------------------------------------------------------------------------

  /** `proof` is the DPoP header, "" when absent. */
  datatype Request = Request(authorization: seq<string>, proof: string, httpMethod: string, url: string)

  /** The access token, and whether it came under the DPoP scheme. */
  function Credential(lib: Library, r: Request): Option<(string, bool)> {
    match FindAuthorization(lib, r.authorization, "DPoP")
    case Some(token) => Some((token, true))
    case None =>
      match FindAuthorization(lib, r.authorization, "Bearer")
      case Some(token) => Some((token, false))
      case None => None
  }

  /** The request gets as far as looking its identifier up. */
  predicate ReachesCache(cfg: Config, lib: Library, r: Request, now: int) {
    var cred := Credential(lib, r);
    && cred.Some? && cred.value.1
    && TokenOk(cfg, lib, cred.value.0) && BoundKey(lib, cred.value.0) != ""
    && r.proof != "" && Admissible(lib, r.proof, r.httpMethod, r.url, now)
  }

  predicate Accepts(cfg: Config, lib: Library, r: Request, now: int, replayed: bool) {
    var cred := Credential(lib, r);
    && cred.Some? && TokenOk(cfg, lib, cred.value.0)
    && (BoundKey(lib, cred.value.0) == "" ||
        (ReachesCache(cfg, lib, r, now) && !replayed
         && BoundTo(lib, r.proof, cred.value.0, BoundKey(lib, cred.value.0))))
  }

  /** The identifier the request's proof carries. */
  function JtiOf(lib: Library, r: Request): string {
    match lib.parseProof(r.proof)
    case None => ""
    case Some(p) => match p.claims case None => "" case Some(c) => c.jti
  }

  function IatOf(lib: Library, r: Request): int {
    match lib.parseProof(r.proof)
    case None => 0
    case Some(p) => match p.claims case None => 0 case Some(c) => c.iat
  }

  class Auth {
    const cfg: Config
    const lib: Library
    const cache: JTICache

    constructor (cfg: Config, lib: Library, ghost now: int)
      ensures this.cfg == cfg && this.lib == lib && fresh(cache)
      ensures cache.Valid() && cache.log == [] && cache.lastEviction == now
    {
      this.cfg, this.lib := cfg, lib;
      var c := new JTICache(now);
      this.cache := c;
    }

    method ValidateAudience(claims: map<string, Value>) returns (error: Option<Error>)
      ensures error.None? <==> AudienceOk(cfg.audience, claims)
    {
      if cfg.audience == "" { return None; }
      if "aud" !in claims { return Some(MissingAudience); }
      match claims["aud"]
      case Str(s) => return if s == cfg.audience then None else Some(InvalidAudience);
      case Strings(ss) => return if cfg.audience in ss then None else Some(InvalidAudience);
      case List(items) =>
        var ss: seq<string> := [];
        for i := 0 to |items|
          invariant |ss| == i && forall k | 0 <= k < i :: items[k] == Str(ss[k])
        {
          if !items[i].Str? { return Some(InvalidAudience); }
          ss := ss + [items[i].s];
        }
        assert cfg.audience in ss <==> Str(cfg.audience) in items by {
          if cfg.audience in ss {
            var k :| 0 <= k < |ss| && ss[k] == cfg.audience;
            assert items[k] == Str(cfg.audience);
          }
        }
        return if cfg.audience in ss then None else Some(InvalidAudience);
      case _ => return Some(InvalidAudience);
    }

    method ExtractStringArray(claims: map<string, Value>, name: string) returns (out: seq<string>)
      ensures IsStringArray(claims, name, out)
    {
      if name == "" || name !in claims || !claims[name].List? { return []; }
      var items := claims[name].items;
      out := [];
      for i := 0 to |items|
        invariant |out| == i && forall k | 0 <= k < i :: items[k] == Str(out[k])
      {
        if !items[i].Str? { return []; }
        out := out + [items[i].s];
      }
    }

    method VerifyToken(token: string) returns (r: Result<User, Error>)
      ensures r.Success? <==> TokenOk(cfg, lib, token)
      ensures r.Success? ==> IsUser(cfg, lib.verifyToken(token).value, r.value)
    {
      var verified := lib.verifyToken(token);
      if verified.None? { return Failure(InvalidToken); }
      var claims := verified.value;
      var audienceError := ValidateAudience(claims);
      if audienceError.Some? { return Failure(audienceError.value); }
      if cfg.usernameClaim !in claims { return Failure(MissingClaim); }
      if !claims[cfg.usernameClaim].Str? { return Failure(MalformedClaim); }
      var groups := ExtractStringArray(claims, cfg.groupsClaim);
      var roles := ExtractStringArray(claims, cfg.rolesClaim);
      var filtered: map<string, Value> := map[];
      var todo := claims.Keys;
      while todo != {}
        invariant todo <= claims.Keys
        invariant filtered == claims - {cfg.usernameClaim, cfg.groupsClaim, cfg.rolesClaim} - todo
      {
        var k :| k in todo;
        todo := todo - {k};
        if k != cfg.usernameClaim && k != cfg.groupsClaim && k != cfg.rolesClaim {
          filtered := filtered[k := claims[k]];
        }
      }
      return Success(User(claims[cfg.usernameClaim].s, groups, roles, filtered, CnfJkt(claims)));
    }

    /** `checkAt` is read before the cache is locked, the other two while it is held. */
    method VerifyRequest(r: Request, checkAt: int, evictAt: int, insertAt: int) returns (out: Result<User, Error>)
      requires cache.Valid() && cache.lastEviction <= evictAt && checkAt <= evictAt <= insertAt
      modifies cache
      ensures cache.Valid()
      ensures out.Success? <==> Accepts(cfg, lib, r, checkAt, Remembers(old(cache.log), JtiOf(lib, r), evictAt))
      ensures out.Success? ==> IsUser(cfg, lib.verifyToken(Credential(lib, r).value.0).value, out.value)
      ensures !ReachesCache(cfg, lib, r, checkAt) ==> unchanged(cache)
      ensures ReachesCache(cfg, lib, r, checkAt) ==>
                var call := Call(JtiOf(lib, r), evictAt, insertAt);
                && cache.lastEviction == evictAt
                && cache.log == Record(old(cache.log), call, JTI_TTL)
                && cache.entries == Look(old(cache.entries), call, JTI_TTL).1
    {
      var isDPoP := true;
      var found := FindAuthorization(lib, r.authorization, "DPoP");
      if found.None? {
        isDPoP := false;
        found := FindAuthorization(lib, r.authorization, "Bearer");
        if found.None? { return Failure(MissingAuthorization); }
      }
      var token := found.value;
      var info := VerifyToken(token);
      if info.Failure? { return info; }
      if info.value.cnfJkt != "" {
        if !isDPoP { return Failure(TokenRequiresDPoP); }
        if r.proof == "" { return Failure(MissingProof); }
        var error := CheckProof(r, token, info.value.cnfJkt, checkAt, evictAt, insertAt);
        if error.Some? { return Failure(error.value); }
      }
      return info;
    }

    method CheckProof(r: Request, token: string, expectedJkt: string, checkAt: int, evictAt: int, insertAt: int)
      returns (error: Option<Error>)
      requires cache.Valid() && cache.lastEviction <= evictAt <= insertAt
      modifies cache
      ensures cache.Valid()
      ensures error.None? <==>
                && expectedJkt != ""
                && Admissible(lib, r.proof, r.httpMethod, r.url, checkAt)
                && !Remembers(old(cache.log), JtiOf(lib, r), evictAt)
                && BoundTo(lib, r.proof, token, expectedJkt)
      ensures expectedJkt == "" || !Admissible(lib, r.proof, r.httpMethod, r.url, checkAt) ==> unchanged(cache)
      ensures expectedJkt != "" && Admissible(lib, r.proof, r.httpMethod, r.url, checkAt) ==>
                var call := Call(JtiOf(lib, r), evictAt, insertAt);
                && cache.lastEviction == evictAt
                && cache.log == Record(old(cache.log), call, JTI_TTL)
                && cache.entries == Look(old(cache.entries), call, JTI_TTL).1
    {
      if expectedJkt == "" { return Some(MissingJktClaim); }
      var jkt := VerifyProof(lib, r.proof, r.httpMethod, r.url, token, checkAt, cache, evictAt, insertAt);
      if jkt.Failure? { return Some(jkt.error); }
      if jkt.value != expectedJkt { return Some(JktMismatch); }
      return None;
    }
  }
}
