/** Authentication: from presented credentials to a principal. */
module Auth {
  import opened Prelude
  import opened Authz

  datatype AuthError =
    | MissingCredentials
    | InvalidToken
    | InvalidClientCert
    | JwtRejected(reason: string)

  datatype ClientCert = ClientCert(subjectCn: Option<string>, sans: seq<string>)

  datatype Credentials = Credentials(bearer: Option<string>, clientCert: Option<ClientCert>)

  datatype TokenRecord = TokenRecord(name: string, token: string, scopes: seq<string>)

  datatype Mapping = Mapping(subject: string, name: string, scopes: seq<string>)

  /** What a verified token says: its subject and the scopes read from the configured claim. */
  datatype Claims = Claims(subject: Option<string>, scopes: seq<string>)

  /** `decode` stands for signature and claim validation of a token under one key. */
  datatype Authenticator =
    | Bearer(tokens: seq<TokenRecord>)
    | Jwt(keys: seq<string>, decode: (string, string) -> Result<Claims, string>)
    | Mtls(mappings: seq<Mapping>)

  function TokenPrincipal(r: TokenRecord): (p: Principal)
  {
    Principal(r.name, Elements(r.scopes))
  }

  function MappingPrincipal(m: Mapping): (p: Principal)
  {
    Principal(m.name, Elements(m.scopes))
  }

  function ClaimsPrincipal(c: Claims): (p: Principal)
  {
    Principal(if c.subject.Some? then c.subject.value else "jwt", Elements(c.scopes))
  }

  function TokenVerify(tokens: seq<TokenRecord>, presented: string): (r: Result<Principal, AuthError>)
  {
    if tokens == [] then Err(InvalidToken)
    else
      var last := tokens[|tokens| - 1];
      if last.token == presented then Ok(TokenPrincipal(last)) else TokenVerify(tokens[..|tokens| - 1], presented)
  }

  predicate CertMatches(m: Mapping, cert: ClientCert)
  {
    cert.subjectCn == Some(m.subject) || m.subject in cert.sans
  }

  function CertVerify(mappings: seq<Mapping>, cert: ClientCert): (r: Result<Principal, AuthError>)
  {
    if mappings == [] then Err(InvalidClientCert)
    else if CertMatches(mappings[0], cert) then Ok(MappingPrincipal(mappings[0]))
    else CertVerify(mappings[1..], cert)
  }

  const NO_KEYS: string := "no verification keys configured"

  /** `lastError` is what the previous key said. */
  function JwtVerify(
    keys: seq<string>, decode: (string, string) -> Result<Claims, string>, token: string, lastError: string)
    : (r: Result<Principal, AuthError>)
  {
    if keys == [] then Err(JwtRejected(lastError))
    else
      match decode(token, keys[0])
      case Ok(claims) => Ok(ClaimsPrincipal(claims))
      case Err(e) => JwtVerify(keys[1..], decode, token, e)
  }

  function Verify(auth: Authenticator, creds: Credentials): (r: Result<Principal, AuthError>)
  {
    match auth
    case Bearer(tokens) =>
      if creds.bearer.None? then Err(MissingCredentials) else TokenVerify(tokens, creds.bearer.value)
    case Jwt(keys, decode) =>
      if creds.bearer.None? then Err(MissingCredentials) else JwtVerify(keys, decode, creds.bearer.value, NO_KEYS)
    case Mtls(mappings) =>
      if creds.clientCert.None? then Err(MissingCredentials) else CertVerify(mappings, creds.clientCert.value)
  }

  function Authenticate(auth: Authenticator, creds: Credentials, allowAnonymousRead: bool)
    : (r: Result<Principal, AuthError>)
  {
    var result := Verify(auth, creds);
    if result == Err(MissingCredentials) && allowAnonymousRead then Ok(ANONYMOUS) else result
  }

  // --- Which principal comes out --------------------------------------------------------

  /** The last record carrying the presented token decides. */
  lemma {:induction false} LastTokenWins(tokens: seq<TokenRecord>, presented: string)
    ensures TokenVerify(tokens, presented).Err? <==> forall i :: 0 <= i < |tokens| ==> tokens[i].token != presented
    ensures TokenVerify(tokens, presented).Err? ==> TokenVerify(tokens, presented).error == InvalidToken
    ensures forall i :: 0 <= i < |tokens| && tokens[i].token == presented
              && (forall j :: i < j < |tokens| ==> tokens[j].token != presented)
              ==> TokenVerify(tokens, presented) == Ok(TokenPrincipal(tokens[i]))
  {
    if tokens == [] {
    } else {
      LastTokenWins(tokens[..|tokens| - 1], presented);
    }
  }

  /** The first mapping naming the certificate's CN or one of its SANs decides. */
  lemma {:induction false} FirstMappingWins(mappings: seq<Mapping>, cert: ClientCert)
    ensures CertVerify(mappings, cert).Err? <==> forall i :: 0 <= i < |mappings| ==> !CertMatches(mappings[i], cert)
    ensures CertVerify(mappings, cert).Err? ==> CertVerify(mappings, cert).error == InvalidClientCert
    ensures forall i :: 0 <= i < |mappings| && CertMatches(mappings[i], cert)
              && (forall j :: 0 <= j < i ==> !CertMatches(mappings[j], cert))
              ==> CertVerify(mappings, cert) == Ok(MappingPrincipal(mappings[i]))
  {
    if mappings == [] {
    } else {
      var rest := mappings[1..];
      FirstMappingWins(rest, cert);
      assert forall i :: 1 <= i < |mappings| ==> mappings[i] == rest[i - 1];
      assert forall i :: 0 <= i < |rest| ==> rest[i] == mappings[i + 1];
    }
  }

  /** The first accepting key decides; when none accepts, the last key's complaint is reported. */
  lemma {:induction false} FirstKeyWins(
    keys: seq<string>, decode: (string, string) -> Result<Claims, string>, token: string, lastError: string)
    ensures var r := JwtVerify(keys, decode, token, lastError);
            && (r.Err? <==> forall i :: 0 <= i < |keys| ==> decode(token, keys[i]).Err?)
            && (r.Err? ==> r.error == JwtRejected(
                             if keys == [] then lastError else decode(token, keys[|keys| - 1]).error))
            && (forall i :: 0 <= i < |keys| && decode(token, keys[i]).Ok?
                  && (forall j :: 0 <= j < i ==> decode(token, keys[j]).Err?)
                  ==> r == Ok(ClaimsPrincipal(decode(token, keys[i]).value)))
  {
    if keys == [] {
    } else {
      var rest := keys[1..];
      assert forall i :: 1 <= i < |keys| ==> keys[i] == rest[i - 1];
      assert forall i :: 0 <= i < |rest| ==> rest[i] == keys[i + 1];
      if decode(token, keys[0]).Err? {
        FirstKeyWins(rest, decode, token, decode(token, keys[0]).error);
      }
    }
  }

  /** The credential the configured mode looks at was not presented. */
  predicate CredentialAbsent(auth: Authenticator, creds: Credentials)
  {
    if auth.Mtls? then creds.clientCert.None? else creds.bearer.None?
  }

  /** A missing credential is the only way to a missing-credential error: no backend reports one. */
  lemma MissingMeansAbsent(auth: Authenticator, creds: Credentials)
    ensures Verify(auth, creds) == Err(MissingCredentials) <==> CredentialAbsent(auth, creds)
  {
    match auth
    case Bearer(tokens) =>
      if creds.bearer.Some? {
        LastTokenWins(tokens, creds.bearer.value);
      }
    case Jwt(keys, decode) =>
      if creds.bearer.Some? {
        FirstKeyWins(keys, decode, creds.bearer.value, NO_KEYS);
      }
    case Mtls(mappings) =>
      if creds.clientCert.Some? {
        FirstMappingWins(mappings, creds.clientCert.value);
      }
  }

  /**
   * The anonymous fallback is taken exactly when the mode's credential is absent and the flag is
   * on; a credential that is present but invalid is always refused.
   */
  lemma AnonymousExactlyWhenAbsent(auth: Authenticator, creds: Credentials, allow: bool)
    ensures CredentialAbsent(auth, creds) ==>
              Authenticate(auth, creds, allow) == if allow then Ok(ANONYMOUS) else Err(MissingCredentials)
    ensures !CredentialAbsent(auth, creds) ==>
              Authenticate(auth, creds, allow) == Verify(auth, creds) != Err(MissingCredentials)
  {
    MissingMeansAbsent(auth, creds);
  }

  /** The principal is the last record's that carries the token. */
  ghost predicate TokenNames(tokens: seq<TokenRecord>, t: string, p: Principal)
  {
    exists i :: 0 <= i < |tokens| && tokens[i].token == t
      && (forall j :: i < j < |tokens| ==> tokens[j].token != t)
      && p.name == tokens[i].name && p.scopes == set x | x in tokens[i].scopes
  }

  /** The principal is what the first accepting key finds in the token. */
  ghost predicate KeyNames(
    keys: seq<string>, decode: (string, string) -> Result<Claims, string>, t: string, p: Principal)
  {
    exists i :: 0 <= i < |keys| && decode(t, keys[i]).Ok?
      && (forall j :: 0 <= j < i ==> decode(t, keys[j]).Err?)
      && p.name == (match decode(t, keys[i]).value.subject case Some(n) => n case None => "jwt")
      && p.scopes == set x | x in decode(t, keys[i]).value.scopes
  }

  /** The mapping's subject is the certificate's CN or one of its SANs. */
  ghost predicate Bears(cert: ClientCert, subject: string)
  {
    cert.subjectCn == Some(subject) || exists k :: 0 <= k < |cert.sans| && cert.sans[k] == subject
  }

  /** The principal is the first mapping's whose subject the certificate bears. */
  ghost predicate MappingNames(mappings: seq<Mapping>, cert: ClientCert, p: Principal)
  {
    exists i :: 0 <= i < |mappings| && Bears(cert, mappings[i].subject)
      && (forall j :: 0 <= j < i ==> !Bears(cert, mappings[j].subject))
      && p.name == mappings[i].name && p.scopes == set x | x in mappings[i].scopes
  }

  /** The configured backend knows the presented credential as this principal's. */
  ghost predicate Names(auth: Authenticator, creds: Credentials, p: Principal)
  {
    match auth
    case Bearer(tokens) => creds.bearer.Some? && TokenNames(tokens, creds.bearer.value, p)
    case Jwt(keys, decode) => creds.bearer.Some? && KeyNames(keys, decode, creds.bearer.value, p)
    case Mtls(mappings) => creds.clientCert.Some? && MappingNames(mappings, creds.clientCert.value, p)
  }

  lemma TokenMeans(tokens: seq<TokenRecord>, t: string, p: Principal)
    ensures TokenVerify(tokens, t) == Ok(p) <==> TokenNames(tokens, t, p)
  {
    LastTokenWins(tokens, t);
    if TokenVerify(tokens, t).Ok? {
      var i := LastWhere(tokens, (r: TokenRecord) => r.token == t);
      assert TokenVerify(tokens, t) == Ok(TokenPrincipal(tokens[i]));
    }
  }

  lemma KeyMeans(keys: seq<string>, decode: (string, string) -> Result<Claims, string>, t: string, p: Principal)
    ensures JwtVerify(keys, decode, t, NO_KEYS) == Ok(p) <==> KeyNames(keys, decode, t, p)
  {
    FirstKeyWins(keys, decode, t, NO_KEYS);
    if JwtVerify(keys, decode, t, NO_KEYS).Ok? {
      var i := FirstWhere(keys, (k: string) => decode(t, k).Ok?);
      assert JwtVerify(keys, decode, t, NO_KEYS) == Ok(ClaimsPrincipal(decode(t, keys[i]).value));
    }
  }

  lemma MappingMeans(mappings: seq<Mapping>, cert: ClientCert, p: Principal)
    ensures CertVerify(mappings, cert) == Ok(p) <==> MappingNames(mappings, cert, p)
  {
    FirstMappingWins(mappings, cert);
    assert forall m :: CertMatches(m, cert) <==> Bears(cert, m.subject);
    if CertVerify(mappings, cert).Ok? {
      var i := FirstWhere(mappings, (m: Mapping) => CertMatches(m, cert));
      assert CertVerify(mappings, cert) == Ok(MappingPrincipal(mappings[i]));
    }
  }

  /**
   * Authentication, in all three modes: exactly which principal comes out, and which refusal when
   * none does.
   */
  lemma AuthenticateMeans(auth: Authenticator, creds: Credentials, allow: bool, p: Principal)
    ensures Authenticate(auth, creds, allow) == Ok(p) <==>
            || Names(auth, creds, p)
            || (CredentialAbsent(auth, creds) && allow && p == Principal("anonymous", {"read"}))
    ensures Authenticate(auth, creds, allow).Err? ==>
              Authenticate(auth, creds, allow).error ==
              if CredentialAbsent(auth, creds) then MissingCredentials
              else match auth
                   case Bearer(_) => InvalidToken
                   case Mtls(_) => InvalidClientCert
                   case Jwt(keys, decode) =>
                     JwtRejected(if keys == [] then "no verification keys configured"
                                 else var e := decode(creds.bearer.value, keys[|keys| - 1]);
                                      if e.Err? then e.error else "")
  {
    MissingMeansAbsent(auth, creds);
    match auth
    case Bearer(tokens) =>
      if creds.bearer.Some? {
        TokenMeans(tokens, creds.bearer.value, p);
        LastTokenWins(tokens, creds.bearer.value);
      }
    case Jwt(keys, decode) =>
      if creds.bearer.Some? {
        KeyMeans(keys, decode, creds.bearer.value, p);
        FirstKeyWins(keys, decode, creds.bearer.value, NO_KEYS);
      }
    case Mtls(mappings) =>
      if creds.clientCert.Some? {
        MappingMeans(mappings, creds.clientCert.value, p);
        FirstMappingWins(mappings, creds.clientCert.value);
      }
  }

  /** Only the mode's own credential is looked at. */
  lemma OtherCredentialIgnored(auth: Authenticator, a: Credentials, b: Credentials, allow: bool)
    requires if auth.Mtls? then a.clientCert == b.clientCert else a.bearer == b.bearer
    ensures Authenticate(auth, a, allow) == Authenticate(auth, b, allow)
  {
  }

  /**
   * A client certificate goes for nothing in the bearer mode, although a mapping for it would
   * authenticate it in the certificate mode.
   */
  lemma CertificateGoesForNothing(cert: ClientCert, mapping: Mapping)
    requires CertMatches(mapping, cert)
    ensures Authenticate(Mtls([mapping]), Credentials(None, Some(cert)), false) == Ok(MappingPrincipal(mapping))
    ensures forall tokens ::
              Authenticate(Bearer(tokens), Credentials(None, Some(cert)), false) == Err(MissingCredentials)
  {
    FirstMappingWins([mapping], cert);
    assert [mapping][0] == mapping;
  }

  // --- The scans as the program runs them -------------------------------------------------

  /** Every record is compared; a later match overwrites an earlier one. */
  method ScanTokens(tokens: seq<TokenRecord>, presented: string) returns (r: Result<Principal, AuthError>)
    ensures r == TokenVerify(tokens, presented)
  {
    var matched: Option<TokenRecord> := None;
    for i := 0 to |tokens|
      invariant TokenVerify(tokens[..i], presented)
             == if matched.Some? then Ok(TokenPrincipal(matched.value)) else Err(InvalidToken)
    {
      assert tokens[..i + 1][..i] == tokens[..i];
      if tokens[i].token == presented {
        matched := Some(tokens[i]);
      }
    }
    assert tokens[..|tokens|] == tokens;
    r := if matched.Some? then Ok(TokenPrincipal(matched.value)) else Err(InvalidToken);
  }

  method TryKeys(keys: seq<string>, decode: (string, string) -> Result<Claims, string>, token: string)
    returns (r: Result<Principal, AuthError>)
    ensures r == JwtVerify(keys, decode, token, NO_KEYS)
  {
    var lastError: Option<string> := None;
    for i := 0 to |keys|
      invariant JwtVerify(keys, decode, token, NO_KEYS)
             == JwtVerify(keys[i..], decode, token, if lastError.Some? then lastError.value else NO_KEYS)
    {
      assert keys[i..][0] == keys[i] && keys[i..][1..] == keys[i + 1..];
      match decode(token, keys[i])
      case Ok(claims) =>
        return Ok(ClaimsPrincipal(claims));
      case Err(e) =>
        lastError := Some(e);
    }
    r := Err(JwtRejected(if lastError.Some? then lastError.value else NO_KEYS));
  }

  method ScanMappings(mappings: seq<Mapping>, cert: ClientCert) returns (r: Result<Principal, AuthError>)
    ensures r == CertVerify(mappings, cert)
  {
    for i := 0 to |mappings|
      invariant CertVerify(mappings, cert) == CertVerify(mappings[i..], cert)
    {
      assert mappings[i..][0] == mappings[i] && mappings[i..][1..] == mappings[i + 1..];
      if CertMatches(mappings[i], cert) {
        return Ok(MappingPrincipal(mappings[i]));
      }
    }
    r := Err(InvalidClientCert);
  }

  method AuthenticateCredentials(auth: Authenticator, creds: Credentials, allowAnonymousRead: bool)
    returns (r: Result<Principal, AuthError>)
    ensures r == Authenticate(auth, creds, allowAnonymousRead)
  {
    r := Err(MissingCredentials);
    match auth {
      case Bearer(tokens) =>
        if creds.bearer.Some? {
          r := ScanTokens(tokens, creds.bearer.value);
        }
      case Jwt(keys, decode) =>
        if creds.bearer.Some? {
          r := TryKeys(keys, decode, creds.bearer.value);
        }
      case Mtls(mappings) =>
        if creds.clientCert.Some? {
          r := ScanMappings(mappings, creds.clientCert.value);
        }
    }
    if r == Err(MissingCredentials) && allowAnonymousRead {
      r := Ok(ANONYMOUS);
    }
  }
}
