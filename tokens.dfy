/**
 * Token validation of the resource server: three strategies (JWT checked
 * against a JWKS endpoint, OAuth2 token introspection as in section 2.2 of
 * RFC 7662, and a fixed test table), each turning what it learns into one
 * canonical TokenInfo, and the pipeline that tries them in priority order.
 *
 * The network and the cryptography are oracles: `verifyJwt` stands for the
 * key fetch from the JWKS endpoint plus the RS256 signature and expiry check
 * (audience not verified) and yields the decoded claims or None;
 * `introspectionEndpoint` stands for the POST to the introspection endpoint
 * and yields the JSON body of a 200 reply, or None for a transport error,
 * a timeout, another status code or a body that is not JSON.
 */
module Tokens {
  import opened Wrappers
  import opened Text
  import opened Json

  /** The settings read once from the environment at start-up. */
  datatype Config = Config(
    testMode: bool,
    introspectionUrl: Option<string>,
    introspectionClientId: Option<string>,
    introspectionClientSecret: Option<string>,
    jwksUrl: Option<string>)

  /** An environment setting counts as given when it is set and non-empty
      (the truthiness of the string `os.getenv` returns). */
  predicate Enabled(setting: Option<string>) {
    setting.Some? && setting.value != []
  }

  /** The canonical token record `{active, scopes, sub}`. `scopes` is a list
      of strings except where a JWT carries a non-string scope claim, which
      is passed through as it is. */
  datatype TokenInfo = TokenInfo(active: bool, scopes: Value, sub: Value)

  datatype Oracles = Oracles(
    // (introspection URL, basic-auth credentials, token) -> 200 reply body
    introspectionEndpoint: (string, Option<(string, string)>, string) -> Option<Value>,
    // (JWKS URL, token) -> verified claims
    verifyJwt: (string, string) -> Option<map<string, Value>>)

  /** Client credentials are sent only when both the id and the secret are given. */
  function BasicAuth(cfg: Config): Option<(string, string)> {
    if Enabled(cfg.introspectionClientId) && Enabled(cfg.introspectionClientSecret)
    then Some((cfg.introspectionClientId.value, cfg.introspectionClientSecret.value))
    else None
  }

  // ---------------------------------------------------------------------
  // Introspection strategy

  /** The `scope` member of an introspection reply, '' when absent. */
  function ScopeMember(fields: map<string, Value>): Value {
    Get(fields, "scope", Str(""))
  }

  /** `info.get('sub') or info.get('username')` */
  function SubjectMember(fields: map<string, Value>): Value {
    Or(Get(fields, "sub", Null), Get(fields, "username", Null))
  }

  /** When a 200 reply yields a token: it is a JSON object, its `active`
      member is truthy, and its `scope` is either falsy or a string (any
      other truthy value has no `split` and the raised error is caught). */
  predicate IntrospectionAccepts(reply: Value) {
    && reply.Object?
    && Truthy(Get(reply.fields, "active", Null))
    && (!Truthy(ScopeMember(reply.fields)) || ScopeMember(reply.fields).Str?)
  }

  /** Turn an introspection reply into a TokenInfo. */
  function NormalizeIntrospection(reply: Value): (r: Option<TokenInfo>)
    ensures r.Some? <==> IntrospectionAccepts(reply)
    ensures r.Some? ==> r.value.active
    ensures r.Some? ==> r.value.sub == SubjectMember(reply.fields)
    ensures r.Some? ==> r.value.scopes.Array?
    ensures r.Some? ==> forall k :: 0 <= k < |r.value.scopes.items| ==>
      r.value.scopes.items[k].Str? && IsWord(r.value.scopes.items[k].s)
  {
    match reply
    case Object(info) =>
      if !Truthy(Get(info, "active", Null)) then None
      else
        var scope := ScopeMember(info);
        if Truthy(scope) && !scope.Str? then None
        else
          var scopes := if Truthy(scope) then Split(scope.s) else [];
          Some(TokenInfo(true, StrList(scopes), SubjectMember(info)))
    case _ => None
  }

  /** `_introspect_token`: ask the endpoint, if one is configured. */
  function IntrospectToken(cfg: Config, oracles: Oracles, token: string): (r: Option<TokenInfo>)
    ensures !Enabled(cfg.introspectionUrl) ==> r.None?
    ensures Enabled(cfg.introspectionUrl) ==>
      var reply := oracles.introspectionEndpoint(cfg.introspectionUrl.value, BasicAuth(cfg), token);
      && (reply.None? ==> r.None?)
      && (reply.Some? ==> r == NormalizeIntrospection(reply.value))
    ensures r.Some? ==> r.value.active
  {
    if !Enabled(cfg.introspectionUrl) then None
    else
      match oracles.introspectionEndpoint(cfg.introspectionUrl.value, BasicAuth(cfg), token)
      case None => None
      case Some(reply) => NormalizeIntrospection(reply)
  }

  /** The text of a usable `scope` member: '' when it is falsy. */
  function ScopeText(fields: map<string, Value>): string {
    var scope := ScopeMember(fields);
    if Truthy(scope) && scope.Str? then scope.s else []
  }

  /** The scopes of an accepted reply are the words of its `scope` string:
      none is empty or holds whitespace, and their characters, in order,
      are exactly the non-whitespace characters of that string. */
  lemma IntrospectionScopesAreWords(reply: Value, ws: seq<string>)
    requires IntrospectionAccepts(reply)
    requires NormalizeIntrospection(reply).value.scopes == StrList(ws)
    ensures AllWords(ws)
    ensures Concat(ws) == NonSpace(ScopeText(reply.fields))
  {
    var text := ScopeText(reply.fields);
    SplitKeepsText(text);
    assert NormalizeIntrospection(reply).value.scopes == StrList(Split(text));
    StrListInjective(ws, Split(text));
  }

  /** A reply that is active and lists its scopes joined by spaces yields
      exactly those scopes, whatever else it carries. */
  lemma IntrospectionScopesRoundTrip(fields: map<string, Value>, ws: seq<string>)
    requires Truthy(Get(fields, "active", Null))
    requires AllWords(ws)
    requires ScopeMember(fields) == Str(Join(ws))
    ensures NormalizeIntrospection(Object(fields)) == Some(TokenInfo(true, StrList(ws), SubjectMember(fields)))
  {
    SplitJoin(ws);
    if ws == [] {
      assert Split([]) == [];
    }
  }

  /** However its words are spaced (tabs, runs of spaces, a trailing
      newline), an active reply's `scope` yields exactly its words. */
  lemma IntrospectionScopesSpaced(fields: map<string, Value>, pre: string, ws: seq<string>, gaps: seq<string>)
    requires Truthy(Get(fields, "active", Null))
    requires AllSpace(pre) && AllWords(ws) && |gaps| == |ws| && Separating(gaps)
    requires ScopeMember(fields) == Str(pre + Layout(ws, gaps))
    ensures NormalizeIntrospection(Object(fields)) == Some(TokenInfo(true, StrList(ws), SubjectMember(fields)))
  {
    SplitLayout(pre, ws, gaps);
    if pre + Layout(ws, gaps) == [] {
      assert Split([]) == [];
    }
  }

  // ---------------------------------------------------------------------
  // JWT strategy

  /** `claims.get('scope') or claims.get('scp') or ''` */
  function ScopeClaim(claims: map<string, Value>): Value {
    Or(Or(Get(claims, "scope", Null), Get(claims, "scp", Null)), Str(""))
  }

  /** Turn verified JWT claims into a TokenInfo: a string scope claim is
      split on whitespace, any other one is kept as it is. */
  function NormalizeJwtClaims(claims: map<string, Value>): (info: TokenInfo)
    ensures info.active
    ensures info.sub == Get(claims, "sub", Null)
  {
    var scope := ScopeClaim(claims);
    TokenInfo(true, if scope.Str? then StrList(Split(scope.s)) else scope, Get(claims, "sub", Null))
  }

  /** `_validate_jwt`: verify the token against the JWKS endpoint, if configured. */
  function ValidateJwt(cfg: Config, oracles: Oracles, token: string): (r: Option<TokenInfo>)
    ensures r.Some? <==> Enabled(cfg.jwksUrl) && oracles.verifyJwt(cfg.jwksUrl.value, token).Some?
    ensures r.Some? ==> r.value.active
  {
    if !Enabled(cfg.jwksUrl) then None
    else
      match oracles.verifyJwt(cfg.jwksUrl.value, token)
      case None => None
      case Some(claims) => Some(NormalizeJwtClaims(claims))
  }

  /** Where the scopes of a JWT come from: `scope` when truthy, else `scp`
      when truthy, else none; a string is split, anything else passed through. */
  lemma JwtScopeSource(claims: map<string, Value>)
    ensures var scope, scp := Get(claims, "scope", Null), Get(claims, "scp", Null);
      var chosen := if Truthy(scope) then scope else scp;
      var scopes := NormalizeJwtClaims(claims).scopes;
      && (Truthy(chosen) && chosen.Str? ==> scopes == StrList(Split(chosen.s)))
      && (Truthy(chosen) && !chosen.Str? ==> scopes == chosen)
      && (!Truthy(chosen) ==> scopes == Array([]))
  {
    var scope, scp := Get(claims, "scope", Null), Get(claims, "scp", Null);
    var chosen := if Truthy(scope) then scope else scp;
    if !Truthy(chosen) {
      assert ScopeClaim(claims) == Str("");
      assert Split("") == [];
    }
  }

  /** A JWT whose `scope` claim lists words joined by spaces grants exactly
      those words, whatever its `scp` claim says. */
  lemma JwtScopesRoundTrip(claims: map<string, Value>, ws: seq<string>)
    requires AllWords(ws) && ws != []
    requires Get(claims, "scope", Null) == Str(Join(ws))
    ensures NormalizeJwtClaims(claims).scopes == StrList(ws)
  {
    SplitJoin(ws);
    JoinStartsWithFirst(ws);
  }

  /** A non-empty string `scope` claim yields exactly its words, however
      they are spaced. */
  lemma JwtScopesSpaced(claims: map<string, Value>, pre: string, ws: seq<string>, gaps: seq<string>)
    requires AllSpace(pre) && AllWords(ws) && |gaps| == |ws| && Separating(gaps)
    requires pre + Layout(ws, gaps) != []
    requires Get(claims, "scope", Null) == Str(pre + Layout(ws, gaps))
    ensures NormalizeJwtClaims(claims).scopes == StrList(ws)
  {
    SplitLayout(pre, ws, gaps);
  }

  // ---------------------------------------------------------------------
  // Test strategy

  /** The record the test table gives `test-token`. */
  const FullTestToken: TokenInfo := TokenInfo(true, StrList(["read:notes", "write:notes"]), Str("user:alice"))

  /** The record the test table gives `read-only`. */
  const ReadOnlyTestToken: TokenInfo := TokenInfo(true, StrList(["read:notes"]), Str("user:bob"))

  /** `_mock_token_info`: two fixed tokens, everything else refused. */
  function MockTokenInfo(token: string): (r: Option<TokenInfo>)
    ensures r.Some? <==> token == "test-token" || token == "read-only"
    ensures r.Some? ==> r.value.active
  {
    if token == "test-token" then Some(FullTestToken)
    else if token == "read-only" then Some(ReadOnlyTestToken)
    else
      None
  }

  // ---------------------------------------------------------------------
  // The pipeline

  /** `introspect`: JWT first, then introspection, then (in test mode) the
      fixed table; the first strategy that yields a token wins. */
  function Introspect(cfg: Config, oracles: Oracles, token: string): (r: Option<TokenInfo>)
    ensures r.Some? ==> r.value.active
  {
    var viaJwt := if Enabled(cfg.jwksUrl) then ValidateJwt(cfg, oracles, token) else None;
    if viaJwt.Some? then viaJwt
    else
      var viaIntrospection := if Enabled(cfg.introspectionUrl) then IntrospectToken(cfg, oracles, token) else None;
      if viaIntrospection.Some? then viaIntrospection
      else if cfg.testMode then MockTokenInfo(token)
      else None
  }

  /** A token the JWT strategy accepts is decided by its claims alone. */
  lemma JwtWins(cfg: Config, oracles: Oracles, token: string)
    requires Enabled(cfg.jwksUrl)
    requires oracles.verifyJwt(cfg.jwksUrl.value, token).Some?
    ensures Introspect(cfg, oracles, token)
      == Some(NormalizeJwtClaims(oracles.verifyJwt(cfg.jwksUrl.value, token).value))
  {
  }

  /** The introspection endpoint decides only tokens the JWT strategy refuses. */
  lemma IntrospectionSecond(cfg: Config, oracles: Oracles, token: string)
    requires ValidateJwt(cfg, oracles, token).None?
    requires IntrospectToken(cfg, oracles, token).Some?
    ensures Introspect(cfg, oracles, token) == IntrospectToken(cfg, oracles, token)
  {
  }

  /** The test table is consulted only when both real strategies refuse,
      and only in test mode; otherwise the token is refused. */
  lemma MockLast(cfg: Config, oracles: Oracles, token: string)
    requires ValidateJwt(cfg, oracles, token).None?
    requires IntrospectToken(cfg, oracles, token).None?
    ensures Introspect(cfg, oracles, token) == (if cfg.testMode then MockTokenInfo(token) else None)
  {
  }

  /** Default deny: a token yields a TokenInfo only if some enabled strategy
      accepts it, and then the TokenInfo is that strategy's. */
  lemma PipelineSound(cfg: Config, oracles: Oracles, token: string)
    requires Introspect(cfg, oracles, token).Some?
    ensures var r := Introspect(cfg, oracles, token);
      || (Enabled(cfg.jwksUrl) && r == ValidateJwt(cfg, oracles, token))
      || (Enabled(cfg.introspectionUrl) && r == IntrospectToken(cfg, oracles, token))
      || (cfg.testMode && (token == "test-token" || token == "read-only") && r == MockTokenInfo(token))
  {
  }

  /** With test mode off and no JWKS or introspection endpoint, nothing is accepted. */
  lemma NothingConfiguredDeniesAll(cfg: Config, oracles: Oracles, token: string)
    requires !cfg.testMode && !Enabled(cfg.jwksUrl) && !Enabled(cfg.introspectionUrl)
    ensures Introspect(cfg, oracles, token).None?
  {
  }

  /** Test mode on, no other strategy configured: the fixed table. */
  lemma MockOnlyTable(cfg: Config, oracles: Oracles, token: string)
    requires cfg.testMode && !Enabled(cfg.jwksUrl) && !Enabled(cfg.introspectionUrl)
    ensures Introspect(cfg, oracles, token) == MockTokenInfo(token)
    ensures token == "test-token" ==> Introspect(cfg, oracles, token) == Some(FullTestToken)
    ensures token == "read-only" ==> Introspect(cfg, oracles, token) == Some(ReadOnlyTestToken)
    ensures token != "test-token" && token != "read-only" ==> Introspect(cfg, oracles, token).None?
  {
  }
}
