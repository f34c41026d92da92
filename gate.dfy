/**
 * The scope gate wrapped around every protected operation: read the bearer
 * token from the Authorization header (section 2.1 of RFC 6750), run the
 * validation pipeline, then compare the token's scopes with the scopes the
 * operation requires. Authentication is decided before authorization.
 */
module Gate {
  import opened Wrappers
  import opened Text
  import opened Json
  import opened Tokens

  datatype Decision =
    | MissingAuthorization            // 401 missing_authorization
    | InvalidToken                    // 401 invalid_token
    | InsufficientScope(missing: seq<string>)  // 403 insufficient_scope
    | InternalError                   // `s not in token_scopes` raised TypeError: 500
    | Authorized(info: TokenInfo)     // the wrapped operation runs with `info`

  const BearerPrefix: string := "Bearer "

  /** `request.headers.get('Authorization', '')` */
  function HeaderText(header: Option<string>): string {
    if header.Some? then header.value else []
  }

  /** `required_scopes or []` */
  function Required(requiredScopes: Option<seq<string>>): seq<string> {
    if requiredScopes.Some? then requiredScopes.value else []
  }

  /** After the prefix "Bearer ", the first space of the header is the one
      that ends the prefix, so `auth.split(' ', 1)[1]` is what follows it. */
  lemma BearerTail(header: string)
    requires StartsWith(header, BearerPrefix)
    ensures SplitOnceTail(header, ' ') == Some(header[|BearerPrefix|..])
  {
    assert header == "Bearer" + [' '] + header[|BearerPrefix|..];
    SplitOnceTailAfter("Bearer", ' ', header[|BearerPrefix|..]);
  }

  /** The token a header carries: None unless it starts with "Bearer ";
      otherwise the text after the first space, whitespace stripped. */
  function BearerToken(header: string): (token: Option<string>)
    ensures token.Some? <==> StartsWith(header, BearerPrefix)
    ensures token.Some? ==> token.value == Strip(header[|BearerPrefix|..])
  {
    if !StartsWith(header, BearerPrefix) then None
    else
      BearerTail(header);
      Some(Strip(SplitOnceTail(header, ' ').value))
  }

  /** A token without surrounding whitespace is read back from the header
      "Bearer <token>". */
  lemma BearerRoundTrip(token: string)
    requires token == [] || (!IsSpace(token[0]) && !IsSpace(token[|token| - 1]))
    ensures BearerToken(BearerPrefix + token) == Some(token)
  {
    var header := BearerPrefix + token;
    assert header[..|BearerPrefix|] == BearerPrefix;
    assert header[|BearerPrefix|..] == token;
    StripTrimmed(token);
  }

  /** `[s for s in required if s not in granted]`; None where `in` raises
      because the granted scopes are not a container. */
  function MissingScopes(required: seq<string>, granted: Value): (r: Option<seq<string>>)
    ensures r.None? <==> required != [] && !IsContainer(granted)
    ensures r.Some? ==> forall s :: s in r.value <==> s in required && Contains(granted, s) == Some(false)
  {
    if required == [] then Some([])
    else
      match Contains(granted, required[0])
      case None => None
      case Some(held) =>
        var rest := MissingScopes(required[1..], granted);
        assert rest.Some?;
        assert forall s :: s in required <==> s == required[0] || s in required[1..];
        Some(if held then rest.value else [required[0]] + rest.value)
  }

  /** The missing scopes keep the order in which they are required: the
      result for a concatenation is the concatenation of the results. */
  lemma {:induction false} MissingScopesAppend(a: seq<string>, b: seq<string>, granted: Value)
    requires IsContainer(granted)
    ensures MissingScopes(a + b, granted) == Some(MissingScopes(a, granted).value + MissingScopes(b, granted).value)
  {
    if a == [] {
      assert a + b == b;
      assert MissingScopes(a, granted) == Some([]);
      assert MissingScopes(b, granted).Some?;
      assert [] + MissingScopes(b, granted).value == MissingScopes(b, granted).value;
    } else {
      assert (a + b)[0] == a[0];
      assert (a + b)[1..] == a[1..] + b;
      MissingScopesAppend(a[1..], b, granted);
      var held := Contains(granted, a[0]).value;
      var restA, restB := MissingScopes(a[1..], granted).value, MissingScopes(b, granted).value;
      assert MissingScopes(a, granted).value == (if held then restA else [a[0]] + restA);
      assert MissingScopes(a + b, granted).value == (if held then restA + restB else [a[0]] + (restA + restB));
      assert ([a[0]] + restA) + restB == [a[0]] + (restA + restB);
    }
  }

  /** For a list of granted scopes, the missing scopes as a set are the
      required ones minus the granted ones. */
  lemma MissingIsSetDifference(required: seq<string>, granted: seq<string>)
    ensures MissingScopes(required, StrList(granted)).Some?
    ensures var missing := MissingScopes(required, StrList(granted)).value;
      (set s | s in missing) == (set s | s in required) - (set s | s in granted)
  {
    forall s {
      StrListContains(granted, s);
    }
  }

  /** Granted scopes that no operation requires change nothing. */
  lemma {:induction false} ExtraScopesIrrelevant(required: seq<string>, granted: seq<string>, extra: seq<string>)
    requires forall s :: s in extra ==> s !in required
    ensures MissingScopes(required, StrList(granted + extra)) == MissingScopes(required, StrList(granted))
  {
    if required != [] {
      StrListContains(granted + extra, required[0]);
      StrListContains(granted, required[0]);
      ExtraScopesIrrelevant(required[1..], granted, extra);
    }
  }

  /** What the gate decides once the pipeline has answered for the token:
      authentication first, then the required scopes. */
  function Decide(info: Option<TokenInfo>, required: seq<string>): (d: Decision)
    ensures d != MissingAuthorization
    ensures d == InvalidToken <==> info.None? || !info.value.active
    ensures d == InternalError <==>
      info.Some? && info.value.active && required != [] && !IsContainer(info.value.scopes)
    ensures d.InsufficientScope? ==>
      && info.Some? && info.value.active
      && d.missing != []
      && MissingScopes(required, info.value.scopes) == Some(d.missing)
      && forall s :: s in d.missing <==> s in required && Contains(info.value.scopes, s) == Some(false)
    ensures d.Authorized? ==>
      && info == Some(d.info) && d.info.active
      && forall s :: s in required ==> Contains(d.info.scopes, s) == Some(true)
  {
    if info.None? || !info.value.active then InvalidToken
    else
      match MissingScopes(required, info.value.scopes)
      case None => InternalError
      case Some(missing) =>
        if missing != [] then InsufficientScope(missing)
        else
          assert forall s :: s in required ==> Contains(info.value.scopes, s) == Some(true) by {
            forall s | s in required ensures Contains(info.value.scopes, s) == Some(true) {
              assert s !in missing;
            }
          }
          Authorized(info.value)
  }

  /** The decision of `requires_auth(requiredScopes)` on a request whose
      Authorization header is `header`. */
  function Authorize(cfg: Config, oracles: Oracles, header: Option<string>, requiredScopes: Option<seq<string>>): (d: Decision)
    ensures BearerToken(HeaderText(header)).None? ==> d == MissingAuthorization
    ensures BearerToken(HeaderText(header)).Some? ==>
      d == Decide(Introspect(cfg, oracles, BearerToken(HeaderText(header)).value), Required(requiredScopes))
  {
    match BearerToken(HeaderText(header))
    case None => MissingAuthorization
    case Some(token) => Decide(Introspect(cfg, oracles, token), Required(requiredScopes))
  }

  /** A header that does not start with "Bearer " is refused before any
      strategy runs, and only such a header is refused this way. */
  lemma MissingHeaderFirst(cfg: Config, oracles: Oracles, header: Option<string>, requiredScopes: Option<seq<string>>)
    ensures Authorize(cfg, oracles, header, requiredScopes) == MissingAuthorization
      <==> !StartsWith(HeaderText(header), BearerPrefix)
  {
  }

  /** An invalid token is refused as such whatever the operation requires:
      an unauthenticated caller never learns the scope requirements. */
  lemma AuthenticationBeforeScopes(cfg: Config, oracles: Oracles, header: Option<string>, r1: Option<seq<string>>, r2: Option<seq<string>>)
    requires Authorize(cfg, oracles, header, r1) == InvalidToken
    ensures Authorize(cfg, oracles, header, r2) == InvalidToken
    ensures Introspect(cfg, oracles, BearerToken(HeaderText(header)).value).None?
  {
  }

  /** A single required scope is missing exactly when it is not held. */
  lemma MissingSingle(scope: string, granted: Value)
    requires IsContainer(granted)
    ensures MissingScopes([scope], granted) == if Contains(granted, scope) == Some(true) then Some([]) else Some([scope])
  {
    assert [scope][1..] == [];
    assert MissingScopes([], granted) == Some([]);
    assert [scope] + [] == [scope];
  }

  /** With no scopes required (None or []), every authenticated token passes. */
  lemma NoScopesRequired(info: Option<TokenInfo>)
    requires info.Some? && info.value.active
    ensures Decide(info, []) == Authorized(info.value)
  {
  }

  /** Introspection and test tokens carry a list of scopes, so for them the
      membership test never raises. */
  lemma ListScopesNeverFail(info: TokenInfo, required: seq<string>)
    requires info.scopes.Array?
    ensures Decide(Some(info), required) != InternalError
  {
  }
}
