# Protected Notes API: token trust and scope gate

A Dafny model of the resource server in `rs/main.py`. This is a small Flask service that keeps notes in memory and guards four routes with OAuth2 bearer tokens.

The model covers:

- **Bearer token extraction.** `Gate.BearerToken` reads the token from the `Authorization` header. The header must start with `"Bearer "`. The token is the text after the first space, with surrounding whitespace stripped.
- **The validation pipeline.** `Tokens.Introspect` tries three strategies in order and stops at the first one that yields a token:
  1. a JWT checked against a JWKS endpoint;
  2. an OAuth2 token introspection endpoint (RFC 7662);
  3. in test mode, a fixed table of two tokens.

  Each strategy turns what it learns into one canonical `TokenInfo` of the form `{active, scopes, sub}`.
- **The scope gate.** `Gate.Decide` and `Gate.Authorize` model `requires_auth`. Authentication is decided first: an absent or invalid token gets 401. Then every required scope is checked against the token's scopes: a missing one gets 403, listing the missing scopes in order.
- **The note store.** `Notes.NoteStore` holds the dict `NOTES` and the counter `NEXT_ID`, both updated in place. It also keeps the dict's insertion order.
- **The four routes** (`Routes`). Each runs the gate with its own scope and then acts for the authenticated subject only.

JSON values are modelled with Python's own semantics: truthiness, `dict.get`, `a or b`, and `in` on a list, a dict or a string. The `in` operator raises on any other type, and that case is modelled too. Whitespace is what Python's `str.isspace` accepts. Integers are unbounded, like Python's.

The network and the cryptography are oracles, carried in `Tokens.Oracles`:

- **The introspection POST** yields the JSON body of a 200 reply. It yields None for a transport error, a timeout, another status or a body that is not JSON.
- **JWKS key retrieval and RS256 verification** together yield the decoded claims, or None.

The clock is a parameter: `now` stands for `int(time.time())`. The configuration read from the environment is the datatype `Tokens.Config`.

## Model

| member | source | states |
|---|---|---|
| Text.SplitOnceTail | rs/main.py:167 | `s.split(sep, 1)[1]`: None exactly when `sep` does not occur, otherwise the text after the first occurrence |
| Text.Strip | rs/main.py:167 | `str.strip()`: the result is the input minus a whitespace prefix and a whitespace suffix, and it neither starts nor ends with whitespace |
| Text.StripTrimmed | rs/main.py:167 | stripping text that has no leading or trailing whitespace returns it unchanged |
| Text.Split | rs/main.py:91 | `str.split()`: every piece is a non-empty word with no whitespace |
| Text.SplitKeepsText | rs/main.py:91 | the words of `str.split()`, concatenated, are exactly the non-whitespace characters of the input, in order |
| Text.SplitEmptyIff | rs/main.py:91 | `str.split()` yields no words if and only if the string is all whitespace |
| Text.SplitJoin | rs/main.py:91 | splitting words joined by single spaces gives back exactly those words |
| Text.SplitLayout | rs/main.py:91 | `str.split()` yields exactly the words however they are spaced: any leading whitespace, any non-empty whitespace between words, and any trailing whitespace |
| Json.StrListContains | rs/main.py:173 | membership in a Python list of strings is membership of the string in the list |
| Tokens.NormalizeIntrospection | rs/main.py:86-96 | a reply yields a token exactly when it is an object, its `active` is truthy and its `scope` is falsy or a string (any other scope raises, and the error is caught). The token is active, its `sub` is `sub or username`, and its scopes are a list of whitespace-free words |
| Tokens.IntrospectToken | rs/main.py:70-99 | no endpoint configured means no token, and neither does a failed call. Otherwise the result is exactly the normalisation of the configured endpoint's 200 reply, called with the basic-auth pair when both id and secret are set |
| Tokens.IntrospectionScopesAreWords | rs/main.py:90-91 | the scopes of an accepted reply are the words of its `scope` string, none empty and none holding whitespace; together they keep every non-whitespace character |
| Tokens.IntrospectionScopesRoundTrip | rs/main.py:87-96 | an active reply whose `scope` is words joined by spaces yields exactly those scopes, and `sub or username` as subject |
| Tokens.IntrospectionScopesSpaced | rs/main.py:87-96 | an active reply's `scope` yields exactly its words however they are spaced (leading, repeated or trailing whitespace of any kind) |
| Tokens.NormalizeJwtClaims | rs/main.py:113-119 | a verified JWT always yields an active token whose subject is the `sub` claim (or None) |
| Tokens.JwtScopeSource | rs/main.py:113-114 | the scope claim used is `scope` when truthy, else `scp` when truthy, else none. A string is split on whitespace; any other value is passed through unchanged |
| Tokens.JwtScopesRoundTrip | rs/main.py:113-114 | a JWT whose `scope` claim is words joined by spaces grants exactly those words, whatever `scp` says |
| Tokens.JwtScopesSpaced | rs/main.py:113-114 | a non-empty string `scope` claim grants exactly its words, however they are spaced |
| Tokens.ValidateJwt | rs/main.py:102-122 | a token is produced if and only if a JWKS URL is configured and the verifier accepts the JWT; that token is active |
| Tokens.MockTokenInfo | rs/main.py:125-134 | the test table accepts exactly `test-token` and `read-only`, each as an active token |
| Tokens.Introspect | rs/main.py:137-155 | every token the pipeline yields is active |
| Tokens.JwtWins | rs/main.py:143-146 | a JWT the verifier accepts is decided by its claims alone; introspection and the test table are never consulted |
| Tokens.IntrospectionSecond | rs/main.py:148-151 | when the JWT strategy refuses and introspection accepts, the introspection result is used |
| Tokens.MockLast | rs/main.py:153-155 | when both real strategies refuse, the result is the test table in test mode and None otherwise |
| Tokens.PipelineSound | rs/main.py:137-155 | default deny: any accepted token comes from an enabled strategy, and the result is that strategy's |
| Tokens.NothingConfiguredDeniesAll | rs/main.py:137-155 | with test mode off and neither JWKS nor introspection configured, every token is refused |
| Tokens.MockOnlyTable | rs/main.py:125-134 | under the shipped defaults (test mode only), `test-token` is `user:alice` with read and write, `read-only` is `user:bob` with read, and every other token is refused |
| Gate.BearerToken | rs/main.py:164-167 | a header yields a token if and only if it starts with `"Bearer "`, and the token is the rest of the header, stripped |
| Gate.BearerRoundTrip | rs/main.py:164-167 | a token with no surrounding whitespace is read back unchanged from `"Bearer <token>"` |
| Gate.MissingScopes | rs/main.py:173 | the list comprehension raises exactly when some scope is required and the token's scopes are not a container. Otherwise a scope is in the result if and only if it is required and not held |
| Gate.MissingScopesAppend | rs/main.py:173 | the missing scopes keep the order in which they are required (the result for a concatenation is the concatenation of the results) |
| Gate.MissingIsSetDifference | rs/main.py:173 | for a list of granted scopes, the missing scopes as a set are the required set minus the granted set |
| Gate.ExtraScopesIrrelevant | rs/main.py:173 | granting additional scopes that are not required changes nothing |
| Gate.Decide | rs/main.py:168-178 | 401 `invalid_token` if and only if there is no active token. 500 exactly when a required scope is tested against a non-container. 403 only with a non-empty list of exactly the missing scopes. Authorization only when every required scope is held, and it carries the pipeline's token |
| Gate.Authorize | rs/main.py:163-178 | a header without the `"Bearer "` prefix gets `missing_authorization`. Otherwise the decision is `Decide` applied to what the pipeline yields for the extracted token and to the required scopes (`required_scopes or []`) |
| Gate.MissingHeaderFirst | rs/main.py:164-166 | 401 `missing_authorization` is decided if and only if the header does not start with `"Bearer "` |
| Gate.AuthenticationBeforeScopes | rs/main.py:168-175 | an invalid token is refused as invalid whatever the route requires, and only when the pipeline yields nothing for it |
| Gate.MissingSingle | rs/main.py:173-175 | with one required scope, the missing list is empty when it is held and the scope itself otherwise |
| Gate.NoScopesRequired | rs/main.py:160 | with no scopes required, every authenticated token is authorized |
| Gate.ListScopesNeverFail | rs/main.py:171-173 | a token whose scopes are a list never hits the 500 path |
| Notes.Without | rs/main.py:220 | the key order after `del NOTES[id]` holds exactly the other keys |
| Notes.WithoutIncreasing | rs/main.py:220 | deleting a key keeps the key order ascending |
| Notes.OwnedBy | rs/main.py:189 | the listing holds only notes of `sub` that are stored under the visited keys, and every such note |
| Notes.OwnedByAscending | rs/main.py:189 | notes are listed in ascending id order |
| Notes.OwnedByFrame | rs/main.py:61 | storing a note under a new key leaves the listing over the old keys unchanged |
| Notes.OwnedByAfterCreate | rs/main.py:61-62 | a created note is listed last for its owner and for nobody else |
| Notes.NoteStore.constructor | rs/main.py:41-42 | the store starts empty with the counter at 1 |
| Notes.NoteStore.CreateNote | rs/main.py:52-63 | the note is stored under the counter's value, which no stored note uses, and the counter advances by one. Nothing stored before changes, and the store invariant is kept |
| Notes.NoteStore.ListNotes | rs/main.py:188-189 | the loop returns exactly `OwnedBy` over the insertion order |
| Notes.NoteStore.GetNote | rs/main.py:196-197 | a note is returned if and only if it exists and `sub` owns it, and it is the stored note |
| Notes.NoteStore.DeleteNote | rs/main.py:217-220 | a note is deleted if and only if it exists and `sub` owns it. Only that note is removed, the counter is unchanged and the invariant is kept |
| Notes.SeededStore | rs/main.py:66 | the store at import time holds the note with id 1, owned by `user:alice`, and the counter is at 2 |
| Routes.StatusCode | rs/main.py:166-221 | 401 exactly for a missing or invalid token and 403 exactly for insufficient scope |
| Routes.ErrorCode | rs/main.py:166-219 | a reply carries an `error` member exactly when it is a gate refusal other than the 500, a 404 or a 400 |
| Routes.ErrorCodeDeterminesStatus | rs/main.py:166-219 | replies with the same error code have the same status, and `missing_authorization` and `invalid_token` tell the two 401 refusals apart |
| Routes.ListNotesRoute | rs/main.py:184-190 | a refused request gets the gate's refusal; otherwise the caller's own notes, in insertion order |
| Routes.GetNoteRoute | rs/main.py:192-199 | a refused request gets the gate's refusal. Otherwise 404 exactly when the note is absent or belongs to someone else, and the owner gets the stored note |
| Routes.RequestObject | rs/main.py:204 | `get_json() or {}`: an object body is used as it is, a falsy body becomes `{}`, and any other body has no `.get` |
| Routes.CreateNoteRoute | rs/main.py:201-211 | gate first, then a truthy body that is not an object gives 500 (a falsy body is treated as `{}`), then a falsy title gives 400 `title_required`. Otherwise the note is created for the token subject under the next id. Nothing changes unless a note is created |
| Routes.DeleteNoteRoute | rs/main.py:213-221 | 204 if and only if the caller owns the note, and then only it is removed. Otherwise 404 (or the gate's refusal) and the store is unchanged |
| Routes.ReadOnlyCannotWrite | rs/main.py:132-133 | under the shipped defaults, `read-only` writing gets 403 with `missing: ["write:notes"]` |
| Routes.TestTokenScopes | rs/main.py:131 | the scopes of `test-token` satisfy either route scope |
| Routes.TestTokenMayWrite | rs/main.py:130-131 | under the shipped defaults, `test-token` passes the read and the write gate as `user:alice` |
| Routes.UnknownTokenInvalid | rs/main.py:134 | under the shipped defaults, every other bearer token is refused as invalid, whatever the route requires |

## Left out

- `client/api/main.py` is not part of this model. It is the OAuth client side of the demo and only performs HTTP calls.
- The network and the cryptography are oracles:
  - the HTTP POST to the introspection endpoint, with its 5-second timeout;
  - fetching the JWKS and selecting the signing key;
  - RS256 verification and expiry checking.

  A function value cannot vary between calls, so the model assumes each oracle answers the same for the same token. Exceptions raised inside these calls, and logged, collapse to None.
- Reading the environment is not modelled: `Tokens.Config` is given already parsed. This includes the `TEST_MODE` parsing, which lower-cases the value and compares it with `1`/`true`/`yes`.
- The clock is not modelled: `int(time.time())` is the parameter `now`.
- Flask plumbing is not modelled: `jsonify`, the response bodies beyond their `error` member (`Routes.ErrorCode`), routing, and `request.token_info`.
- `request.get_json`'s own errors are not modelled: a request that is not JSON, or holds malformed JSON, gets 415 or 400 from Flask when the route calls `request.get_json()`, after the gate has authorized the request. `Routes.CreateNoteRoute` takes an already decoded body.
- `<int:note_id>` is modelled as a natural number, since Flask's int converter accepts no sign.
- Not modelled because they are not part of the token and note logic:
  - the health endpoint;
  - the startup printing;
  - `app.run`.
- Concurrency is not modelled: Flask may serve requests on several threads, and `NEXT_ID += 1` is not atomic. The model runs one request at a time.
- JSON numbers are integers; floats are not modelled.
- Python's cross-type equality is not modelled: `True == 1` and `1 == 1.0` make values of different types compare equal. The owner comparison in `list_notes`, `get_note` and `delete_note` is structural equality of `Json.Value`.
- `auth.split(' ', 1)[1]` can raise `IndexError` only when the header has no space. A header starting with `"Bearer "` always has one, and `Gate.BearerTail` proves this, so that path is absent.
- `Tokens.Introspect` states only that results are active. Which strategy answers is stated by the lemmas `JwtWins`, `IntrospectionSecond`, `MockLast` and `PipelineSound`, and not in its own contract.
- Not stated as contracts; each is visible in the definitions:
  - a truthy `active` that is not `true` (for example `"yes"`) is accepted by introspection;
  - tokens without a subject all share the owner None.
