# Token service: a verified model

The token service stores users, tokens, scopes and audit records in a relational database. Tokens
form a parent/child forest: a root's secret is stored as a bcrypt text, a subtoken's secret is
stored as it is and the subtoken takes its parent's time window, and a session token is a root that
is only ever used as a parent. Tokens are created, attested (made rotatable), rotated, refreshed
(sessions), invalidated and deleted with everything below them.

This project models that life cycle in Dafny and proves what holds over every run of it, together
with three smaller parts of the service: the time-limited cache, the audit listing and the Kerberos
name policy. `dafny verify dfyconfig.toml` checks everything.

## Layout

| file | contents |
|---|---|
| `Model.dfy`, `Text.dfy`, `Prelude.dfy` | rows of the store, errors, `id.secret` strings |
| `Forest.dfy` | parent links, reachability, the cascade as a worklist, forests |
| `Schema.dfy` | constraints, staged work, what a flush does, in which order, and keeps |
| `UnitOfWork.dfy` | the database and the session classes: staging, flush before a query, commit, what leaving a unit does |
| `Authentication.dfy` | `matches`, `valid`, `authenticated` |
| `ServiceSpec.dfy` | the effect of each service call on whole tables |
| `Bodies.dfy` | the body of each service on an open transaction, and that run outermost it has that effect |
| `Services.dfy` | the methods: each body on a session, and its outermost form that commits |
| `Nesting.dfy`, `FlushOrder.dfy`, `NestingResults.dfy`, `PairResults.dfy` | services that join an outer unit of work, and where the order of one flush matters |
| `Lifecycle.dfy` | runs: one unit of work per step, a log that never feeds back, the invariant of all reachable worlds |
| `History.dfy`, `Atomicity.dfy`, `Deletion.dfy`, `SessionResults.dfy`, `CredentialResults.dfy`, `RotationResults.dfy`, `CreationResults.dfy` | the main results over calls and runs |
| `Outcomes.dfy` | what each remaining call does in each case, written out in columns |
| `Examples.dfy` | concrete inputs for the differences listed below |
| `TimedCache.dfy`, `AuditLog.dfy`, `Kerberos.dfy` | the three smaller parts |

A run starts from any users and scopes and no tokens. A step is one unit of work, so a request with
two units is two steps with any other steps in between: a `Rotate` step only needs that some earlier
`Present` step authenticated as its token, and a `Lookup` step is the second unit of the
impersonation route. Clocks read inside a unit do not go back, ids drawn by `uuid4` were never drawn before, secrets
are URL-safe and bcrypt texts contain `$`. The log remembers of each token the string its creation
or last rotation returned (`minted`) and the last string any call handed out for it (`handed`).

## Where the code differs from what it says

- `create_token` and `remove_user` mean to turn a missing scope or user into the service's own
  `NotFound` (`services.py:134-135`, `services.py:400-401`). The repository's `NotFound` is raised
  inside the unit of work and is a different class, so it reaches the caller unchanged
  (`RepoNotFound` in the model), in exactly the cases `CreationResults.CreationOutcomes` and
  `Deletion.UserRemovalIsExact` give; the clause meant for it never runs
  (`NestingResults.NotFoundClauseNeverRuns`). Inputs: `Examples.MissingScope`, `Examples.MissingUser`.
- The token notes say that rotation serves eligible tokens after attestation. Rotating a subtoken
  stores a bcrypt text where subtokens are compared as stored text, so the string that rotation
  returns works exactly when the rotated token is a root
  (`RotationResults.RotatedStringWorksForRoots`); of a rotated subtoken the id with the bcrypt text
  is accepted instead. Input: `Examples.RotatedSubtoken`.
- Repeating an impersonated creation answers with the existing token only if it has a single holder
  of its name, parent and external id, and with the first string only while it was not rotated
  (`CreationResults.RepeatedCreationReturnsTheFirst`). For a root the outcome depends on how the
  parent id is left out: an empty one fails on the missing row, a null one is answered with the
  stored text (`CreationResults.RepeatedRootCreation`), which never authenticates
  (`CredentialResults.RootTextNeverWorks`). Input: `Examples.RepeatedRoot`.
- A scope listed twice violates the key of the association table and, for a known owner, is
  reported as an existing token name (`CreationResults.CreationOutcomes`). Input:
  `Examples.ScopeListedTwice`.

## Model

| member | source | states |
|---|---|---|
| Text.Split | token_service/services.py:72 | splitting a token string never yields an empty list, its pieces hold no separator and joining them gives the string back |
| Text.SplitUndoesJoin | token_service/services.py:72 | splitting undoes joining for separator-free pieces |
| Text.ParseIsInverse | token_service/services.py:69-103 | a string unpacks into id and secret exactly when both are dot-free and printing them gives that string |
| Forest.Cascade | token_service/store/orm.py:159 | the delete worklist terminates with exactly the stored tokens downward reachable from its roots |
| Forest.BelowIsLeast | token_service/store/orm.py:159 | that set is the least downward closed set holding the stored roots |
| Forest.ForestHasNoCycle | token_service/store/orm.py:69 | in a forest no token is its own ancestor and every parent is stored |
| Forest.ForestGrows | token_service/services.py:126-133 | adding a token under a stored parent or as a root keeps a forest |
| Forest.ForestShrinks | token_service/store/repository.py:81-86 | deleting a downward closed set keeps a forest |
| Schema.FlushedIsSound | token_service/store/orm.py:62-109 | whatever work was staged, a successful flush leaves tables meeting all key, unique and reference constraints |
| Schema.CascadeKeepsSound | token_service/store/orm.py:188-201 | deleting users with their tokens and all descendants leaves no dangling reference |
| UnitOfWork.Session.Flush | token_service/service/uow.py:84-88 | staged rows are written users first, then tokens, then audit records, a row added under the key of a marked one as an update in place, then the rest is deleted; on a violation nothing is applied, and undoing earlier flushes of the session is left to the end of the unit |
| UnitOfWork.Session.Query | token_service/store/orm.py:250-257 | a query first flushes what was staged; a violation is raised unmapped, and the rollback it causes is left to the end of the unit |
| UnitOfWork.Session.Commit | token_service/service/uow.py:82-99 | commit publishes the flushed tables or rolls back to the old ones and maps the violation; what it publishes is sound |
| UnitOfWork.Session.Close | token_service/service/uow.py:79-101 | leaving the outermost unit: an exception in the body skips the commit and passes unmapped unless a clause names it, a refused commit changes nothing and is mapped, else everything is published |
| FlushOrder.FlushOfOneMore | token_service/store/orm.py:154-201 | staging one more row that is not related to those staged before is inserting it after their flush, although the flush writes by table |
| FlushOrder.RecordsMayGoFirst | token_service/store/orm.py:170-173 | where no audit record is staged with its token it makes no difference which of the two unrelated tables is written first |
| Bodies.OutermostIsCall | token_service/service/uow.py:79-101 | every service body, run in a unit of its own, has exactly the effect stated for the call on whole tables |
| Nesting.Join | token_service/service/uow.py:36-41 | a service called inside an outer unit runs its body on the outer session and commits nothing |
| Nesting.JoinTwo | token_service/service/uow.py:36-41 | two services in one outer unit: nothing is committed before it is left, and leaving it flushes and publishes the inlined bodies or changes nothing |
| Nesting.UnitIsAtomic | token_service/service/uow.py:79-101 | for any services in one outer unit: the commit publishes the flush of all inlined work, which meets every constraint, or the tables stay as they were, earlier bodies included |
| Nesting.BodiesPassTheirClauses | token_service/services.py:134-139 | no body raises an exception its own except clauses would catch |
| NestingResults.MappedExactlyWhenOutermost | token_service/service/uow.py:82-99 | nested and outermost a service changes the same tables and fails in the same cases; its except clauses apply exactly to a commit it makes itself |
| NestingResults.NestedCreationReturns | token_service/services.py:106-141 | a creation refused as existing when outermost is one that, nested, returns its string and makes the outer commit fail as existing |
| NestingResults.UnitIsLikeInTurn | token_service/service/uow.py:36-41 | any number of services in one unit act like the same services one after the other, all or nothing, when among those with no query in between none removes before another and none stages a user after a token of that user, or a token and an audit record of it |
| PairResults.PairIsLikeInTurn | token_service/service/uow.py:36-41 | two services in one unit, with new ids and no audit record staged with its token, act like one after the other if and only if it is neither a removal followed by an unqueried creation that clashes with a removed token, which fails, nor a token followed by its new user, which succeeds |
| PairResults.RemovedUserReturns | token_service/service/uow.py:36-41 | a user removed and added again in one unit acts like the two calls in turn |
| Services.CreateToken | token_service/services.py:106-141 | lookups, hashing of roots, staging and commit have exactly the effect of one refused or accepted insert |
| Services.UpdateSession | token_service/services.py:144-162 | remove, flush, add and commit have exactly the effect of keeping, replacing or storing the session |
| Services.StartSession | token_service/routers/mfa.py:38-47 | the route offers a session with a window fixed at its own clock reading and returns the id kept or stored |
| Services.RemoveTokenById | token_service/services.py:196-205 | deletes an owned token and everything below it, or reports why not and changes nothing |
| Services.RemoveTokenByValue | token_service/services.py:208-220 | as by id, after unpacking the string |
| Services.RemoveTokenByName | token_service/services.py:223-230 | removes some owned token of that name, as by id |
| Services.RemoveUser | token_service/services.py:396-401 | deletes the user, the user's tokens and everything below them, or nothing |
| Services.RemoveScope | token_service/services.py:489-495 | deletes a scope and takes it off every token, or raises the error of the repository |
| Services.InvalidateToken | token_service/services.py:79-89 | clears the flag of the stored token named by the string and changes nothing else |
| Services.MakeRotatable | token_service/services.py:288-313 | checks all tokens before updating; the update loop sets exactly the listed flags |
| Services.RotateToken | token_service/services.py:316-347 | new hashed secret, new end, flag cleared, in one commit, or an error and no change |
| Services.PresentToken | token_service/dependencies.py:66-86 | the authenticator returns the id part exactly when the nested check accepts, and writes nothing |
| Services.CreateUser | token_service/services.py:350-359 | stores a new user or reports the existing one |
| Services.AuditEvent | token_service/services.py:498-516 | appends a record for a stored token, else fails and stores nothing |
| Services.AuditCleanup | token_service/services.py:519-524 | drops exactly the records older than the cutoff and touches nothing else |
| Services.CreateTokenForUser | token_service/internal/tokens.py:59-89 | creates, and on a taken name answers from a lookup in a second unit of work |
| Lifecycle.ReachableKeeps | token_service/services.py:46-347 | every reachable world meets the schema, is a forest, and each stored row agrees with the log of how it came about |
| Atomicity.CallsAreAtomic | token_service/service/uow.py:79-101 | every service call fails with the tables unchanged or commits tables meeting every constraint |
| Deletion.ReachableStoreIsForest | token_service/services.py:58-64 | in every reachable store the links form a finite forest and a token's own window bounds it exactly when it is a root |
| Deletion.BelowIsAncestry | token_service/store/orm.py:159 | reachable downward from a set is the same as walking up parent links into it |
| Deletion.TokenRemovalIsExact | token_service/services.py:196-205 | removal deletes exactly the token and its descendants and leaves the rest untouched; it is refused without change exactly when an audit record refers to one of them, and as not found exactly when the user does not own it |
| Deletion.UserRemovalIsExact | token_service/services.py:396-401 | the same for a user, whoever owns the descendants; an unknown user gives the repository's error, never the service's own |
| Deletion.RemovalRoutesAgree | token_service/services.py:208-230 | removal by value ignores the secret, removal by name removes the picked token of that name, both as by id, or says in which case it does not |
| History.RowsKeepTheirOrigin | token_service/services.py:79-162 | over any run a token stored at both ends has the same identity, owner, name, parent, external id, start and kind, its scopes are the old ones without those removed in between, a cleared flag stays cleared, value and end are equal unless a rotation of it succeeded in between, and a deleted id never returns |
| SessionResults.SessionsAreUniqueRoots | token_service/store/repository.py:66-79 | reachable session tokens are plain-valued roots without external id, at most one per user and name |
| SessionResults.LiveSessionIsKept | token_service/services.py:150-153 | a live session is returned and nothing changes |
| SessionResults.DeadSessionIsReplaced | token_service/services.py:154-159 | a dead session and exactly its descendants give way to the new one, a first one is added, all other tables stay; which failure is reported in exactly which case, and failure changes nothing |
| SessionResults.OneFlushWouldConflict | token_service/services.py:154-157 | staged in one flush, the removal of a stored session and the addition of a new one with a newly drawn id always conflict |
| SessionResults.SessionWindowIsFixed | token_service/routers/mfa.py:34-35 | over every continuation a stored session keeps the window it was created with |
| SessionResults.ExpiredSessionStaysShut | token_service/services.py:53-75 | once a session has expired no token ever made directly under it authenticates again, whatever steps follow |
| SessionResults.LiveSessionIsReused | token_service/routers/mfa.py:26-47 | while a session is stored and live every further request gets its id and changes nothing |
| CredentialResults.AuthenticationIsTheLastMinted | token_service/services.py:53-75 | in every reachable store a string authenticates exactly when it is the one that creation or the last rotation returned for a stored, flagged, non-session token and the time lies strictly inside its parent's window, or its own if it is a root (for a subtoken that stores a bcrypt text: its id and that text) |
| CredentialResults.HandedStringWorks | token_service/internal/tokens.py:59-89 | the last string handed out for a valid token, by creation, rotation or lookup, authenticates if and only if: for a root, it was no lookup; for a subtoken, the stored text is no bcrypt text or it was a lookup and the text has no dot |
| CredentialResults.LookupStringWorks | token_service/internal/tokens.py:79-89 | the lookup answers with id and stored text of a stored token; for a valid non-session token that string authenticates if and only if it has a parent and the text has no dot |
| CredentialResults.RootTextNeverWorks | token_service/services.py:46-50 | a root's stored text never authenticates as it, now or after any steps |
| CredentialResults.SessionNeverAuthenticates | token_service/services.py:46-50 | a string naming a session raises inside the window and is refused outside it |
| CredentialResults.DisabledForGood | token_service/services.py:79-89 | after invalidation or removal no string authenticates as that token in any continuation |
| CredentialResults.ExtractedIdWasAuthenticated | token_service/dependencies.py:75-76 | the id the authenticator extracts is that of the stored valid token whose secret matched |
| RotationResults.RotationsArePaidFor | token_service/routers/tokens.py:61-76 | over every interleaving, rotations of a token plus its remaining flag never exceed its attestations plus the flag it started or was created with |
| RotationResults.CreatedRotatableAtMostOnce | token_service/adapter.py:15-25 | creation contributes at most one rotation |
| RotationResults.AttestationBetweenRotations | token_service/services.py:333-343 | two successful rotations of a token always have a successful attestation between them |
| RotationResults.AttestationIsAllOrNothing | token_service/services.py:288-313 | attestation fails as not found or invalid in exactly the stated cases, windows in columns, and changes nothing, else exactly the listed flags are set and nothing else changes, whatever the order or repetition in the list |
| RotationResults.RotationMovesTheWindow | token_service/services.py:323-343 | after a rotation the rotated root and the flagged direct subtokens of the rotated token are valid exactly from its old start to the granted days from now, at most the maximum; every other token is valid exactly when it was |
| RotationResults.RotationReplacesTheSecret | token_service/services.py:336-345 | after a rotation, while the token is valid, one string authenticates as it: the returned one for a root, the id with the bcrypt text for a subtoken |
| RotationResults.RotatedStringWorksForRoots | token_service/services.py:336-345 | the string a rotation returns authenticates, while the token is valid, if and only if the rotated token is a root |
| CreationResults.CreationOutcomes | token_service/services.py:106-141 | for each error the exact cases in which a creation raises it, without change, widths of name, owner and external id included, and otherwise the exact row that is added, value included |
| CreationResults.StoredTokenRefusesItsTwin | token_service/store/orm.py:81-87 | while a token is stored, creating its owner, name, parent and external id again is refused as existing, whatever the new id and secret |
| CreationResults.LookupFindsTheOne | token_service/store/repository.py:49-64 | the lookup answers with the stored text exactly when a single token has that name, parent and external id, else it fails on several rows |
| CreationResults.RepeatedCreationReturnsTheFirst | token_service/internal/tokens.py:79-89 | a repeated impersonated subtoken creation changes nothing and is answered with the stored text exactly when no one else holds its name, parent and external id; that is the minted string exactly when the text is no bcrypt text |
| CreationResults.RepeatedRootCreation | token_service/internal/tokens.py:79-89 | for a root and every way to leave the parent id out: an empty one fails on the missing row, a null one is answered with the stored text exactly when there is a single holder, else fails on several rows |
| CreationResults.FirstStringComesBack | token_service/internal/tokens.py:59-89 | with any steps before and between the two units of the repeated request: refused while the first token is stored, then answered with the very string of the first call if and only if the token was not rotated and nobody else holds its name, parent and external id |
| Outcomes.AuthenticationOutcomes | token_service/services.py:46-75 | in every reachable store: refused outside the window of the parent, or of a root itself, or without the flag; inside it a subtoken accepts exactly its stored text, a root exactly the secret of its bcrypt text, and a root without one raises |
| Outcomes.OtherStrings | token_service/services.py:69-71 | a string that is not two parts around one dot raises in every call that unpacks it, without change |
| Outcomes.PresentationOutcomes | token_service/dependencies.py:66-86 | an accepted string is answered with its id, a refused one with 401, an error is passed on |
| Outcomes.InvalidationOutcomes | token_service/services.py:79-89 | clears exactly the flag of the token named, or reports it missing |
| Outcomes.RotationOutcomes | token_service/services.py:316-347 | each error of a rotation in exactly its cases and without change, and otherwise the returned string and the exact new row |
| Outcomes.LiveSessionAnswers | token_service/services.py:150-153 | a session request with a live session is answered with its id and changes nothing |
| Outcomes.SessionOutcomes | token_service/routers/mfa.py:38-47 | without a live session: each failure in exactly its cases and without change, and otherwise the new id, the deletions and the exact row stored |
| Outcomes.LookupOutcomes | token_service/store/repository.py:49-64 | the lookup fails on no holder, fails on several, and else answers with id and stored text of the one |
| Outcomes.RouteOutcomes | token_service/internal/tokens.py:59-89 | the route answers as the creation does unless the token exists; then the lookup answers and nothing changes |
| Outcomes.UserCreationOutcomes | token_service/services.py:350-359 | each error of a user creation in exactly its case, and otherwise the user is stored |
| Outcomes.ScopeRemovalOutcomes | token_service/services.py:489-495 | a removed scope is no longer stored and on no token, and nothing else changes |
| Outcomes.AuditOutcomes | token_service/services.py:498-516 | a record is appended exactly when its token is stored and its columns fit |
| Outcomes.CleanupOutcomes | token_service/services.py:519-524 | keeps every record not older than the given days of 24 hours as often as it was stored, and no other |
| Outcomes.StagedViolationSurfaces | token_service/store/orm.py:250-257 | a violation among staged rows is raised unmapped by the next service that queries, a value too long as a data error |
| Examples.MissingScope | token_service/services.py:121-135 | a concrete creation that surfaces the repository's error |
| Examples.MissingUser | token_service/services.py:396-401 | a concrete user removal that surfaces the repository's error |
| Examples.ScopeListedTwice | token_service/store/orm.py:105-110 | a concrete creation with a doubled scope that is reported as existing |
| Examples.RotatedSubtoken | token_service/services.py:338 | a four-step run after which the string the rotation returned is refused and the id with the bcrypt text accepted |
| Examples.RepeatedRoot | token_service/pydantic_models.py:17-20 | a repeated root request that fails with an empty parent id and is answered with a refused string with a null one |
| TimedCache.TimedLruCache.constructor | token_service/utils.py:7-10 | a decorated function starts empty with its first window set |
| TimedCache.TimedLruCache.Invoke | token_service/utils.py:13-18 | a call empties a finished window, answers from the cache or runs the function, and keeps recency order |
| TimedCache.CallOutcomes | token_service/utils.py:13-18 | one call in full: when the entries are dropped and when the next window ends, hit or miss, the answer, and the new entries in recency order |
| TimedCache.EntriesAreBacked | token_service/utils.py:13-18 | every cached value was computed by an earlier successful call inside the current window |
| TimedCache.AnswersAreFresh | token_service/utils.py:13-18 | over any history a cached answer was computed less than the lifetime before the call's check, despite two clock readings |
| TimedCache.AgreesWhileUnchanged | token_service/dependencies.py:371-393 | while the wrapped function keeps its value since the window began, the cached function agrees with it |
| TimedCache.CacheIsBounded | token_service/utils.py:9 | never more than `maxsize` entries, one per key |
| TimedCache.RecentlyUsedStays | token_service/utils.py:9 | a key stays cached while the window lasts and fewer than `maxsize` other keys are used |
| TimedCache.OncePerWindow | token_service/utils.py:13-18 | with at most `maxsize` keys in play the function returns at most once per key and window |
| AuditLog.Filters | token_service/services.py:541-558 | the filter list selects exactly the rows meeting every criterion given |
| AuditLog.List | token_service/store/repository.py:200-223 | the query built clause by clause yields the asked slice of the filtered rows in order |
| AuditLog.ListAudits | token_service/services.py:529-569 | returns the asked page of the listing and the next page number exactly when the page is full |
| AuditLog.SliceOutcomes | token_service/store/repository.py:217-223 | offset and limit give exactly the asked rows, nothing past the end, and are rejected when negative |
| AuditLog.PageOutcomes | token_service/services.py:560-569 | for every page number and size the exact rows of the page, and the next number exactly for a full one |
| AuditLog.ListingIsOrderedSelection | token_service/store/repository.py:207-216 | timestamps ascend, or descend when asked, and the listing holds exactly the rows with every wanted column value, with their multiplicity |
| AuditLog.PagesCoverTheListing | token_service/services.py:560-569 | following next-page takes n / size + 1 fetches and the pages concatenate to the listing |
| AuditLog.CleanupLeavesASuffix | token_service/services.py:519-524 | with ties in any fixed order that the cleanup keeps, an ascending listing after it is the suffix of the old one from the cutoff on |
| AuditLog.CleanedListingIsSuffix | token_service/services.py:519-569 | the same for the listing the service builds, ties in table order |
| Kerberos.RPartitionIsLast | token_service/auth/kerberos.py:220 | the split is at the last separator, and there is none exactly when the character is absent |
| Kerberos.UidRebuildsPrincipal | token_service/auth/kerberos.py:217-239 | a principal becomes a uid exactly when uid, `@` and an allowed realm rebuild it and the uid has no instance part |
| Kerberos.PrincipalOutcomes | token_service/auth/kerberos.py:217-239 | each refusal of a principal in exactly its case |
| Kerberos.UidsAreDistinctIffOneRealm | token_service/auth/kerberos.py:140-151 | accepted principals have distinct uids exactly when at most one realm can match, which the one-realm check, that accepts any single realm and nothing else, ensures |
| Kerberos.AsRealmTuple | token_service/auth/kerberos.py:69-74 | the realms read from a string are non-empty, trimmed and comma-free; a list passes through as it is |
| Kerberos.StripIsTrim | token_service/auth/kerberos.py:73 | stripping gives the one text without outer whitespace that whitespace pads to the string |
| Kerberos.SpacesListed | token_service/auth/kerberos.py:73 | the characters stripped are the twenty-nine listed |
| Kerberos.RealmsOfText | token_service/auth/kerberos.py:72-73 | a string is read piece by piece in order, each comma-free piece giving its trimmed text or nothing if blank |
| Kerberos.RealmsRoundTrip | token_service/auth/kerberos.py:69-74 | reading inverts comma-joining such realms, and reading what was read, as a list or joined again, changes nothing |

## Left out

- Authentication.CheckPw: hashing is ideal; cost factor, salts and the 72-byte limit of bcrypt are not modelled.
- Services.RotateToken: a day is 24 hours; adding calendar days across a daylight-saving change in the host's time zone is not modelled.
- UnitOfWork.Session.Flush: attribute updates live in the session's tables, not in shared mutable token objects. A violation also rolls back what the session flushed before; here that is undone when the unit ends, as it must, because the violation is raised.
- UnitOfWork.Session.Flush: audit records are written after tokens, an order the mapping leaves open; it only matters to a record staged with its own token (`FlushOrder.RecordsMayGoFirst`), and the results on joined services exclude that.
- Schema.TokenRefusal: the widths of columns the service fills itself (ids, stored texts) are not checked, and an over-long value is refused even where Postgres would cut off trailing blanks.
- PairResults.PairIsLikeInTurn: says nothing of a creation under the id of a stored token right after a removal (ids are drawn by `uuid4`), nor of an audit record and its own token in one flush (their order is open).
- Nesting.JoinTwo: an outer unit that catches a service's exception and goes on is not modelled; here it ends.
- Services.RemoveTokenByName: which of several tokens of one name goes first is left open, as the query leaves it.
- AuditLog.List: rows with equal timestamps keep table order, a fixed choice among those the database may make.
- Kerberos.UidRebuildsPrincipal: the GSSAPI handshake that yields the principal, credentials and environment settings are not modelled.
- Kerberos.AsRealmTuple: the items of a configured list are strings already; `str()` of other values is not modelled.
- Columns nothing here reads (`iat`, `paths`, `last_used`) and the default values of a token request.
- Database isolation anomalies and SQLite: units of work are serial, nulls are not distinct and negative limits are rejected, as on Postgres.
- Plain lookups and listings of users and tokens, and `update_token_last_used`.
- Creation of scopes (a run starts with any), groups, admin-token management, admin roles and the local developer login: easy members that add no hard property.
- JWT encoding and validation, OIDC redirects, HTTP routing and status codes, migrations, command line and settings.
- Ownership agreement between parent and subtoken and windows of grandparents: the code does not establish them.
