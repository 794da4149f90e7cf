# Tilla POS backend: sessions, tokens, guards and variant updates, in Dafny

This project models four parts of the Tilla POS backend (a NestJS point-of-sale server):

- the **session service**: sign-in sessions, the devices they run on, and the location trail of each device. It covers creating a session, revalidating it on a repeat sign-in, rotating its refresh token, revoking it, and listing a user's devices grouped as current, active and inactive;
- the **JWT provider**: which claims go into access and refresh tokens, and how a refresh token is told apart;
- the **access-token and refresh-token guards**: they read the bearer token from the `Authorization` header and store the verified payload as the request user;
- the **variant provider**: the rules for creating, updating and soft-deleting a variant (a sellable version of an item). These rules are the margin rule, which fields a partial update overwrites, when the modifier list is replaced, and the order in which NotFound and Forbidden are raised.

Files:

- `common.dfy`: `Option`, `Result` and the HTTP exceptions the services raise.
- `session_model.dfy` (module `SessionModel`): the session store as pure transitions over a `Db` value, plus the store invariant and lemmas about sequences of calls.
- `device_grouping.dfy` (module `DeviceGrouping`): what the device grouping promises, the activity comparator, and the sort.
- `session_service.dfy` (module `SessionService`): the class `SessionStore`. Its fields are the sessions, devices and locations tables and the uuid counter. Each state-changing method is tied to its transition in `SessionModel`. The read-only queries state their answers directly.
- `jwt.dfy` (module `Jwt`): the provider's claim layer over an abstract signing library.
- `bearer.dfy` (module `BearerHeader`): `split(' ')` and the token read from the header.
- `guards.dfy` (module `Guards`): the two guards, as classes that update the request object.
- `array_compare.dfy` (module `ArrayCompare`): `areArraysEqual`, with the string sort it relies on.
- `variant_model.dfy` (module `VariantModel`): the variant rules as functions over the catalogue, with their properties.
- `variant_provider.dfy` (module `Variants`): the class `VariantProvider` over the variant, item and modifier rows.

Modelling choices:

- **Identifiers.** Every uuid the session service draws comes from one counter. This covers `uuidv4()` for token ids ("jtis") and the keys the database generates for new rows. A drawn identifier is therefore provably new.
- **Clock.** The clock is a `now` parameter.
- **Signing library.** The JWT library is an abstract `Signer` with two total functions, sign and verify. The one fact assumed of it is `VerifyUndoesSign`: a signed token verifies to the claims it was signed with.
- **Truthiness.** JavaScript truthiness is written out. A string is truthy when it is non-empty, a number when it is non-zero, an optional field when it is present.

## Model

| member | source | states |
|---|---|---|
| SessionModel.FindDevice | src/session/session.service.ts:33-38 | the device row found for (deviceId, user) belongs to that user and carries that deviceId; None means the user has no such row |
| SessionModel.NewDevice | src/session/session.service.ts:42-45 | a new row belongs to the user, carries the reported deviceId and columns, and is trusted only when the client sent `trusted: true` |
| SessionModel.UpsertDevice | src/session/session.service.ts:31-47 | reuses the user's row for the deviceId and changes nothing; otherwise inserts exactly one new row with the reported columns; `trusted` is false unless true was sent; no existing row changes; the store invariant holds |
| SessionModel.RecordLocation | src/session/session.service.ts:50-56 | appends exactly one location for the device when location info is given; otherwise nothing changes |
| SessionModel.CreateSession | src/session/session.service.ts:25-72 | adds exactly one new active session of the user, stamped `now`; it carries two fresh jtis, distinct from every stored jti and returned to the caller; it is bound to a device exactly when device info was given; other sessions are untouched; a location is appended only with a device |
| SessionModel.Revalidate | src/session/session.service.ts:111-140 | NotFound for an unknown session; Unauthorized for a revoked one, with the store unchanged; otherwise only that session changes: its two jtis are replaced by fresh ones and lastSeenAt is set to `now`; the location is recorded only when the session has a device |
| SessionModel.ValidateAndRotateRefresh | src/session/session.service.ts:189-216 | succeeds iff the session exists, is not revoked and the presented jti is its refresh jti; it then rotates both jtis to fresh ones; every failure is "Invalid refresh token" and revokes an existing session |
| SessionModel.RevokeSession | src/session/session.service.ts:174-182 | NotFound for an unknown session; otherwise stamps `revokedAt` on that session only and returns it |
| SessionModel.Apply | src/session/session.service.ts:25-216 | every state-changing call preserves the store invariant: ids drawn from the counter, one device row per (user, deviceId), sessions and locations pointing at their user's devices |
| SessionModel.Run | src/session/session.service.ts:25-216 | any sequence of calls preserves the store invariant |
| SessionModel.ApplyKeepsSession | src/session/session.service.ts:111-216 | one call never deletes a session, never rebinds it to another user or device, and never un-revokes it |
| SessionModel.RevocationIsTerminal | src/session/session.service.ts:194-204 | after any sequence of calls a revoked session is still stored, still revoked, and has the same owner, device and jtis |
| SessionModel.SessionsPersist | src/session/session.service.ts:25-216 | no sequence of calls removes a session |
| SessionModel.RevokedNeverRefreshes | src/session/session.service.ts:194-204 | after any calls, a refresh of a revoked session fails with "Invalid refresh token", whatever jti is presented |
| SessionModel.RevokedNeverRevalidates | src/session/session.service.ts:117-119 | after any calls, a revoked session cannot be revalidated |
| SessionModel.ReplayAfterRotationRevokes | src/session/session.service.ts:189-216 | presenting a refresh jti a second time after it rotated fails and revokes the session |
| SessionModel.WrongJtiKillsSession | src/session/session.service.ts:194-204 | a wrong jti revokes the session, so its jti that was current is refused afterwards |
| SessionModel.RevalidateRetiresOldRefreshJti | src/session/session.service.ts:130-136 | after a repeat sign-in the old refresh jti no longer refreshes and the returned one does |
| SessionModel.CreatedSessionRefreshes | src/session/session.service.ts:59-71 | a new session refreshes with exactly the refresh jti createSession returned |
| SessionModel.CreateSessionKeepsDevices | src/session/session.service.ts:31-47 | createSession keeps every stored device row, and a session opened on a device the user already registered is bound to that existing row |
| SessionService.RegisteredDeviceIsKnown | src/session/session.service.ts:75-80 | a device the user registered is reported as existing |
| SessionService.KnownDeviceMayBelongToAnother | src/session/session.service.ts:75-80 | the existence check ignores the owner: another user's deviceId answers true for a user who has no such device |
| SessionService.MostRecentExists | src/session/session.service.ts:102 | a non-empty set of sessions has one with the greatest lastSeenAt, so ordering by lastSeenAt descending always has a first row |
| SessionService.SessionStore.constructor | src/session/session.service.ts:14-23 | starts from empty tables, which satisfy the store invariant |
| SessionService.SessionStore.NewUuid | src/session/session.service.ts:59-60 | hands out an identifier never handed out before and changes no table |
| SessionService.SessionStore.UpsertDevice | src/session/session.service.ts:31-47 | the new state and device row are those of SessionModel.UpsertDevice |
| SessionService.SessionStore.RecordLocation | src/session/session.service.ts:50-56 | the new state is that of SessionModel.RecordLocation |
| SessionService.SessionStore.CreateSession | src/session/session.service.ts:25-72 | the new state and returned jtis are those of SessionModel.CreateSession |
| SessionService.SessionStore.CheckIsDeviceExists | src/session/session.service.ts:75-80 | true iff some device row of any user carries the deviceId |
| SessionService.SessionStore.FindActiveSessionByDevice | src/session/session.service.ts:85-106 | returns a live session of the user on their device with that deviceId, with the greatest lastSeenAt among all such sessions; None iff there is none |
| SessionService.SessionStore.RevalidateSession | src/session/session.service.ts:111-140 | the new state and result are those of SessionModel.Revalidate |
| SessionService.SessionStore.GetUserSessions | src/session/session.service.ts:142-147 | returns exactly the user's session rows, revoked ones included, as stored |
| SessionService.SessionStore.GetUserDeviceById | src/session/session.service.ts:149-163 | returns the row iff it exists and belongs to the user; otherwise NotFound "Device not found" |
| SessionService.SessionStore.GetSessionById | src/session/session.service.ts:165-172 | returns the stored session iff it exists; otherwise NotFound "Session not found" |
| SessionService.SessionStore.RevokeSession | src/session/session.service.ts:174-182 | the new state and result are those of SessionModel.RevokeSession |
| SessionService.SessionStore.ValidateAndRotateRefresh | src/session/session.service.ts:189-216 | the new state and result are those of SessionModel.ValidateAndRotateRefresh |
| SessionService.SessionStore.ScanDeviceSessions | src/session/session.service.ts:257-272 | the inner loop finds whether the device has an unrevoked session, and its greatest lastSeenAt (None iff it has no sessions) |
| SessionService.SessionStore.CollectDeviceStatus | src/session/session.service.ts:237-278 | the first pass records a correct status for exactly the user's devices |
| SessionService.SessionStore.Categorize | src/session/session.service.ts:281-302 | the second pass puts the current device first; of the rest, those with a live session go to active and the others to inactive, each exactly once, each view built from the stored row |
| SessionService.SessionStore.GetAllDevicesGrouped | src/session/session.service.ts:222-322 | the result is the promised grouping: each of the user's devices in exactly its bucket; each view carries the isCurrentDevice flag and the latest activity; both lists sorted most recent first |
| DeviceGrouping.Compare | src/session/session.service.ts:305-315 | negative (a first) iff a has activity and b has none or older activity; zero iff both have the same activity; positive whenever a has no activity |
| DeviceGrouping.NotAfterTotal | src/session/session.service.ts:305-315 | the comparator orders every pair of devices one way or the other |
| DeviceGrouping.NotAfterTransitive | src/session/session.service.ts:305-315 | the comparator's order is transitive |
| DeviceGrouping.SortedMeansMostRecentFirst | src/session/session.service.ts:305-315 | in a sorted list, later activity comes first and devices with no activity come last |
| DeviceGrouping.Insert | src/session/session.service.ts:305-315 | inserting into a list adds exactly that device |
| DeviceGrouping.InsertKeepsOrder | src/session/session.service.ts:305-315 | inserting into a sorted list keeps it sorted |
| DeviceGrouping.SortByActivity | src/session/session.service.ts:305-315 | the sort is a permutation, keeps the device ids, and its output is sorted under the comparator |
| DeviceGrouping.CategorizedStep | src/session/session.service.ts:295-302 | placing one more device into its bucket keeps the categorisation exact |
| DeviceGrouping.FaithfulBuckets | src/session/session.service.ts:281-302 | with correct statuses, the buckets picked from them are the promised buckets |
| DeviceGrouping.FaithfulView | src/session/session.service.ts:286-290 | with correct statuses, the view built from a status is the promised view |
| DeviceGrouping.GroupingPartitionsDevices | src/session/session.service.ts:222-322 | in a grouping, each of the user's devices is in exactly one bucket, once, and no other device appears |
| Jwt.Spread | src/auth/providers/jwt.providers.ts:24-27 | `{...base, ...payload}` has the union of the keys, and payload keys win |
| Jwt.Verify | src/auth/providers/jwt.providers.ts:14-20 | accepts exactly what the library verifies under the configured audience, issuer and secret; every failure is "Invalid token" |
| Jwt.VerifyRefreshToken | src/auth/providers/jwt.providers.ts:53-69 | accepts iff the library verifies the token and its tokenType is 'refresh'; every failure is "Invalid refresh token" |
| Jwt.SignToken | src/auth/providers/jwt.providers.ts:22-35 | signs the access claims with the configured audience, issuer and secret; no contract of its own: AccessTokenRoundTrip states that the token verifies to exactly those claims |
| Jwt.SignRefreshToken | src/auth/providers/jwt.providers.ts:37-51 | signs the refresh claims with the refresh lifetime; no contract of its own: RefreshTokenRoundTrip and VerifyAcceptsRefreshTokens state how it verifies |
| Jwt.GenerateTokens | src/auth/providers/jwt.providers.ts:71-83 | no contract of its own: GeneratedTokensAreDistinguished states the Bearer pair, its lifetime and how the two tokens verify |
| Jwt.TokenClaimsContents | src/auth/providers/jwt.providers.ts:22-35 | access-token claims: `sub` is the user unless the payload overrides it, and every payload claim is present |
| Jwt.RefreshClaimsContents | src/auth/providers/jwt.providers.ts:37-51 | refresh-token claims are the access claims plus tokenType 'refresh', unless the payload sets tokenType itself |
| Jwt.AccessTokenRoundTrip | src/auth/providers/jwt.providers.ts:14-35 | a signed access token verifies to the claims it was signed with |
| Jwt.AccessTokenIsNotRefreshToken | src/auth/providers/jwt.providers.ts:53-69 | an access token passes the refresh check iff its payload forged tokenType 'refresh' |
| Jwt.RefreshTokenRoundTrip | src/auth/providers/jwt.providers.ts:37-69 | a refresh token is accepted iff the payload leaves tokenType alone or sets 'refresh'; it then yields its claims |
| Jwt.VerifyAcceptsRefreshTokens | src/auth/providers/jwt.providers.ts:14-20 | plain verify also accepts refresh tokens |
| Jwt.GeneratedTokensAreDistinguished | src/auth/providers/jwt.providers.ts:71-83 | generateTokens returns a Bearer pair with the access lifetime; the access token verifies; the refresh token passes the refresh check and the access token does not |
| BearerHeader.Split | src/auth/guards/access-token/access-token.guard.ts:30 | `split(' ')` gives at least one piece and no piece contains a space |
| BearerHeader.JoinSplit | src/auth/guards/access-token/access-token.guard.ts:30 | joining the pieces with single spaces gives back the header |
| BearerHeader.SplitJoin | src/auth/guards/access-token/access-token.guard.ts:30 | splitting undoes joining space-free pieces |
| BearerHeader.SplitHasSecondPiece | src/auth/guards/access-token/access-token.guard.ts:30 | there is a second piece iff the header has a space |
| BearerHeader.SplitAfterWord | src/auth/guards/access-token/access-token.guard.ts:30 | a space-free word followed by a space becomes its own piece |
| BearerHeader.Extract | src/auth/guards/access-token/access-token.guard.ts:29-32 | a token is found iff a header is present and contains a space; the token has no space |
| BearerHeader.ExtractSecondWord | src/auth/guards/refresh-token/refresh-token.guard.ts:33-36 | the token is the word after the first space, whatever the scheme word is; it ends at the next space |
| BearerHeader.DoubleSpaceGivesEmptyToken | src/auth/guards/refresh-token/refresh-token.guard.ts:33-36 | "Bearer  abc" (two spaces) yields the empty token |
| Guards.AccessDecision | src/auth/guards/access-token/access-token.guard.ts:14-28 | lets the request through iff a non-empty token verifies, with the verified payload; otherwise Unauthorized with the default message |
| Guards.RefreshDecision | src/auth/guards/refresh-token/refresh-token.guard.ts:15-31 | a missing or empty token is "Refresh token not provided"; otherwise it accepts iff the token passes the refresh check, and a refused token is "Invalid refresh token" |
| Guards.AccessTokenGuard.CanActivate | src/auth/guards/access-token/access-token.guard.ts:14-28 | returns true and sets the request user to the verified payload when AccessDecision accepts; otherwise raises its error and leaves the request untouched |
| Guards.RefreshTokenGuard.CanActivate | src/auth/guards/refresh-token/refresh-token.guard.ts:15-31 | the same, under RefreshDecision |
| Guards.HeaderCarriesToken | src/auth/guards/access-token/access-token.guard.ts:29-32 | the guards read back exactly the token sent after a scheme word |
| Guards.NoSpaceNoToken | src/auth/guards/refresh-token/refresh-token.guard.ts:19-21 | without a header, or without a space in it, both guards refuse, each with its own message |
| Guards.DoubleSpaceIsRefused | src/auth/guards/access-token/access-token.guard.ts:18-21 | a header with two spaces after the scheme is refused by both guards |
| Guards.AccessGuardAcceptsAccessToken | src/auth/guards/access-token/access-token.guard.ts:14-28 | a signed access token opens the access guard with its claims |
| Guards.AccessGuardAcceptsRefreshToken | src/auth/guards/access-token/access-token.guard.ts:22-26 | the access guard does not check tokenType, so a refresh token opens it too |
| Guards.RefreshGuardAcceptsRefreshToken | src/auth/guards/refresh-token/refresh-token.guard.ts:15-31 | a signed refresh token opens the refresh guard with its claims |
| Guards.RefreshGuardRefusesAccessToken | src/auth/guards/refresh-token/refresh-token.guard.ts:23-28 | an access token is refused by the refresh guard with "Invalid refresh token" |
| ArrayCompare.StrLeTotal | src/items/providers/variant.provider.ts:396-397 | the default string order is total |
| ArrayCompare.StrLeAntisymmetric | src/items/providers/variant.provider.ts:396-397 | the default string order is antisymmetric |
| ArrayCompare.StrLeTransitive | src/items/providers/variant.provider.ts:396-397 | the default string order is transitive |
| ArrayCompare.InsertStr | src/items/providers/variant.provider.ts:396-397 | inserting adds exactly that string |
| ArrayCompare.InsertStrSorted | src/items/providers/variant.provider.ts:396-397 | inserting into a sorted list keeps it sorted |
| ArrayCompare.SortStrings | src/items/providers/variant.provider.ts:396-397 | `[...arr].sort()` is a sorted permutation of the list |
| ArrayCompare.EveryEqual | src/items/providers/variant.provider.ts:398 | the position-wise comparison is true iff the lists are equal |
| ArrayCompare.SortedUnique | src/items/providers/variant.provider.ts:396-398 | two sorted lists with the same elements are identical |
| ArrayCompare.SameElementsSameSort | src/items/providers/variant.provider.ts:396-397 | two lists with the same elements have the same sorted copy |
| ArrayCompare.AreArraysEqual | src/items/providers/variant.provider.ts:394-399 | areArraysEqual is true iff the two lists hold the same ids with the same multiplicities |
| ArrayCompare.AreArraysEqualProperties | src/items/providers/variant.provider.ts:394-399 | hence it is reflexive and symmetric, ignores order, and is false on lists of different length |
| VariantModel.FindAllByIds | src/items/providers/variant.provider.ts:303-306 | returns exactly the stored modifiers whose id was requested, without duplicates when none are stored |
| VariantModel.MergeSku | src/items/providers/variant.provider.ts:289-292 | the keys the request carries overwrite, the others keep their value; updatedBy becomes the user and createdBy is kept |
| VariantModel.PatchStock | src/items/providers/variant.provider.ts:276-294 | without a sku part the stock is untouched; with one, a missing stock becomes the new row built from the sku part, and an existing one is merged with it (MergeSku: present keys overwrite, createdBy kept); either way it is updated by the user |
| VariantModel.PatchModifiers | src/items/providers/variant.provider.ts:297-308 | the list is replaced by the requested stored modifiers iff a non-empty list is requested that differs from the current ids as a multiset; otherwise it is kept |
| VariantModel.PatchBasics | src/items/providers/variant.provider.ts:239-264 | `Object.assign(variant, basicUpdates)`: no contract of its own; OnlyTruthyFieldsOverwrite states that each truthy basic field is written, each falsy one kept, and nothing else touched |
| VariantModel.ApplyUpdate | src/items/providers/variant.provider.ts:239-311 | the stored row is the basic patch, then the margin from the requested prices iff both are truthy, then the stock step (new row or merge), then the modifier step (replaced iff a non-empty list differs as a multiset), then updatedBy set to the user; item, creator and deletion stamp are kept |
| VariantModel.UpdateVariant | src/items/providers/variant.provider.ts:204-339 | on every error the catalogue is unchanged; on success only the variant's own row is replaced, by the returned row, which is ApplyUpdate of the stored row |
| VariantModel.DeleteVariant | src/items/providers/variant.provider.ts:341-391 | on every error the catalogue is unchanged; on success only the variant's own row changes, stamped `deletedAt = now`, and the other variants, the items and the modifiers are untouched |
| VariantModel.NewVariant | src/items/providers/variant.provider.ts:30-97 | fails with "Failed to create variant" iff no sku part is given; a margin is present iff both prices are truthy; image defaults to ""; the new stock row is the sku part; modifiers are the requested stored ones; created and updated by the user |
| VariantModel.OnlyTruthyFieldsOverwrite | src/items/providers/variant.provider.ts:239-311 | each of the ten basic fields (name, image, both prices, barcode, the three dates, tax, internal note) changes only when the request's value is truthy, only to that value, and every truthy value is written; the margin becomes the requested prices iff both are truthy and is otherwise kept; the stock changes only with a sku part; modifiers only on a differing non-empty list; item, creator and deletion stamp never change; updatedBy becomes the user |
| VariantModel.EmptyUpdateOnlyStampsUser | src/items/providers/variant.provider.ts:239-311 | any request whose fields are all absent or falsy, with no sku part and no non-empty modifier list, only sets updatedBy |
| VariantModel.FindAllByIdsExact | src/items/providers/variant.provider.ts:303-306 | when every requested id is stored once and requested once, the fetched modifiers are exactly the requested ids |
| VariantModel.DistinctCount | src/items/providers/variant.provider.ts:303-306 | in a list without duplicates each id occurs once or not at all |
| VariantModel.ModifiersSettleOnRequest | src/items/providers/variant.provider.ts:297-308 | asking for a non-empty set of stored modifiers leaves the variant with exactly those |
| VariantModel.PatchModifiersIdempotent | src/items/providers/variant.provider.ts:297-308 | sending the same modifier list again changes nothing |
| VariantModel.UpdateIsIdempotent | src/items/providers/variant.provider.ts:204-339 | repeating an accepted update is accepted and leaves the catalogue as the first one left it |
| VariantModel.UpdateNotFoundBeforeForbidden | src/items/providers/variant.provider.ts:221-235 | NotFound iff the variant is missing, deleted or of another item, or its item is not stored; Forbidden only for a found variant whose item and user belong to different businesses; success only within the same business |
| VariantModel.UpdateTouchesOneRow | src/items/providers/variant.provider.ts:204-339 | an update leaves every other variant, the items and the modifiers unchanged, and never moves the variant or changes its creator or deletion stamp |
| VariantModel.DeleteOutcomes | src/items/providers/variant.provider.ts:341-391 | NotFound for a missing or deleted variant; Forbidden for anyone but its creator; otherwise it is soft-deleted at `now` and hidden |
| VariantModel.DeletedStaysGone | src/items/providers/variant.provider.ts:350-355 | after a delete, both a second delete and an update report the variant as not found |
| VariantModel.MarginRuleAgrees | src/items/providers/variant.provider.ts:57-63 | create and update store a margin under the same condition and from the same prices |
| Variants.VariantProvider.constructor | src/items/providers/variant.provider.ts:22-29 | starts with no variants over the given items and modifiers |
| Variants.VariantProvider.CreateVariant | src/items/providers/variant.provider.ts:30-97 | returns NewVariant's result; on success stores it under the new id and changes nothing else; on failure changes nothing |
| Variants.VariantProvider.UpdateVariantById | src/items/providers/variant.provider.ts:204-339 | the new state and result are those of VariantModel.UpdateVariant |
| Variants.VariantProvider.DeleteVariantById | src/items/providers/variant.provider.ts:341-391 | the new state and result are those of VariantModel.DeleteVariant |

## Left out

- Registered JWT claims (`iat`, `exp`, `aud`, `iss`) and token expiry are left to the abstract `Signer`. Time-based rejection is not modelled.
- Jwt.Verify: the extra options passed to `verifyAsync` (the rest of the injected configuration) are reduced to audience, issuer and secret.
- JSON claim values: numbers are integers, and arrays and objects are not modelled.
- The request user slot (`REQUEST_USER_KEY`) is the `user` field of `Request`. `ExecutionContext` is left out.
- Database and network failures are left out. `getUserDeviceById` and the variant provider map them to RequestTimeout, and that is not modelled. On the modelled paths every request either commits or changes nothing, as the transaction with its rollback does.
- Concurrency: each call is atomic. Interleavings of concurrent requests on one session are not modelled.
- Timestamps the ORM maintains (`createdAt`, `updatedAt`) and the `compromised` column of sessions are left out. Logging is left out.
- `lastSeenAt` is never null in the model, because every path that writes a session sets it.
- SessionService.SessionStore.FindActiveSessionByDevice: among sessions with the same greatest `lastSeenAt`, which one is returned is not stated, because the database order of ties is unspecified.
- SessionService.SessionStore.GetAllDevicesGrouped: the relative order of devices that the comparator does not separate is not stated. It answers 1 both ways for two devices without activity, so the engine's order is implementation-defined. Devices are visited in `createdAt` order, which is also not modelled.
- The grouping's device views do not carry the `locations` relation.
- Margin arithmetic (`(selling - purchase) / purchase * 100`) is floating point. The model records whether a margin is stored and from which prices, not its value. NaN and infinite prices are not modelled.
- `sort()` on ids compares UTF-16 code units. The model compares characters, which agrees for ids in the Basic Multilingual Plane, such as uuids.
- src/items/dto/update-variant.dto.ts is not part of this model. The update request is taken to have every field of the creation request, each optional, as NestJS's `PartialType` gives.
- `findAllByIds` returns stored modifiers in stored order; the model does not state the database's row order. Modifier rows are represented by their ids only.
- Variants.VariantProvider.UpdateVariantById: the loaded row is a value. Its in-place mutation by `Object.assign` and field writes is modelled as rebuilding the row step by step, with no aliasing to other objects.
- Variants.VariantProvider.CreateVariant: the id the database generates is a parameter that must be unused. The item relation of a new variant is not set here, as in the source.
- A variant's creator is an id. A row whose `createdBy` relation is missing, which would make the delete check throw, is not modelled.
- `createManyVariants` and `findVariantDetailById` in variant.provider.ts are not part of the core modelled here.
