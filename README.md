# Workshop settings store, modelled in Dafny

This project models the local settings store of the workshop app, from
`packages/workshop-utils/src/db.server.ts`. The store is one JSON document
in `~/.epicshop/data.json`. It holds four fields:

- the onboarding state: which tour videos have been watched;
- player and presence preferences;
- the signed-in user's auth info;
- an anonymous client id.

Every operation except `deleteDb` reads the whole document through a zod
schema. Mutating operations then write the whole document back. `deleteDb`
only removes the file.

The model has three parts:

- **The schema** (`schema.dfy`, lines 8-71). Every zod schema becomes a
  validator from a JSON value to `Result<Json, Error>`. Each validator has
  an independent normal-form predicate (`IsPlayer`, `IsDocument`, ...).
  Every validator result is in normal form, and every normal form is a
  fixed point of its validator. From these two facts, validation is
  idempotent. The lemmas in `SchemaFacts` state what the schema promises:
  - a missing field gets its default, and the default is itself validated;
  - `null` is rejected wherever a field is only optional;
  - unknown keys are stripped, except inside `onboarding`, which passes them through.
- **The documents each writer builds** (`documents.dfy`), as JavaScript
  object spreads over the document read before. For each writer, a lemma
  states what the next read makes of it.
- **The store** (`store.dfy`). It is a class with three fields:
  - the file;
  - its `.bkp` quarantine sibling;
  - the `EPICSHOP_DEPLOYED` switch.

  Each exported function except `deleteDb` is a method proved against the
  pure read function `Load`; `deleteDb` is specified by the file it leaves.
  `store_facts.dfy` composes the two parts: what a later read sees after
  each successful write.

`requireAuthInfo` builds a login redirect with `URLSearchParams`.
`urlencoded.dfy` models that as the application/x-www-form-urlencoded
serializer of the WHATWG URL Standard (section 5.2), with UTF-8 encoding.
The parser of section 5.1 is modelled as its partner. `Parse(Serialize(p)) == Some(p)`
is proved, so any parser that follows the form-urlencoded standard (the one
`URLSearchParams` uses) reads back exactly the return path chosen.

The switch is checked only by `readDb` (line 99) and `deleteDb` (line 87).
The writers (`getClientId`, `setAuthInfo`, `setPlayerPreferences`,
`setPresencePreferences`, `markOnboardingVideoWatched`) write the file even
when it is set. One might expect writes to be no-ops when the switch is
set; they are not, because lines 82, 158, 182, 195 and 217 write
regardless. So a deployed store reads nothing and still writes.

## Model

| member | source | states |
|---|---|---|
| JsonValues.Truthy | packages/workshop-utils/src/db.server.ts:137 | definition of JavaScript truthiness (`Boolean`) on JSON values; specified by `FilterTruthyKeepsTruthy` and `FilterTruthyCount` |
| JsonValues.FilterTruthy | packages/workshop-utils/src/db.server.ts:210-213 | `.filter(Boolean)` keeps only truthy entries, each taken from the input, and never lengthens the list |
| JsonValues.FilterTruthyAppend | packages/workshop-utils/src/db.server.ts:210-213 | filtering distributes over concatenation |
| JsonValues.FilterTruthyKeepsTruthy | packages/workshop-utils/src/db.server.ts:210-213 | a list of truthy values is left unchanged by the filter |
| JsonValues.FilterTruthyCount | packages/workshop-utils/src/db.server.ts:210-213 | the filter keeps every occurrence of a truthy value |
| Schema.OptionalLeaves | packages/workshop-utils/src/db.server.ts:13-36 | a map of `.optional()` leaves accepts exactly when every present key has the leaf's type (so `null` is refused); the result holds only the schema's keys that are present, with the input's values |
| Schema.ValidateTokenSet | packages/workshop-utils/src/db.server.ts:8-12 | accepts exactly an object with the three string fields; the result is normal and keeps only those three values |
| Schema.ValidateSubtitle | packages/workshop-utils/src/db.server.ts:20-31 | a missing subtitle becomes `{id: null, mode: "disabled"}`; a missing id or mode gets its default; a mode outside the three literals is rejected; the result is normal |
| Schema.ValidatePlayer | packages/workshop-utils/src/db.server.ts:13-38 | a missing player becomes the default run through the schema; otherwise accepts exactly when every leaf and the subtitle are valid; unknown keys are stripped; leaf values are kept |
| Schema.ValidatePresence | packages/workshop-utils/src/db.server.ts:40-45 | a missing presence becomes `{optOut: false}`; otherwise accepts exactly an object whose `optOut` is a boolean, keeping only `optOut` |
| Schema.ValidateAuthInfo | packages/workshop-utils/src/db.server.ts:47-52 | accepts exactly when id and email are strings, the token set is valid, and name is absent, null or a string; the result is normal and copies those values |
| Schema.ValidateOnboarding | packages/workshop-utils/src/db.server.ts:55-61 | a missing onboarding becomes `{tourVideosWatched: []}`; otherwise the list must hold only strings (default `[]`) and every other key passes through unchanged |
| Schema.ValidatePreferences | packages/workshop-utils/src/db.server.ts:62-68 | a missing preferences object becomes the defaults of both parts; a present value is accepted exactly when it is an object whose player and presence both validate; the result holds exactly `player` and `presence`, each validated |
| Schema.Assemble | packages/workshop-utils/src/db.server.ts:54-71 | the document is accepted exactly when every field is; it is in normal form and holds each field's validated value |
| Schema.ValidateData | packages/workshop-utils/src/db.server.ts:54-71 | the data schema accepts only objects, and every document it returns is in normal form |
| SchemaFacts.TokenSetFixedPoint | packages/workshop-utils/src/db.server.ts:8-12 | a normal token set validates to itself |
| SchemaFacts.SubtitleFixedPoint | packages/workshop-utils/src/db.server.ts:20-31 | a normal subtitle validates to itself |
| SchemaFacts.PlayerFixedPoint | packages/workshop-utils/src/db.server.ts:13-38 | normal player preferences validate to themselves |
| SchemaFacts.PresenceFixedPoint | packages/workshop-utils/src/db.server.ts:40-45 | normal presence preferences validate to themselves |
| SchemaFacts.AuthInfoFixedPoint | packages/workshop-utils/src/db.server.ts:47-52 | a normal auth info validates to itself |
| SchemaFacts.OnboardingFixedPoint | packages/workshop-utils/src/db.server.ts:55-61 | a normal onboarding object, passthrough keys included, validates to itself |
| SchemaFacts.PreferencesFixedPoint | packages/workshop-utils/src/db.server.ts:62-68 | normal preferences validate to themselves |
| SchemaFacts.DocumentFixedPoint | packages/workshop-utils/src/db.server.ts:54-71 | a normal document validates to itself |
| SchemaFacts.ValidateDataIdempotent | packages/workshop-utils/src/db.server.ts:103 | parsing a parsed document again gives the same document |
| SchemaFacts.EmptyDocumentDefaults | packages/workshop-utils/src/db.server.ts:54-71 | `{}` parses to the full default document: no videos watched, subtitle disabled, presence not opted out, no auth info, no client id |
| SchemaFacts.MissingFieldsDefault | packages/workshop-utils/src/db.server.ts:54-71 | each missing field, or missing nested player, presence or video list, reads as its default; auth info and client id are absent when the input lacks them |
| SchemaFacts.NullIsRejected | packages/workshop-utils/src/db.server.ts:55-70 | `null` in any of the four top-level fields makes the parse fail (`.optional()` does not accept null) |
| SchemaFacts.RejectedWhenAPartIs | packages/workshop-utils/src/db.server.ts:54-71 | a document is rejected exactly when one of its four fields is |
| SchemaFacts.ValidatedComponents | packages/workshop-utils/src/db.server.ts:54-71 | an accepted document holds, field by field, what each field's own schema makes of the input |
| SchemaFacts.PresenceWithoutOptOutIsRejected | packages/workshop-utils/src/db.server.ts:40-45 | a presence object without `optOut` makes the parse fail |
| SchemaFacts.UnknownTopLevelKeysIgnored | packages/workshop-utils/src/db.server.ts:54-71 | the parse depends only on the four known top-level keys |
| SchemaFacts.OnboardingKeysPassThrough | packages/workshop-utils/src/db.server.ts:55-61 | the parsed onboarding object has exactly the stored keys plus `tourVideosWatched`, and every stored key keeps its value |
| SchemaFacts.PlayerKeysStripped | packages/workshop-utils/src/db.server.ts:13-38 | the parsed player preferences hold exactly the stored schema leaves plus `subtitle`; unknown keys are stripped; every leaf keeps its value |
| SchemaFacts.DefaultDocumentIsDocument | packages/workshop-utils/src/db.server.ts:54-71 | the default document is in normal form |
| Documents.SpreadClientId | packages/workshop-utils/src/db.server.ts:82 | definition of `{ ...data, clientId }`; specified by `ClientIdReadsBack` |
| Documents.SpreadAuthInfo | packages/workshop-utils/src/db.server.ts:158 | definition of `{ ...data, authInfo }`; specified by `AuthInfoReadsBack` |
| Documents.MergedPlayer | packages/workshop-utils/src/db.server.ts:175-178 | definition of `{ ...data?.preferences?.player, ...playerPreferences }`; specified by `MergedPlayerValidates` |
| Documents.SpreadPlayer | packages/workshop-utils/src/db.server.ts:171-180 | definition of the document `setPlayerPreferences` writes; specified by `PlayerReadsBack` |
| Documents.SpreadPresence | packages/workshop-utils/src/db.server.ts:190-193 | definition of the document `setPresencePreferences` writes, `presence` dropped when undefined; specified by `PresenceReadsBack` |
| Documents.WatchedAfter | packages/workshop-utils/src/db.server.ts:210-213 | definition of the new watched list; specified by `WatchedAppends` |
| Documents.OnboardingAfter | packages/workshop-utils/src/db.server.ts:208-214 | definition of the new onboarding object; specified by `WrittenOnboarding` |
| Documents.SpreadWatchedVideo | packages/workshop-utils/src/db.server.ts:206-215 | definition of the document `markOnboardingVideoWatched` writes; specified by `WatchedVideoReadsBack` |
| Documents.UntouchedFields | packages/workshop-utils/src/db.server.ts:170-172 | fields of a read document that a writer copies by spread read back as they were |
| Documents.ReplacedOnboardingReadsAs | packages/workshop-utils/src/db.server.ts:206-215 | replacing `onboarding` by a value the onboarding schema accepts reads back as the document before with that field set to the validated value |
| Documents.ReplacedPreferencesReadsAs | packages/workshop-utils/src/db.server.ts:170-180 | replacing `preferences` by a value the preferences schema accepts reads back as the document before with that field set to the validated value |
| Documents.ClientIdReadsBack | packages/workshop-utils/src/db.server.ts:82 | the document `getClientId` writes reads back as the document read before, with the new client id |
| Documents.AuthInfoReadsBack | packages/workshop-utils/src/db.server.ts:158 | the document `setAuthInfo` writes reads back as the document read before, with the new auth info |
| Documents.MergedPlayerValidates | packages/workshop-utils/src/db.server.ts:175-178 | the merged player object validates to the stored preferences overridden key by key by the input |
| Documents.PlayerReadsBack | packages/workshop-utils/src/db.server.ts:167-184 | after `setPlayerPreferences`, player preferences read back merged; presence and every other field are unchanged |
| Documents.PresenceReadsBack | packages/workshop-utils/src/db.server.ts:186-197 | after `setPresencePreferences`, presence reads back as exactly the input (the default when undefined); player and every other field are unchanged |
| Documents.WatchedAppends | packages/workshop-utils/src/db.server.ts:210-213 | the new list is the old one with falsy entries dropped and the url appended; it holds no empty string; the url's count grows by one |
| Documents.WrittenOnboarding | packages/workshop-utils/src/db.server.ts:206-214 | the onboarding object `markOnboardingVideoWatched` writes is the stored one with only the list replaced, and the schema accepts it unchanged |
| Documents.WatchedVideoReadsBack | packages/workshop-utils/src/db.server.ts:204-219 | after `markOnboardingVideoWatched`, only the video list changes; passthrough onboarding keys and other fields are kept |
| FormUrlEncoded.Serialize | packages/workshop-utils/src/db.server.ts:135-136 | definition of `URLSearchParams.prototype.toString` (section 5.2 of the WHATWG URL Standard); specified by `ParseSerialize` and `EncodeBytesIsSafe` |
| FormUrlEncoded.Parse | packages/workshop-utils/src/db.server.ts:135-136 | definition of the section 5.1 parser, the serializer's partner; specified by `ParseSerialize` |
| FormUrlEncoded.Utf8Char | packages/workshop-utils/src/db.server.ts:135-136 | a character encodes to 1 to 4 bytes; exactly the ASCII characters take one byte, equal to their code, and the others only bytes of 0x80 and above |
| FormUrlEncoded.Utf8RoundTrip | packages/workshop-utils/src/db.server.ts:135-136 | UTF-8 decoding inverts UTF-8 encoding |
| FormUrlEncoded.EncodeBytesIsSafe | packages/workshop-utils/src/db.server.ts:135-136 | an encoded component consists only of unreserved characters, `+` and `%`, so it never contains `&` or `=` |
| FormUrlEncoded.DecodeEncodeComponent | packages/workshop-utils/src/db.server.ts:135-136 | decoding an encoded component gives back the string |
| FormUrlEncoded.ParseSerialize | packages/workshop-utils/src/db.server.ts:135-136 | parsing the serialization of any list of name/value pairs gives back the list |
| FormUrlEncoded.UnreservedIsUnchanged | packages/workshop-utils/src/db.server.ts:135-136 | a string of unreserved ASCII characters is serialized as itself |
| FormUrlEncoded.EncodeComponentAppend | packages/workshop-utils/src/db.server.ts:135-136 | encoding distributes over concatenation |
| Redirect.ReturnPath | packages/workshop-utils/src/db.server.ts:131-134 | definition of the tri-state return path; specified by `RedirectCarriesReturnPath` |
| Redirect.LoginLocation | packages/workshop-utils/src/db.server.ts:135-138 | definition of the login location; specified by `LocationCarries` |
| Redirect.RequireAuthInfo | packages/workshop-utils/src/db.server.ts:128-141 | definition of `requireAuthInfo` as a pure function; specified by `AuthorizedWhenStored`, `BareLoginWhenNoReturnPath`, `RedirectCarriesReturnPath` and `RedirectExample` |
| Redirect.AuthorizedWhenStored | packages/workshop-utils/src/db.server.ts:128-141 | with stored auth info, `requireAuthInfo` returns it, whatever `redirectTo` is |
| Redirect.BareLoginWhenNoReturnPath | packages/workshop-utils/src/db.server.ts:131-138 | without auth info, a `null` or empty `redirectTo` redirects to plain `/login` |
| Redirect.RedirectCarriesReturnPath | packages/workshop-utils/src/db.server.ts:128-139 | without auth info, the redirect goes to `/login`, and its query parses back to the chosen return path: none for `null`, the request's path and query for undefined, the given string otherwise, nothing when empty |
| Redirect.LocationCarries | packages/workshop-utils/src/db.server.ts:135-138 | the location starts with `/login`, and its query parses back to the return path exactly when that path is non-empty |
| Redirect.RedirectExample | packages/workshop-utils/src/db.server.ts:130-139 | a request for `/foo?bar=1` redirects to `/login?redirectTo=%2Ffoo%3Fbar%3D1` |
| Store.Load | packages/workshop-utils/src/db.server.ts:98-114 | `readDb` yields a document exactly when not deployed, the file exists, is JSON and passes the schema; any document yielded is in normal form |
| Store.Corrupt | packages/workshop-utils/src/db.server.ts:106-111 | definition: `readDb` reaches its catch block, the file being there but unparseable or rejected by the schema; specified by `QuarantineIsOneShot` |
| Store.Quarantines | packages/workshop-utils/src/db.server.ts:111 | definition: the move to `.bkp` happens for a corrupt file, when `.bkp` is free and the move succeeds; specified by `QuarantineIsOneShot` |
| Store.FileAfterRead | packages/workshop-utils/src/db.server.ts:106-113 | definition of the file after a read; specified by `QuarantineIsOneShot` |
| Store.BackupAfterRead | packages/workshop-utils/src/db.server.ts:106-113 | definition of `.bkp` after a read; specified by `QuarantineIsOneShot` |
| Store.StoredClientId | packages/workshop-utils/src/db.server.ts:78 | definition of `data?.clientId` when truthy; specified by `ClientIdIsStable` and `DeployedClientIdIsFresh` |
| Store.AuthInfoArgument | packages/workshop-utils/src/db.server.ts:147-156 | definition of the object `{ id, tokenSet, email, name }` with the email default; specified by `AuthInfoArgumentAccepted` |
| Store.SettingsStore.constructor | packages/workshop-utils/src/db.server.ts:73-74 | a store over the given file, backup and switch |
| Store.SettingsStore.ReadDb | packages/workshop-utils/src/db.server.ts:98-114 | returns `Load`; a corrupt file is moved to `.bkp` only if that is free and the move succeeds; otherwise nothing changes |
| Store.SettingsStore.Write | packages/workshop-utils/src/db.server.ts:81-82 | `ensureDir` + `writeJSON` replace the file by the document, or fail and leave it |
| Store.SettingsStore.DeleteDb | packages/workshop-utils/src/db.server.ts:86-96 | removes the file unless deployed; a failed removal is swallowed |
| Store.SettingsStore.GetClientId | packages/workshop-utils/src/db.server.ts:76-84 | a stored non-empty id is returned without writing; otherwise the new id is written over the read document and returned, even when deployed |
| Store.SettingsStore.GetAuthInfo | packages/workshop-utils/src/db.server.ts:116-119 | the read document's auth info, which is normal, or none |
| Store.SettingsStore.RequireAuthInfo | packages/workshop-utils/src/db.server.ts:121-142 | the stored auth info, or the login redirect built from the request and `redirectTo` |
| Store.SettingsStore.SetAuthInfo | packages/workshop-utils/src/db.server.ts:144-160 | an argument the schema rejects throws after the read and before any write; otherwise the normalised auth info replaces the stored one and is returned |
| Store.SettingsStore.GetPreferences | packages/workshop-utils/src/db.server.ts:162-165 | the read document's preferences, which are normal, or none |
| Store.SettingsStore.SetPlayerPreferences | packages/workshop-utils/src/db.server.ts:167-184 | writes the read document with the input merged over the stored player preferences, and returns the merged object |
| Store.SettingsStore.SetPresencePreferences | packages/workshop-utils/src/db.server.ts:186-197 | writes the read document with presence replaced by the input (removed when undefined), and returns the input |
| Store.SettingsStore.ReadOnboardingData | packages/workshop-utils/src/db.server.ts:199-202 | the read document's onboarding object, which is normal, or none |
| Store.SettingsStore.MarkOnboardingVideoWatched | packages/workshop-utils/src/db.server.ts:204-219 | writes the read document with the url appended to the watched list (falsy entries dropped), and returns the new onboarding object |
| StoreFacts.ClientIdIsStable | packages/workshop-utils/src/db.server.ts:76-84 | when not deployed, the id `getClientId` returns is the one the next call finds, so back-to-back calls agree |
| StoreFacts.WrittenClientIdReadsBack | packages/workshop-utils/src/db.server.ts:82 | after the write of a new id, the next read finds that id |
| StoreFacts.DeployedClientIdIsFresh | packages/workshop-utils/src/db.server.ts:76-84 | when deployed, no id is ever found, and the document written holds only the new id |
| StoreFacts.AuthInfoArgumentAccepted | packages/workshop-utils/src/db.server.ts:144-156 | `setAuthInfo`'s argument is accepted exactly when the token set has its three strings and email is not `null`; a missing email becomes `unknown@example.com`, and name is present exactly when given |
| StoreFacts.AuthInfoPersisted | packages/workshop-utils/src/db.server.ts:144-160 | after `setAuthInfo`, the next read finds the new auth info and the client id unchanged |
| StoreFacts.PlayerPersisted | packages/workshop-utils/src/db.server.ts:167-184 | after `setPlayerPreferences`, the next read finds the merged player preferences and presence unchanged |
| StoreFacts.PresencePersisted | packages/workshop-utils/src/db.server.ts:186-197 | after `setPresencePreferences`, the next read finds exactly the given presence (the default when undefined) and player unchanged |
| StoreFacts.WatchedVideoPersisted | packages/workshop-utils/src/db.server.ts:204-219 | after `markOnboardingVideoWatched`, the next read finds the url appended once more, with no empty entry |
| StoreFacts.QuarantineIsOneShot | packages/workshop-utils/src/db.server.ts:106-113 | a quarantine empties the file and fills `.bkp`; an existing backup is never replaced; a readable file is never moved |

## Left out

- File-system I/O is abstract. The file is a value, either parsed JSON or `Unparseable`; the JSON text syntax itself is not modelled.
- Failures of `ensureDir`/`writeJSON` (one `writeFails`), `remove` (`removeFails`) and `move` (`moveFails`) are boolean parameters. A `readJSON` failure on an existing file is represented by `Unparseable` content, which takes the same catch path (lines 106-111). fs-extra's `exists` never rejects, so it has no failure parameter. A write either replaces the whole file or leaves it; partial writes are not modelled.
- `cuid()` is the parameter `newId`, assumed non-empty.
- `async` interleaving is not modelled. Two concurrent writers can lose an update.
- Store.SettingsStore.ReadDb completes the `.bkp` move before returning. In the program the move (line 111) is not awaited, so it can also finish after the same call's `ensureDir`/`writeJSON` (lines 81-82, 157-158, 181-182, 194-195, 216-217), or after the next operation has started. The new document then lands in `.bkp`, `data.json` is absent and the corrupt content is lost. The writers' contracts after a corrupt read, and StoreFacts.ClientIdIsStable, describe only the order move-then-write.
- `console.error` logging is not modelled.
- Remix's `redirect` Response and the thrown value are modelled as `LoginRedirect(location)`.
- `new URL(request.url)` is not modelled: the request's pathname and search are parameters.
- SetPlayerPreferences: the method accepts any input; its read-back lemmas (Documents.PlayerReadsBack, StoreFacts.PlayerPersisted) assume the input is well-typed, as the TypeScript caller guarantees. A key explicitly set to `undefined` inside the partial player preferences is not modelled; `JSON.stringify` drops such a key, so any stored value for it is deleted: on the next read the key is absent, and for `subtitle` the next read gives the default `{id: null, mode: "disabled"}`. The read-back lemmas require input that the player schema accepts.
- Store.SettingsStore.SetAuthInfo: when `name` is left undefined, the object `AuthInfoSchema.parse` returns carries `name: undefined`, which a JSON value cannot hold. The model omits the key, as the file `writeJSON` writes does.
- Schema.ValidateData: zod collects every issue into its error. The model reports only the first failing path, which is enough to decide acceptance.
- Numbers are reals. JSON number syntax, NaN and infinities are not modelled.
- FormUrlEncoded.DecodeUtf8: invalid UTF-8 decodes to `None` rather than to U+FFFD replacement characters. Only encoder output is ever decoded here, and for that output the round trip is exact.
- Lone surrogate code units in JavaScript strings are not modelled, because Dafny characters are Unicode scalar values.
- The other files of the repository (`git.server.ts`, `loading.tsx`, `finished.tsx`, `theme-session.server.ts`) do not use the store and are not modelled.
