# Pitch-competition backend rules, modelled in Dafny

This project models the rule-carrying core of a pitch-competition app. In the app, hosts create events and add startups. Investors join a live event with a premoney wallet and invest in startups. When the event ends, leaderboards are computed. The Firestore collections are Dafny maps: one `Database` class (module `Documents`) holds one map per collection. The cloud functions and client composables are functions or methods over those maps. Their error codes are the `HttpsError` codes, as values of a `Result` datatype.

Modules, one concept each:

- `JsString`: the JavaScript string operations the core relies on, over ASCII: `trim`, `toLowerCase`, `toUpperCase`, `split` at the first separator, `replace(/x/g, '')` and decimal rendering.
- `Common`, `Requests`, `Dict`:
  - optional values and results;
  - caller identity;
  - request fields as JavaScript sees them (absent, a string, or another value of some truthiness);
  - insertion-ordered JavaScript objects (association lists).
- `StableSort`: a stable insertion sort by an integer key. It stands for `Array.prototype.sort` with a numeric comparator. It is proved sorted, a permutation and stable.
- `Results` (functions/onEventEnded.js):
  - the transition guard;
  - per-role totals built by the `forEach` loops;
  - the name lookup;
  - `makeLeaderboard`;
  - the four result documents.
- `ServerEmail`, `ClientEmail`: `normalizeEmail` and `isValidEmail` in their server and client copies. The copies are proved to agree.
- `Identity` (functions/reservePersonByEmail.js, functions/onUserCreate.js):
  - the email index and people tables, with one person per normalized address;
  - the linking of new accounts, which claims reserved startups and judges.
- `Startups` (functions/createStartup.js, updateStartup.js, deleteStartup.js): the three callables with their error precedence. All three keep normalized names unique within an event.
- `EventCreation` (functions/createEvent.js):
  - the bounded search for a free five-digit code, with the random draws as a parameter;
  - the event record;
  - the user document;
  - the `hostedEvents` mirror.
- `Premoney` (functions/joiningPremoney.js): the one-time wallet and investor record.
- `EventStore` (src/stores/event-store.js):
  - code entry and status checks;
  - the first-join premoney grant;
  - onboarding and reset.
- `Investments` (src/composables/useInvestments.js):
  - `normalizeId`, `totalInvested`, `remainingBalance`;
  - the budget check of `updateInvestment` and its document merge;
  - the snapshot merge.
- `EventResults` (src/composables/useEventResults.js): the status cascade over an event snapshot.
- `EventQuestions` (src/composables/useEventQuestions.js): rating questions, filtered and stably sorted by `order`.

Document fields that may be absent are their falsy value ("", 0, false), because the core only tests such fields for truthiness. Generated ids, random draws and query snapshots are parameters.

src/composables/useEventResults.js waits for `resultsReady` or `resultsError` on the event document, but functions/onEventEnded.js never writes the event document. The model follows the code: `Results.OnEventEnded` changes only `results`. `EventResults.ProcessingUntilFlagged` shows what the client then does: it stays in `processing`.

## Model

| member | source | states |
|---|---|---|
| Requests.TrimmedArg | functions/reservePersonByEmail.js:26-27 | `(x or "").trim()` in JavaScript: a falsy field reads as "", a string as its trimmed text; it fails exactly for a truthy non-string |
| Requests.OptionalTrim | functions/createStartup.js:75-77 | `x?.trim()` defaulting to '': it fails exactly when a present value is not a string; otherwise the result is trimmed |
| Documents.Children | src/composables/useEventResults.js:55-61 | a sub-collection keyed by document id holds exactly the documents under that parent, with their contents |
| StableSort.Sort | functions/onEventEnded.js:65 | the sorted list has the input's length and multiset and is non-decreasing by the key |
| StableSort.SortIsStable | src/composables/useEventQuestions.js:41 | for every key value, the elements with that key keep their input order |
| Results.Totals | functions/onEventEnded.js:36-55 | `totals[role]` after the `forEach` loops; characterised by `Results.TotalsKeys` (which startups), `Results.TotalsAreSums` (their sums), `Results.TotalsDistinct`, `Results.TotalsKeyOrder` (key order) and `Results.NotCounted` (skipped documents) |
| Results.CountedIds | functions/onEventEnded.js:40-46 | the startup ids of the accepted documents in document order; `Results.TotalsKeyOrder` states that the totals' keys are their first occurrences |
| Results.Dedup | functions/onEventEnded.js:45 | the first occurrences, in order: the same elements, none twice |
| Results.TotalsDistinct | functions/onEventEnded.js:45 | a totals object never holds one startup twice |
| Results.TotalsKeys | functions/onEventEnded.js:40-46 | a startup has a total for a role iff some accepted document of that role names it |
| Results.TotalsAreSums | functions/onEventEnded.js:40-46 | each startup's total is the sum of the values of the accepted documents of that role for it |
| Results.TotalsKeyOrder | functions/onEventEnded.js:40-46 | the totals' keys are the counted startup ids in order of first appearance |
| Results.NotCounted | functions/onEventEnded.js:42-43 | a document with a falsy startup id, value or role, or another role, changes no total (a zero amount or rating is skipped) |
| Results.Aggregate | functions/onEventEnded.js:36-55 | the loop leaves the investor and judge totals equal to the reference totals of the snapshot |
| Results.NameLookup | functions/onEventEnded.js:27-33 | exactly the startups with a non-empty name are in the lookup, each mapped to the name of some snapshot entry with that id |
| Results.NameLookupExact | functions/onEventEnded.js:27-33 | with distinct ids, each named startup maps to its own name |
| Results.BuildNameLookup | functions/onEventEnded.js:27-33 | the `forEach` loop builds the reference lookup |
| Results.Rows | functions/onEventEnded.js:59-64 | one row per totals entry, in order, named from the lookup or `Unknown` |
| Results.Ranked | functions/onEventEnded.js:66-71 | the entry at position i has rank i + 1 and the given metric and role |
| Results.MakeLeaderboard | functions/onEventEnded.js:58-71 | `makeLeaderboard(totals, role, metricLabel)`; characterised by `Results.LeaderboardRanked`, `Results.LeaderboardPermutation`, `Results.LeaderboardNames` and `Results.LeaderboardTiesStable` |
| Results.LeaderboardRanked | functions/onEventEnded.js:58-71 | a board has one entry per total, ranks 1..n in order, the metric and role labels, and totals that never increase |
| Results.LeaderboardPermutation | functions/onEventEnded.js:58-65 | the board's rows are a permutation of the totals' rows |
| Results.LeaderboardNames | functions/onEventEnded.js:62 | each entry carries its startup's name, or `Unknown` |
| Results.LeaderboardTiesStable | functions/onEventEnded.js:65 | entries with equal totals keep the order of the totals object |
| Results.ShouldCompute | functions/onEventEnded.js:13-14 | the guard: the update moves the status to `ended` from another status; `Results.OnEventEnded` writes nothing when it fails |
| Results.ComputedResults | functions/onEventEnded.js:19-109 | the four boards computed from the three snapshots; `Results.OnEventEnded` writes exactly these, and `Results.ResultDocs` states their ids and labels |
| Results.ResultBoard | functions/onEventEnded.js:58-108 | one result document with its title, metric and role, whose board (`makeLeaderboard` of the totals) carries those labels on every entry |
| Results.ResultDocs | functions/onEventEnded.js:79-109 | exactly the four fixed result ids under the ended event are written, and every board entry carries its document's metric and role |
| Results.OnEventEnded | functions/onEventEnded.js:8-116 | off the `ended` transition nothing is written; on it, the four boards computed from the snapshots replace the event's earlier ones |
| ServerEmail.Canonical | functions/utils/normalizeEmail.js:13 | the trimmed, lower-cased address is lower case |
| ServerEmail.LocalPart | functions/utils/normalizeEmail.js:14-19 | the local part holds no `@` |
| ServerEmail.GmailLocal | functions/utils/normalizeEmail.js:22 | a stripped Gmail local part has no `.` and no `+`, and only characters of the local part |
| ServerEmail.NormalizeCanonical | functions/utils/normalizeEmail.js:14-26 | `normalizeEmail` after the trim and lower-casing; characterised by `ServerEmail.NoSingleAtAddress`, `ServerEmail.GmailAddress` and `ServerEmail.OtherDomainAddress` |
| ServerEmail.NormalizeEmail | functions/utils/normalizeEmail.js:10-11 | a missing or empty input gives "" |
| ServerEmail.IsValidEmail | functions/utils/normalizeEmail.js:35-39 | `isValidEmail`: a non-empty string whose trimmed text matches the pattern; `ServerEmail.EmailPatternIsRegex` ties the pattern to the regular expression |
| ServerEmail.EmailPatternIsRegex | functions/utils/normalizeEmail.js:35-38 | the direct validity test agrees on every string with the regular expression `^[^\s@]+@[^\s@]+\.[^\s@]+$` |
| ServerEmail.CanonicalSplit | functions/utils/normalizeEmail.js:13-19 | `local@domain` splits into the trimmed, lower-cased local part and the domain |
| ServerEmail.GmailAddress | functions/utils/normalizeEmail.js:21-23 | a Gmail or Googlemail address becomes its local part cut at `+`, with dots removed, at `gmail.com` |
| ServerEmail.NormalizeGmail | functions/utils/normalizeEmail.js:14-23 | any input whose canonical form has one `@` and a Gmail domain normalizes to the stripped local part at `gmail.com` |
| ServerEmail.GmailDomainsAgree | functions/utils/normalizeEmail.js:21-23 | `x@googlemail.com` and `x@gmail.com` normalize alike |
| ServerEmail.OtherDomainAddress | functions/utils/normalizeEmail.js:21-26 | any other domain keeps the lower-cased local part, dots and `+` suffix included |
| ServerEmail.NoSingleAtAddress | functions/utils/normalizeEmail.js:14-17 | without exactly one `@`, the trimmed lower-cased text is the result, and it is trimmed |
| ServerEmail.GmailResultNormalizes | functions/utils/normalizeEmail.js:10-27 | a stripped Gmail result normalizes again to itself minus its leading white space |
| ServerEmail.NormalizeEmailShape | functions/utils/normalizeEmail.js:10-27 | every result is either a trimmed lower-case fixpoint or a stripped Gmail local part at `gmail.com` |
| ServerEmail.NormalizeIdempotentIff | functions/utils/normalizeEmail.js:10-27 | normalizing a result again changes it iff the result starts with white space |
| ServerEmail.DotSpaceFirst | functions/utils/normalizeEmail.js:21-23 | `". x@gmail.com"` normalizes to `" x@gmail.com"` |
| ServerEmail.DotSpaceSecond | functions/utils/normalizeEmail.js:13-23 | `" x@gmail.com"` normalizes to `"x@gmail.com"` |
| ServerEmail.DotSpaceGmail | functions/utils/normalizeEmail.js:10-27 | for such addresses a second normalization changes the first result |
| ServerEmail.NormalizeNotIdempotent | functions/utils/normalizeEmail.js:10-27 | a concrete address whose normalization is not a fixpoint |
| ServerEmail.NormalizeEmailTrimmed | functions/utils/normalizeEmail.js:10-27 | the corrected normalization always returns trimmed text |
| ServerEmail.TrimmedAgreesWhenNoLeadingSpace | functions/utils/normalizeEmail.js:10-27 | it equals the code as written whenever that result has no leading white space |
| ServerEmail.NormalizeEmailTrimmedIdempotent | functions/utils/normalizeEmail.js:10-27 | the corrected normalization is idempotent on every input |
| ClientEmail.NormalizeEmail | src/utils/normalizeEmail.js:1-2 | a missing or empty input gives "" |
| ClientEmail.Rewrite | src/utils/normalizeEmail.js:5-18 | the client's split at `@` and Gmail stripping; `ClientEmail.RewriteAgrees` shows it equals the server's on every text |
| ClientEmail.IsValidEmail | src/utils/normalizeEmail.js:21-25 | the client's `isValidEmail`; `ClientEmail.ValidAgreesWithServer` shows it equals the server's |
| ClientEmail.RewriteAgrees | src/utils/normalizeEmail.js:5-18 | the client's split-and-strip step equals the server's on every text |
| ClientEmail.NormalizeAgreesWithServer | src/utils/normalizeEmail.js:1-19 | client and server `normalizeEmail` agree on every input |
| ClientEmail.ValidAgreesWithServer | src/utils/normalizeEmail.js:21-25 | client and server `isValidEmail` agree on every input |
| Identity.ConsistentIndexInjective | functions/reservePersonByEmail.js:15-16 | in a consistent index, two keys naming one person are the same key |
| Identity.NewPersonKeepsConsistent | functions/reservePersonByEmail.js:44-57 | indexing a new person under its own email keeps the index consistent |
| Identity.NormalizedArg | functions/reservePersonByEmail.js:19-20 | a string field is normalized; only a truthy non-string fails |
| Identity.ParseRequest | functions/reservePersonByEmail.js:19-27 | accepted names are trimmed |
| Identity.ParseRequestValid | functions/reservePersonByEmail.js:19-24 | only a valid normalized form of a string `email` is reserved |
| Identity.ReserveErrors | functions/reservePersonByEmail.js:19-27 | a non-string email fails as `internal`, an invalid one as `invalid-argument`; names decide the rest; a failure writes nothing |
| Identity.Admit | functions/reservePersonByEmail.js:31-66 | the transaction on validated input; characterised by `Identity.AdmitIndexes`, `Identity.AdmitKeepsConsistent` and `Identity.AdmitTwice` |
| Identity.Reserve | functions/reservePersonByEmail.js:19-66 | the whole callable on the directory; characterised by `Identity.ReserveErrors`, `Identity.ReserveIndexes`, `Identity.ReserveKeepsConsistent`, `Identity.ReserveTwice` and `Identity.ReserveThenLink` |
| Identity.AdmitIndexes | functions/reservePersonByEmail.js:31-66 | an indexed id is reused, otherwise the fresh one; a missing person is created `invited` with the email and names; an existing one is untouched and its link reported |
| Identity.ReserveIndexes | functions/reservePersonByEmail.js:19-66 | the same for the whole callable, for the request's normalized address |
| Identity.AdmitKeepsConsistent | functions/reservePersonByEmail.js:34-60 | the transaction keeps every index entry naming a person with that email |
| Identity.ReserveKeepsConsistent | functions/reservePersonByEmail.js:30-67 | the callable keeps the index consistent |
| Identity.AdmitTwice | functions/reservePersonByEmail.js:34-60 | admitting an address again returns the same person and writes nothing new |
| Identity.ReserveTwice | functions/reservePersonByEmail.js:30-60 | two reservations of one normalized address give one person, and the second changes nothing |
| Identity.RunReservation | functions/reservePersonByEmail.js:30-67 | the transaction's writes and result are those of the reference admission |
| Identity.ReservePersonByEmail | functions/reservePersonByEmail.js:18-68 | the callable's result and writes are those of the reference reservation |
| Identity.LinkTarget | functions/onUserCreate.js:19-30 | an account is linked iff it has an email whose normalized form is indexed to an existing person, and then to that person |
| Identity.ReserveThenLink | functions/onUserCreate.js:23-31 | an account created with a reserved address is linked to the reserved person |
| Identity.ClaimMatches | functions/onUserCreate.js:41-63 | every matching document is claimed, and every other one is untouched |
| Identity.LinkUserToPerson | functions/onUserCreate.js:18-65 | without a link nothing changes; with one, the person is `registered` with the uid and exactly the startups and judges reserved for it are claimed; index consistency is kept |
| Premoney.Join | functions/joiningPremoney.js:17-98 | the callable on the ledger; characterised by `Premoney.JoinErrors`, `Premoney.JoinCreatesWallet`, `Premoney.JoinKeepsPaired`, `Premoney.JoinTwice` and `Premoney.InvestorEmailAlwaysNull` |
| Premoney.InvestorRecordWithEmail | functions/joiningPremoney.js:79-86 | the corrected investor record holds the token's email when there is one, and the starting balances |
| Premoney.JoinErrors | functions/joiningPremoney.js:18-57 | errors in order: unauthenticated, invalid-argument, not-found, failed-precondition; a failure or a repeat join writes nothing |
| Premoney.JoinCreatesWallet | functions/joiningPremoney.js:43-90 | a first join writes a wallet with `remaining == totalAllocated ==` the starting balance (or 10000) and the matching investor record, and nothing else |
| Premoney.JoinKeepsPaired | functions/joiningPremoney.js:59-90 | every wallet keeps its investor record: both or neither |
| Premoney.JoinTwice | functions/joiningPremoney.js:52-57 | a second join reports the first wallet and writes nothing |
| Premoney.InvestorEmailAlwaysNull | functions/joiningPremoney.js:81 | as written, the investor email is null even for a caller whose token has one |
| Premoney.JoinPremoney | functions/joiningPremoney.js:17-98 | the callable's result and writes are those of the reference join |
| Startups.NormalizedNameShape | functions/createStartup.js:55 | a normalized name is lower case and trimmed, and empty only for a blank name |
| Startups.ValidNameTrim | functions/createStartup.js:35-37 | a string name passes iff it trims to something non-empty |
| Startups.OptionalFields | functions/createStartup.js:75-77 | the optional fields fail exactly when one is a non-string |
| Startups.CheckCreateIn | functions/createStartup.js:51-83 | past the event lookup only permission-denied, already-exists or internal can fail |
| Startups.CheckCreateInRecord | functions/createStartup.js:51-83 | a success means caller is host and the name unused; the record has the trimmed name, its normalized form, the caller as `host` owner and `active` |
| Startups.CheckCreate | functions/createStartup.js:24-83 | a success needs a signed-in caller, a non-empty string event id and a valid name |
| Startups.InsertKeepsUnique | functions/createStartup.js:57-85 | inserting under an unused normalized name keeps names unique per event |
| Startups.Create | functions/createStartup.js:24-85 | `createStartup` on the collections; characterised by `Startups.CreateErrors`, `Startups.CreateLaterErrors`, `Startups.CreateFailsCleanly`, `Startups.CreateInserts` and `Startups.CreateKeepsUnique` |
| Startups.CreateErrors | functions/createStartup.js:24-46 | unauthenticated, invalid-argument and not-found occur exactly in their precedence conditions |
| Startups.CreateLaterErrors | functions/createStartup.js:51-105 | permission-denied means not the host; already-exists, a used name; internal, an untrimmable field |
| Startups.CreateFailsCleanly | functions/createStartup.js:24-85 | a failed create writes nothing |
| Startups.CreateInserts | functions/createStartup.js:51-85 | a success by the host under an unused name adds exactly one record under the new id; it has the non-empty trimmed name, its lower case, `host` owner and `active`; the rest is unchanged |
| Startups.CreateKeepsUnique | functions/createStartup.js:57-85 | creation keeps normalized names unique per event |
| Startups.CreateStartup | functions/createStartup.js:17-107 | the callable's result and writes are those of the reference create |
| Startups.RewriteKeepsUnique | functions/updateStartup.js:53-82 | rewriting with the same or an unused normalized name keeps names unique |
| Startups.CheckUpdateIn | functions/updateStartup.js:40-80 | past the id checks only not-found, permission-denied, already-exists or internal fail; a success is by the owner, with the new names and the other fields kept |
| Startups.CheckUpdate | functions/updateStartup.js:19-80 | a success needs a signed-in owner, string ids, a valid name and an existing startup; only the names and text fields change |
| Startups.Update | functions/updateStartup.js:19-82 | `updateStartup` on the collection; characterised by `Startups.UpdateErrors`, `Startups.UpdateLookupErrors`, `Startups.UpdateRenameClash`, `Startups.UpdateFailsCleanly`, `Startups.UpdateChangesFields` and `Startups.UpdateKeepsUnique` |
| Startups.UpdateErrors | functions/updateStartup.js:19-31 | unauthenticated, then invalid-argument for a falsy id (truthiness only) or a blank name |
| Startups.UpdateLookupErrors | functions/updateStartup.js:42-51 | not-found iff the valid request names no startup; permission-denied means another owner |
| Startups.UpdateInRenameClash | functions/updateStartup.js:56-71 | already-exists means another startup of the event holds the new name |
| Startups.UpdateRenameClash | functions/updateStartup.js:56-71 | the same for the callable, with string ids |
| Startups.UpdateFailsCleanly | functions/updateStartup.js:19-82 | a failed update writes nothing |
| Startups.UpdateChangesFields | functions/updateStartup.js:73-82 | a success by the owner changes only that startup's names and text fields; every other startup and field is unchanged |
| Startups.UpdateKeepsUnique | functions/updateStartup.js:53-82 | renaming keeps normalized names unique per event |
| Startups.UpdateStartup | functions/updateStartup.js:13-100 | the callable's result and writes are those of the reference update |
| Startups.Delete | functions/deleteStartup.js:25-73 | `deleteStartup` on the collection; characterised by `Startups.DeleteRemovesOne` and `Startups.DeleteKeepsUnique` |
| Startups.DeleteRemovesOne | functions/deleteStartup.js:25-73 | unauthenticated iff anonymous, then invalid-argument, not-found and permission-denied each iff its condition in that precedence; a failure writes nothing; success iff the owner deletes an existing startup, which removes exactly that startup, keeps every other one and reports its name, or `Unknown` when it has none |
| Startups.DeleteKeepsUnique | functions/deleteStartup.js:66 | deleting keeps normalized names unique |
| Startups.DeleteStartup | functions/deleteStartup.js:17-86 | the callable's result and writes are those of the reference delete |
| EventCreation.Candidate | functions/createEvent.js:39 | one candidate code; `EventCreation.CandidateIsFiveDigits` shows it is five digits reading back as 10000 + draw |
| EventCreation.CandidateIsFiveDigits | functions/createEvent.js:39 | every candidate is five decimal digits reading back as 10000 + draw |
| EventCreation.FirstFree | functions/createEvent.js:38-45 | a found code has no event yet |
| EventCreation.FirstFreeIsFirst | functions/createEvent.js:38-45 | a code is found iff some candidate is free, and it is the first free one |
| EventCreation.AllocateEventCode | functions/createEvent.js:38-45 | the ten-try loop with `break` returns the reference first free code |
| EventCreation.OptionalLocation | functions/createEvent.js:61 | `location?.trim()` defaulting to null fails exactly on a non-string; a kept location is non-empty and trimmed |
| EventCreation.NewEvent | functions/createEvent.js:57-70 | the event record, or internal when an optional field cannot be trimmed; `EventCreation.CreatedEvent` states its fields |
| EventCreation.CreateEventOutcome | functions/createEvent.js:14-74 | the outcome of `createEvent`; characterised by `EventCreation.CreateEventErrors` and `EventCreation.CreatedEvent` |
| EventCreation.CreateEventErrors | functions/createEvent.js:14-74 | unauthenticated, then invalid-argument for a missing or non-string name, then internal iff all ten codes are taken, a field cannot be trimmed, or neither the token nor the account has an email (the write of an undefined `hostEmail` fails) |
| EventCreation.CreatedEvent | functions/createEvent.js:19-74 | a new event sits under the first free five-digit code, in `setup`, with its code, the trimmed name, the caller as host with a non-empty email (the token's, else the account's) and a boolean `isPublic` |
| EventCreation.WriteEvent | functions/createEvent.js:74-113 | the event is written, a user document only if absent, and the `host` mirror |
| EventCreation.CreateEvent | functions/createEvent.js:7-133 | on failure nothing is written; on success exactly the three writes of the computed event |
| EventStore.LookupCode | src/stores/event-store.js:25-45 | a code whose length is not 4 is a format error before any lookup; otherwise the event stored under its upper case, if any |
| EventStore.Accepts | src/stores/event-store.js:22-69 | accepted iff a 4-character code names an event neither ended nor in setup |
| EventStore.ErrorFor | src/stores/event-store.js:25-61 | the message is empty iff the code is accepted |
| EventStore.IssuedCodesRejected | src/stores/event-store.js:25-29 | every code the server issues fails the format check |
| EventStore.LookupCodeCorrected | src/stores/event-store.js:25-45 | the corrected check rejects exactly codes not of five characters |
| EventStore.IssuedCodesFound | src/stores/event-store.js:36-49 | with it, every issued code finds its event |
| EventStore.FirstJoin | src/stores/event-store.js:80-99 | `handleFirstTimeJoin` on the user documents; characterised by `EventStore.FirstJoinGrantsOnce`, `EventStore.FirstJoinTwice` and `EventStore.FirstJoinKeepsBalanced` |
| EventStore.FirstJoinGrantsOnce | src/stores/event-store.js:86-98 | a join adds 10000 and one count iff the event is new; the event ends up joined; other documents are untouched |
| EventStore.FirstJoinTwice | src/stores/event-store.js:87-98 | a second join changes nothing |
| EventStore.FirstJoinKeepsBalanced | src/stores/event-store.js:89-94 | a profile with one grant and one count per distinct joined event keeps that |
| EventStore.ArrayUnion | src/stores/event-store.js:91 | `arrayUnion` adds the element once and keeps the rest |
| EventStore.Store.constructor | src/stores/event-store.js:9-12 | the store starts with no event, empty code and error, not loading |
| EventStore.Store.HandleFirstTimeJoin | src/stores/event-store.js:80-99 | the user document and account after it are those of the reference first join |
| EventStore.Store.ValidateEventCode | src/stores/event-store.js:22-78 | answer and message as specified; any found event becomes current; a live event is joined; loading ends false after the format check |
| EventStore.Store.CompleteOnboarding | src/stores/event-store.js:101-117 | without an event or account nothing changes; otherwise the reference onboarding, after which `hasCompletedOnboarding` (lines 16-19) holds whenever the user document exists |
| EventStore.Store.ResetEvent | src/stores/event-store.js:119-123 | clears the current event, code and error, so `hasCompletedOnboarding` (lines 16-19) is false |
| EventStore.Onboard | src/stores/event-store.js:101-117 | `completeOnboarding` on the user documents; characterised by `EventStore.OnboardCompletes` and `EventStore.OnboardTwice` |
| EventStore.OnboardCompletes | src/stores/event-store.js:101-117 | onboarding marks the event complete in the document and locally and changes nothing else |
| EventStore.OnboardTwice | src/stores/event-store.js:107-113 | a repeat keeps the stored list but pushes the id locally once more |
| Investments.NormalizeId | src/composables/useInvestments.js:18-22 | a present id is never empty |
| Investments.EmptyRefIsNotNull | src/composables/useInvestments.js:18-22 | a ref with an empty value normalizes to `[object Object]`, not to null |
| Investments.NormalizeIdUnwrapped | src/composables/useInvestments.js:18-22 | corrected: no id iff nothing, "" or a ref with an empty value; otherwise the given text |
| Investments.NormalizeIdAgrees | src/composables/useInvestments.js:18-22 | the two agree except on a ref with an empty value |
| Investments.PotentialTotal | src/composables/useInvestments.js:71-74 | the budget check's `reduce`; characterised by `Investments.PotentialTotalAbsent` and `Investments.PotentialTotalIs` |
| Investments.Decide | src/composables/useInvestments.js:62-82 | the guards of `updateInvestment` as written; `Investments.AcceptedExistingStaysInBudget` and `Investments.NewStartupBypassesBudget` say when an accepted edit stays in budget |
| Investments.DecideCorrected | src/composables/useInvestments.js:62-82 | the guards with the edited total; `Investments.CorrectedStaysInBudget` keeps every accepted edit in budget |
| Investments.PotentialTotalAbsent | src/composables/useInvestments.js:71-74 | for a startup without an entry the check's sum is the current total |
| Investments.PotentialTotalIs | src/composables/useInvestments.js:71-74 | the check's sum is the edited total for a present startup and the current total otherwise |
| Investments.AcceptedExistingStaysInBudget | src/composables/useInvestments.js:71-84 | an accepted edit of a present startup keeps the total within the allocation |
| Investments.NewStartupBypassesBudget | src/composables/useInvestments.js:71-84 | an edit of a new startup can be accepted while exceeding the allocation |
| Investments.CorrectedStaysInBudget | src/composables/useInvestments.js:71-84 | the corrected check keeps every accepted edit in budget and agrees on present startups |
| Investments.MergeInvestment | src/composables/useInvestments.js:89-100 | the merged `investments` document; `Investments.ClientDocumentNotCounted` shows a new one is never aggregated |
| Investments.ClientDocumentNotCounted | src/composables/useInvestments.js:89-100 | a document the client creates has no `amount` or `role`, so the result aggregation never counts it |
| Investments.Merged | src/composables/useInvestments.js:53-58 | the local object after a snapshot; characterised by `Investments.MergedReadsLast` |
| Investments.MergedReadsLast | src/composables/useInvestments.js:53-58 | after a snapshot each startup reads its last reported amount, else its old one; keys stay distinct |
| Investments.InvestmentsState.constructor | src/composables/useInvestments.js:7-9 | no allocation and no investments |
| Investments.InvestmentsState.TotalInvested | src/composables/useInvestments.js:11-13 | `totalInvested`, the sum of the amounts; `Investments.InvestmentsState.RemainingBalance` bounds the balance by it |
| Investments.InvestmentsState.RemainingBalance | src/composables/useInvestments.js:11-15 | `max(totalAllocated - totalInvested, 0)`: never negative |
| Investments.InvestmentsState.FetchWallet | src/composables/useInvestments.js:25-34 | the wallet's allocation, or 0 without a wallet; nothing without an id or account |
| Investments.InvestmentsState.ApplySnapshot | src/composables/useInvestments.js:53-58 | the loop leaves the reference merge of the snapshot, keys distinct |
| Investments.InvestmentsState.UpdateInvestment | src/composables/useInvestments.js:62-101 | a refused edit changes nothing; an accepted one sets the amount locally, then merges the document when the id and account are known |
| EventResults.StatusText | src/composables/useEventResults.js:20-65 | the `status` text of each view; `EventResults.ResultsState.Refresh` sets it |
| EventResults.Decide | src/composables/useEventResults.js:16-65 | loading without id; `Event not found`; not_ended; processing whenever not flagged ready; the event's error; ready only when all checks pass, with the results keyed by id |
| EventResults.ProcessingUntilFlagged | src/composables/useEventResults.js:43-46 | an ended event not flagged ready stays processing whatever result documents exist |
| EventResults.ResultsState.constructor | src/composables/useEventResults.js:7-9 | status loading, no results, no error |
| EventResults.ResultsState.Refresh | src/composables/useEventResults.js:14-66 | the status of the view; the error only on a failure and the results only when ready |
| EventQuestions.OrderKey | src/composables/useEventQuestions.js:41 | `q.order ?? 0`; `EventQuestions.RatingQuestions` and `EventQuestions.RatingQuestionsStable` sort by it |
| EventQuestions.RatingsOnly | src/composables/useEventQuestions.js:40 | exactly the rating questions, each as often as it occurs |
| EventQuestions.RatingsOnlyWithKey | src/composables/useEventQuestions.js:40-41 | filtering by type commutes with selecting one `order` |
| EventQuestions.RatingQuestions | src/composables/useEventQuestions.js:38-44 | rating questions only, sorted by `order` (missing is 0), a permutation of the filtered list; none for a non-array |
| EventQuestions.RatingQuestionsExact | src/composables/useEventQuestions.js:38-41 | each rating question appears as often as in the field, and no other question appears |
| EventQuestions.RatingQuestionsStable | src/composables/useEventQuestions.js:41 | questions with equal `order` keep their input order |
| EventQuestions.QuestionsState.constructor | src/composables/useEventQuestions.js:7-10 | empty lists, not loading, no error |
| EventQuestions.QuestionsState.FetchQuestions | src/composables/useEventQuestions.js:16-71 | no id changes nothing; a missing event sets the error and keeps the lists; otherwise both lists are replaced; loading ends false |

## Left out

- Firestore I/O is left out. That covers reads, writes, batches, transactions, `Promise.all`, snapshot listeners and their error callbacks. Collections are maps; query snapshots, generated ids and random draws are parameters.
- Concurrency is left out. Calls are sequential: two calls racing past a duplicate check are not modelled.
- Server timestamps, `updatedAt`/`createdAt` and the results' `generatedAt` are left out, because they carry no rule.
- Logging and `Notify` toasts are left out.
- Network or permission failures of a read or write are left out.
- Strings are ASCII. Unicode white space in `trim` and Unicode case mapping are not modelled.
- Numeric fields are integers. Non-numeric `amount` or `rating` (string concatenation), NaN and floating point are not modelled.
- JavaScript orders integer-like object keys first. `Dict` keeps plain insertion order, which matches for Firestore's generated startup ids.
- EventCreation.CreateEvent: `date` and `capacity` (`x || null`) are not modelled. The email the account holds is a parameter, and a failing account lookup is not modelled.
- Startups.CreateStartup, Startups.UpdateStartup, Startups.DeleteStartup, EventCreation.CreateEvent: a request with no data object is not modelled. In the source, destructuring `request.data` then throws a TypeError after the auth check, which the callable reports as `internal`. The model's request always has its fields, each possibly absent.
- Investments.InvestmentsState.FetchWallet: the `premoneyPerUser` fallback and the realtime wallet listener are not modelled.
- Investments.InvestmentsState.UpdateInvestment: without an account, the source throws on `user.uid` after the local update. It is modelled as no document write.
- Premoney.JoinPremoney: `eventId` is `String(eventId)` of a truthy value. It is modelled as a string, where "" is the falsy case.
- EventResults.ResultsState.Refresh: only the current id's snapshot is modelled. Subscription management, the reactive watch and `generatedAt` are not modelled.
- EventStore.Store.ValidateEventCode: a failing read (the `catch` message) is not modelled.
- The notification and e-mail sending functions and the UI wrappers are not part of this model.

## Findings

| source | as written | input that shows it | evidently intended | confidence | as-written member | corrected member |
|---|---|---|---|---|---|---|
| functions/utils/normalizeEmail.js:21-24 | the Gmail branch strips dots after trimming, which can leave leading white space, so `normalizeEmail` is not idempotent | `". x@gmail.com"` gives `" x@gmail.com"`, which normalizes to `"x@gmail.com"` | a normalized address is trimmed and normalizes to itself | not executed; proved on the model | ServerEmail.NormalizeNotIdempotent | ServerEmail.NormalizeEmailTrimmedIdempotent |
| src/composables/useInvestments.js:71-76 | the budget sum covers only startups already in the object, so a first investment in a startup is never checked | allocation 100, nothing invested, 1000 into a new startup: accepted, total 1000 | every accepted edit keeps the total within the allocation | not executed; proved on the model | Investments.NewStartupBypassesBudget | Investments.CorrectedStaysInBudget |
| functions/joiningPremoney.js:81 | `user.email` reads the email on `request.auth`, which holds only the uid and token, so it is always null | any caller whose token carries an email | the investor record holds the caller's email | not executed; proved on the model | Premoney.InvestorEmailAlwaysNull | Premoney.InvestorRecordWithEmail |
| src/composables/useInvestments.js:18-22 | a ref whose value is still empty becomes `String(ref)`, so the id guard passes | an event id ref holding "" gives `"[object Object]"` | an empty ref means no event id yet | not executed; proved on the model | Investments.EmptyRefIsNotNull | Investments.NormalizeIdAgrees |
| src/stores/event-store.js:25 | the client accepts only 4-character codes, but the server issues 5-digit codes (functions/createEvent.js:39) | any code `createEvent` issues, e.g. `"10000"` | entering an issued code finds its event | not executed; proved on the model | EventStore.IssuedCodesRejected | EventStore.IssuedCodesFound |

The operations keep the code's behaviour as written. Each corrected definition sits beside them with its intended property proved.
