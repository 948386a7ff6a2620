# Conference catalog: fixture store and catalog filter

A Dafny model of the data core of a small conference-information service
(the "Google Cloud Tech Day 2025" site). The service keeps three fixed
collections in memory: one event record, a dictionary of eight speakers keyed
`s1`..`s8`, and a schedule of nine talks, one of which is the `"lunch"` break.
It answers two queries over them:

- **speaker filter** (`get_filtered_speakers`): the speakers whose name contains
  the query, ignoring case. With no query or an empty one it returns every speaker.
- **schedule** (`get_schedule`): each talk is enriched with `speaker_details`,
  the speaker records its keys resolve to. Keys that resolve to nothing are
  skipped silently. With a query, only the talks whose title, category or
  resolved speaker name contains it are kept.

Modules:

- `Options` (`options.dfy`): the `Option` datatype, for dictionary lookups and absent queries.
- `Seqs` (`seqs.dfy`): the order-preserving filter both queries are built on.
  `Filter` is defined element by element from the end, the same way a loop
  appends. `FilterIndices` and `Embeds` state exactly which positions it keeps.
- `Text` (`text.dfy`): `Lower`, a character-wise `str.lower`. `Contains` is
  substring containment. `Occurs` is an executable search that gives the same answer
  as Python's `needle in hay`.
- `Repository` (`repository.dfy`): the data model (`EventInfo`, `Speaker`,
  `Talk`, `Store`), the fixture constants and the four accessors. The speaker
  dictionary is a sequence of `(key, speaker)` pairs in insertion order, so that
  "all speakers" has the dictionary's order. `DistinctKeys` states that no key
  appears twice. The accessors read an explicit `Store`; `FIXTURE` is the store
  the service runs on.
- `Catalog` (`catalog.dfy`): the two queries. Each one is a method with the
  source's loops, proved equal to a specification function (`FilteredSpeakers`,
  `Schedule`). Lemmas about those functions give the properties.
- `Scenarios` (`scenarios.dfy`): the queries on the fixture itself.

A query is an `Option<string>`. `IsBlank` is Python's `not query`: `None` and
`""` behave the same. Speaker records carry the field `linkedin`, as in the code.
Speakers are returned in dictionary insertion order. The code fixes this order,
so the model states it.

## Model

| member | source | states |
|---|---|---|
| `Repository.GetEventInfo` | database/repository.py:97-98 | the event accessor returns the store's event record unchanged (on the fixture, `EVENT_INFO`, by `FixtureEventAndTalks`) |
| `Repository.GetAllTalks` | database/repository.py:100-101 | the talk accessor returns the store's talks unchanged and in order (on the fixture, the nine talks, by `FixtureEventAndTalks`) |
| `Repository.Lookup` | database/repository.py:103-104 | dictionary `get`: `None` exactly when the key is not in the table, otherwise a value stored under that key |
| `Repository.GetSpeakerById` | database/repository.py:103-104 | the speaker lookup returns `None` exactly for keys absent from the store's table, otherwise a record stored under the key |
| `Repository.LookupFindsStored` | database/repository.py:103-104 | in a table with distinct keys, looking up the i-th key returns the i-th record |
| `Repository.GetAllSpeakers` | database/repository.py:106-107 | one speaker per table entry, nothing added: the i-th result is stored in the table under the i-th key |
| `Repository.AllSpeakersInKeyOrder` | database/repository.py:106-107 | with distinct keys, the i-th speaker returned is exactly what the i-th key looks up to (dictionary values in insertion order) |
| `Repository.FixtureSpeakers` | database/repository.py:10-19 | on the fixture, all speakers are exactly the eight records in key order s1..s8 |
| `Repository.FixtureEventAndTalks` | database/repository.py:97-101 | on the fixture, the event and talk accessors return the fixture unchanged: nine talks in order, the fifth being `"lunch"` with an empty speaker list |
| `Repository.FixtureKeysDistinct` | database/repository.py:10-19 | the fixture's keys are s1..s8 in insertion order, pairwise distinct |
| `Repository.FixtureIdsDistinct` | database/repository.py:22-95 | the nine fixture talk ids are pairwise distinct |
| `Repository.FixtureReferencesResolve` | database/repository.py:22-95 | every speaker key any fixture talk lists is a key of the speaker table |
| `Text.LowerChar` | backend/services/catalog_service.py:8 | the result is never a capital letter of the modelled range; a capital becomes the character 0x20 above it, and any other character is left unchanged |
| `Text.Lower` | backend/services/catalog_service.py:8 | lower-casing a string (here and at line 20) keeps its length and leaves no capital of the modelled range; each capital becomes the character 0x20 above it, and every other character stays where it was |
| `Text.LowerCharEq` | backend/services/catalog_service.py:8 | two characters lower-case to the same character exactly when they are the same letter up to case (`SameUpToCase`) |
| `Text.LowerEqIff` | backend/services/catalog_service.py:20 | two strings lower-case to the same string exactly when they have the same length and agree position by position up to case, which is when `QueryCaseInsensitive` applies |
| `Text.LowerIdempotent` | backend/services/catalog_service.py:8 | lower-casing keeps the length, and lower-casing twice equals lower-casing once |
| `Text.Occurs` | backend/services/catalog_service.py:11 | `needle in hay` (here and at lines 34-36): the empty needle is always found, and a needle longer than the haystack never is; `OccursIffContains` gives the exact answer |
| `Text.OccursIffContains` | backend/services/catalog_service.py:11 | the search succeeds exactly when the needle occurs as a contiguous block of the haystack |
| `Catalog.IsBlank` | backend/services/catalog_service.py:5 | Python's `not query` (here and at lines 20 and 33): a query is non-blank exactly when it is present and has at least one character |
| `Catalog.SpeakerKeys` | backend/services/catalog_service.py:25 | `talk.get('speakers', [])`: the talk's own key list when it has one, otherwise no keys |
| `Catalog.GetFilteredSpeakers` | backend/services/catalog_service.py:3-14 | the loop returns exactly `FilteredSpeakers`; for a blank query, all speakers unchanged and in order |
| `Catalog.SpeakerFilterExact` | backend/services/catalog_service.py:8-14 | for a non-blank query, the result is an order-preserving subsequence of all speakers. It keeps a position exactly when the lower-cased name contains the lower-cased query. A speaker is in the result iff it is a speaker and matches |
| `Catalog.SpeakerFilterIdempotent` | backend/services/catalog_service.py:10-12 | re-applying the name predicate to the speaker result returns it unchanged |
| `Catalog.QueryCaseInsensitive` | backend/services/catalog_service.py:8-20 | two queries with equal lower-cased forms give identical speaker results and identical schedules; so do a query and its lower-cased form |
| `Catalog.Resolve` | backend/services/catalog_service.py:24-28 | speaker details never outnumber the keys |
| `Catalog.ResolveSpeakerDetails` | backend/services/catalog_service.py:24-28 | the inner loop builds exactly `Resolve` of the talk's keys |
| `Catalog.ResolveAppend` | backend/services/catalog_service.py:24-28 | details of concatenated key lists are the concatenated details, so details follow key order |
| `Catalog.ResolveOne` | backend/services/catalog_service.py:25-28 | one key gives its speaker, or nothing (no error) when the key is unknown |
| `Catalog.ResolveMembers` | backend/services/catalog_service.py:24-28 | a speaker is among the details iff one of the keys looks up to it |
| `Catalog.ResolveAllKnown` | backend/services/catalog_service.py:24-28 | when every key is known, there is one detail per key, the i-th being the i-th key's speaker |
| `Catalog.Enrich` | backend/services/catalog_service.py:24-30 | the enriched talk holds the original talk unchanged; its details are at most as many as its keys, and empty for a talk without a `speakers` field |
| `Catalog.EnrichAll` | backend/services/catalog_service.py:22-30 | the enrichment half of the outer loop yields one enriched talk per talk (`EnrichAllShape` adds that the i-th is the i-th talk enriched) |
| `Catalog.EnrichAllShape` | backend/services/catalog_service.py:22-30 | enriching the talks gives one enriched talk per talk, in the same order |
| `Catalog.MatchesQuery` | backend/services/catalog_service.py:34-38 | the three-part test on a talk is true exactly when the talk matches: the query occurs in its title, its category, or a resolved speaker name |
| `Catalog.AnyNameOccurs` | backend/services/catalog_service.py:36 | the `any(...)` test holds iff some resolved speaker's lower-cased name contains the lower-cased query |
| `Catalog.SpeakerMatchThroughKeys` | backend/services/catalog_service.py:36 | a talk matches through its speakers iff one of its keys resolves to a speaker whose name matches; unknown keys never match |
| `Catalog.GetSchedule` | backend/services/catalog_service.py:16-44 | the nested loops return exactly `Schedule`; for a blank query, every talk enriched, in order |
| `Catalog.ScheduleBlankQuery` | backend/services/catalog_service.py:40-42 | for a blank query, there is one entry per talk, in order, each holding its talk unchanged with the talk's resolved speakers |
| `Catalog.ScheduleFilterExact` | backend/services/catalog_service.py:33-39 | for a non-blank query, the schedule is an order-preserving subsequence of the unfiltered schedule. It keeps an entry exactly when the query matches its title, category or a resolved speaker name. An entry is in it iff it is in the unfiltered schedule and matches |
| `Catalog.ScheduleKeepsMatch` | backend/services/catalog_service.py:33-39 | a talk whose enriched form matches a non-blank query is in that query's schedule |
| `Catalog.ScheduleIdempotent` | backend/services/catalog_service.py:33-39 | re-applying the talk predicate to the schedule result returns it unchanged |
| `Scenarios.GarciaFindsAna` | backend/services/catalog_service.py:3-14 | over the fixture's speakers, the query "garcía" returns exactly Ana García |
| `Scenarios.InfraestructuraFindsT2T6` | backend/services/catalog_service.py:33-39 | on the fixture, the query "infraestructura" keeps talks t2 and t6 (category "Infraestructura"), each with non-empty speaker details |
| `Scenarios.GarciaScheduleFindsT2T6` | backend/services/catalog_service.py:33-39 | on the fixture, the query "garcía" keeps talks t2 and t6, where Ana García is a resolved speaker |
| `Scenarios.AnaAnyCase` | backend/services/catalog_service.py:8-20 | "ANA" and "ana" give the same speakers and the same schedule |
| `Scenarios.FixtureBlankQuery` | backend/services/catalog_service.py:40-42 | with a blank query, the fixture schedule has nine entries with the lunch break fifth and without speakers, and each talk has one speaker per key. The speaker list has eight entries |
| `Scenarios.UnknownKeyDropped` | backend/services/catalog_service.py:26-28 | a talk listing the unknown key "s9" before "s1" is enriched with Ana García alone |

## Left out

- `async`/`await`: every accessor and query only reads memory, so each is modelled as a synchronous function or method.
- HTTP routing, template rendering, the health payload, CORS, static files and process start-up (`backend/routes.py`, `web/routes.py`, `backend/main.py`, `main.py`) are not part of this model. They only wrap the core.
- The browser script `frontend/static/js/app.js` is not part of this model: it only renders and fetches.
- Text.LowerChar: agrees with Python's `str.lower` on U+0000–U+00FF (A–Z and the Latin-1 capitals U+00C0–U+00DE except U+00D7). It leaves every other character unchanged. Full Unicode case mapping, including multi-character results, is not modelled.
- Aliasing: the Python accessors hand out the fixture's own mutable dicts and lists. The model uses immutable values, so the fact that no accessor changes the fixture holds by construction.
- `if speaker:` tests the truthiness of the looked-up dict. Every stored speaker record is a non-empty dict, so the model tests only whether the lookup found a record.
- A talk lacking `title` or `category` would raise `KeyError` in the code. The `Talk` datatype always has both fields, so that failure cannot be expressed. Only `speakers` is optional (`Option`), as `talk.get('speakers', [])` allows.
- Python dictionary literals with a repeated key keep the later value. The model assumes distinct keys (`DistinctKeys`, proved for the fixture), and lookup returns the first match.
- Repository.FixtureSpeakers: states the exact eight-record list. That no record appears twice can be read off that list, but it is not proved as a separate lemma.
- Scenarios.InfraestructuraFindsT2T6 and Scenarios.GarciaScheduleFindsT2T6: prove that t2 and t6 are in these schedules, not that they are the only entries. Ruling out the other seven talks needs non-containment facts for every fixture title, category and speaker name, one literal-string proof each, and these are left out.
- `EVENT_INFO` has no logic: its content is only returned unchanged.
