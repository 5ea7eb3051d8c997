# Per-project issue tracker: a Dafny model

This project models the request handlers of a small issue tracker (`routes/api.js`).
The tracker keeps a process-wide map from project name to an ordered array of
issue records. It answers four requests on a project:

- **list (GET)** returns the records that satisfy every query key;
- **create (POST)** validates three required fields and appends a new record;
- **update (PUT)** validates the request, finds a record by `_id` and assigns the fields that were sent;
- **delete (DELETE)** finds a record by `_id` and splices it out.

A project is created, empty, the first time a handler looks it up.

Layout:

- `issues.dfy`, module `Issues`: the record and request types and the replies. It also holds
  `FindIndex`, and one pure function per writing handler (`CreateStep`, `UpdateStep`,
  `DeleteStep`). Each maps one project's collection to the reply and the collection afterwards.
  Their contracts carry the error precedence and the effect on the collection.
- `issues.dfy`, module `IssueLemmas`: properties that relate several calls.
  These are idempotent update, exact removal, and keeping identifiers unique.
- `filter.dfy`, module `Listing`: the GET filter as a function, and its properties.
  It lists an order-preserving subsequence of the collection.
  The keys combine by AND. `open` is read as a case-insensitive "true".
  Other keys compare the record's field as text.
- `store.dfy`, module `IssueStore`: the class `Store`, holding the map
  `projects: map<string, seq<Issue>>`. Its methods change it in place, as the handlers do.
  Each method is proved to agree with the pure step function and to leave every other project alone.
- `clients.dfy`, module `Clients`: the request sequence of the repository's functional tests.
  The replies those tests expect follow from the methods' contracts alone.
- `sequences.dfy` (subsequences), `wrappers.dfy` (`Option`).

Where the code departs from the tracker's documented contract, the model follows the code:

- The documented contract has every handler first resolve, and so create, the project.
  In the code, three kinds of request return before `getProjectStore` runs:
  a create with a missing field, an update or delete without `_id`, and an update with nothing to update.
  Those leave the map exactly as it was. A successful create, "could not update",
  "could not delete" and every GET do create the project.
- The documented contract calls `_id` unique within a project. Nothing in the code enforces it.
  `IssueLemmas.CreateTakenIdDuplicates` shows that a create reusing an identifier leaves two records with it.

Two behaviours of the code are stated as lemmas because they are easy to miss:

- An update cannot blank a field on its own: a request whose fields are all `""` is refused.
  Sent alongside a real update, `""` is assigned, and `open: ""` closes the issue.
- The `open` filter is case-insensitive (`TRUE` lists open issues).
  The `open` update is case-sensitive (`"TRUE"` closes the issue).

## Model

| member | source | states |
|---|---|---|
| `Issues.FindIndex` | routes/api.js:95 | -1 exactly when no record has the identifier; otherwise the first position holding it |
| `Issues.CreateStep` | routes/api.js:50-67 | fails with "required field(s) missing" exactly when title, text or creator is absent or "", and then leaves the collection as it was; otherwise appends one record at the end with the given id, `open` true, `created_on == updated_on == now`, the submitted fields, and "" for an absent `assigned_to`/`status_text` |
| `Issues.Apply` | routes/api.js:100-107 | every field that was sent is assigned, "" included; unsent fields are kept; `open` becomes true only for `true` or "true"; `_id` and `created_on` are kept; `updated_on` becomes now |
| `Issues.UpdateStep` | routes/api.js:83-109 | error precedence: "missing _id", then "no update field(s) sent" (every field absent or ""), then "could not update"; an error leaves the collection unchanged; success changes only the first record with the id, as `Apply` does; length, identifiers and creation times of all records are kept |
| `Issues.DeleteStep` | routes/api.js:115-124 | "missing _id", then "could not delete"; both leave the collection unchanged; success removes exactly the first record with the id, the rest keeping their order, so the length drops by one |
| `IssueLemmas.UpdateIdempotent` | routes/api.js:95-107 | repeating an update at the same time changes nothing more and gives the same reply |
| `IssueLemmas.DeleteRemovesExactlyOne` | routes/api.js:119-123 | a successful delete removes one occurrence of the first matching record; what is left is an order-preserving subsequence |
| `IssueLemmas.CreateFreshIdKeepsUnique` | routes/api.js:56-67 | a create with an identifier not in the collection keeps identifiers unique |
| `IssueLemmas.CreateTakenIdDuplicates` | routes/api.js:56-67 | the new identifier is never checked: a create with a taken identifier leaves two records sharing it |
| `IssueLemmas.UpdateKeepsUnique` | routes/api.js:100-107 | update keeps identifiers unique, since it never changes one |
| `IssueLemmas.DeleteUniqueRemovesId` | routes/api.js:119-123 | with unique identifiers, no record with the deleted identifier remains, and identifiers stay unique |
| `IssueLemmas.BlankOnlyUpdateRefused` | routes/api.js:88-92 | an update whose fields are all absent or "" is refused with "no update field(s) sent" and changes nothing |
| `IssueLemmas.BlankAlongsideUpdateApplied` | routes/api.js:101-106 | "" sent with a real update is assigned, and `open: ""` closes the issue |
| `Listing.Filter` | routes/api.js:26-36 | every listed record satisfies every query key; each satisfying record is listed as often as it occurs, and nothing else |
| `Listing.FilterIsSubsequence` | routes/api.js:26 | the listing keeps the collection's order (an order-preserving subsequence) |
| `Listing.FilterNoKeys` | routes/api.js:27 | with no query keys the whole collection is listed |
| `Listing.FilterAppend` | routes/api.js:26 | listing a collection extended at its end lists the old part first |
| `Listing.FilterSingle` | routes/api.js:26-27 | a one-record collection lists its record exactly when the record satisfies the query |
| `Listing.FilterConjunction` | routes/api.js:27 | keys combine by AND: filtering on two disjoint sets of keys is filtering on one, then the other |
| `Listing.SingleKeyQuery` | routes/api.js:27-35 | a one-key query is that key's test |
| `Listing.OpenQueryValueCases` | routes/api.js:31 | an `open` query value reads as true exactly when it is "true" in any letter case |
| `Listing.LowerAt` | routes/api.js:31 | lower-casing keeps the length and lower-cases each letter |
| `Listing.OpenFilterSelects` | routes/api.js:29-33 | filtering on `open` alone lists exactly the records whose `open` equals (value is case-insensitive "true"); "false" and any other value list the closed ones |
| `Listing.UnknownKeyQuery` | routes/api.js:34 | a key naming no field of the record matches only the value "undefined" |
| `Listing.AndFilterExample` | routes/api.js:26-36 | of an open record by A, a closed one by A and an open one by B, `created_by=A&open=true` lists only the first |
| `Sequences.RemoveAtIsSubsequence` | routes/api.js:123 | removing one element keeps the others in order |
| `IssueStore.Vivify` | routes/api.js:9 | after a lookup the project exists; an existing project's map is untouched; no project's collection changes |
| `IssueStore.ListAfterCreate` | routes/api.js:26-36 | after a successful create, a listing is the earlier listing followed by the new record if it satisfies the query |
| `IssueStore.AssignFields` | routes/api.js:100-107 | the handler's field-by-field assignments to the found record produce exactly `Apply` of the request |
| `IssueStore.Store.constructor` | routes/api.js:6 | the store starts with no project |
| `IssueStore.Store.GetProjectStore` | routes/api.js:8-11 | returns the project's collection, creating it empty when unknown; repeating the lookup changes nothing |
| `IssueStore.Store.List` | routes/api.js:22-37 | looks the project up (creating it) and returns the filtered collection |
| `IssueStore.Store.Create` | routes/api.js:40-68 | reply and new collection are those of `CreateStep`; a failed create leaves the map untouched; other projects are unchanged |
| `IssueStore.Store.Update` | routes/api.js:71-110 | reply and new collection are those of `UpdateStep`; the two request checks leave the map untouched; every error leaves every collection unchanged; other projects are unchanged |
| `IssueStore.Store.Delete` | routes/api.js:112-125 | reply and new collection are those of `DeleteStep`; a missing `_id` leaves the map untouched; every error leaves every collection unchanged; other projects are unchanged |

## Left out

- HTTP routing, body and query parsing, `res.json` and the status code (always 200).
  Requests are plain inputs and replies a datatype.
- `generateId` (routes/api.js:13-18) reads the clock and a random source.
  The new identifier is a parameter of `Create`, and no uniqueness is claimed.
- `new Date()`: the time is an integer parameter.
  The text `String()` gives for a date depends on the host's time zone.
  It is the `render` parameter of the filter, used for the `created_on` and `updated_on` keys.
- Request values other than strings. This covers `null`, numbers, arrays and objects in a body or query,
  and the JavaScript truthiness and `String()` coercion that apply to them.
  Request fields are optional strings, and `open` in an update is a boolean or a string.
  So the `!!q` branch of the `open` filter (a non-string query value) is not modelled.
- Filter keys that name inherited object properties (`constructor`, `toString`, ...).
  In the code these compare against the property's text. In the model every unknown key reads as "undefined".
- `toLowerCase` is modelled on ASCII letters only.
  No other character lower-cases to one of the letters of "true", so the `open` filter is unaffected.
- Issue records are values: an update rebuilds the record and stores it at the same position.
  Aliasing between records and the arrays a listing returns is not modelled.
  The listing is serialised at once, so nothing observes it.
- Concurrency: each handler runs to completion before the next one, as under a single event loop.
