# Video store: validation and in-memory store

A Dafny model of the one Express application in `src/setting.ts`: a CRUD
service over an in-memory array of video records (`videoDb`). Routing and
serialisation are stripped away; what remains is

- the `AvailableResolution` enumeration and the membership test
  `AvailableResolution[tag]`, which looks a member up by its key name, so the
  accepted tags are the eight names `P144` … `P2160` although the enumeration
  stores only three distinct values (`resolutions.dfy`);
- JavaScript's `trim`, on which every length rule is stated (`text.dfy`);
- the validators of POST /videos and PUT /videos/:id: pure functions that state
  the rules (`CreateErrors`, `UpdateErrors`) and methods that build the error
  list by successive appends as the handlers do, create accumulating one error
  per unknown tag and update stopping at the first one (`validation.dfy`);
- the store as a class `VideoStore` whose field `videos` the methods reassign:
  lookup by first matching id, append on create, overwrite in place on update,
  splice on delete, empty on clear; each answers an `Outcome` instead of an
  HTTP status (`store.dfy`);
- two request sequences against a fresh store, stated as assertions
  (`scenarios.dfy`).

Request fields are `Option`s: `None` stands for a field that is absent; both
validators treat an explicit null the same way, and for `availableResolutions`
`None` also stands for a value that is not an array. The clock-derived values of a create (the
new id, `createdAt`, `publicationDate`) are parameters of `VideoStore.Create`.

The model follows the code, including where it departs from the service's
evident intent:

- Create's "title" rule tests `author.trim().length > 40` and tags its error
  with the field `author`; the title's length is never bounded on create
  (`CreateAcceptsLongTitle`), and an author longer than 40 draws two errors
  tagged `author` (`LongAuthorTwoAuthorErrors`). A per-field rule (title at
  most 40, tagged `title`), as update has, is not what create does.
- Create with a non-empty title and no author throws a TypeError at
  `author.trim()` before anything is stored; the model answers `Crashed`.
- GET of an absent id answers not-found with no `errorsMessages` entry (only
  the status text); PUT and DELETE answer it with the single entry
  `{"Video not found", "id"}`.
- Ids are not checked for uniqueness by the code. The model proves that
  update, delete and an append of an id not yet present keep ids unique
  (`FindAfterReplace`, `RemoveFirstMatch`, `FindAfterAppend`), not that the
  store always has unique ids.

Every stored record satisfies `WellFormed` (a non-empty title, an author that is
non-empty with trimmed length at most 20, only accepted tags): the class
invariant `VideoStore.Valid` holds of the seed and every method keeps it.

## Model

| member | source | states |
|---|---|---|
| `Text.Trim` | src/setting.ts:79 | `trim()` is never longer than its input |
| `Text.TrimStartSpec` | src/setting.ts:79 | stripping leading white space leaves the longest suffix that does not start with white space; every dropped character is white space |
| `Text.TrimEndSpec` | src/setting.ts:82 | stripping trailing white space leaves the longest prefix that does not end with white space; every dropped character is white space |
| `Text.TrimSpec` | src/setting.ts:154 | `trim()` is empty exactly when the string is all white space, and otherwise starts and ends with a character that is not white space |
| `Text.TrimIsSlice` | src/setting.ts:79 | `trim()` is the contiguous slice of the string left after dropping white space before it and after it, and everything dropped is white space |
| `Text.TrimOfTrimmed` | src/setting.ts:151 | a string with no white space at either end is its own trimmed form |
| `Text.TrimIdempotent` | src/setting.ts:154 | trimming twice gives the same as trimming once |
| `Resolutions.FromKey` | src/setting.ts:87 | `AvailableResolution[s]` finds a member only under that member's own name, and finds nothing when no member is named `s` |
| `Resolutions.FromKeyName` | src/setting.ts:161 | looking a member up by its name finds that member |
| `Resolutions.KeysAreNames` | src/setting.ts:8-18 | the accepted tags are exactly the eight key names |
| `Resolutions.MembershipIgnoresValues` | src/setting.ts:8-18 | the values collapse to three strings, yet "P2160", no member's value, is accepted, and every value is itself an accepted name |
| `Validation.SentFormsDistinct` | src/setting.ts:80-90 | the `field` and `message` strings sent identify the field and the message: two errors are sent alike exactly when they are the same |
| `Validation.CreateTitleErrorSent` | src/setting.ts:80 | create's title error is sent as `{"Invalid title", "author"}`, the message of update's title error under a different field |
| `Validation.UnknownTagErrorsCount` | src/setting.ts:86-91 | create's tag scan emits exactly one error per position holding an unknown tag, all of them the resolutions error |
| `Validation.UnknownTagErrorsUniform` | src/setting.ts:87-90 | every error of create's tag scan is `{"Invalid availableResolutions", "availableResolutions"}` |
| `Validation.ScanAllTags` | src/setting.ts:86-91 | the loop that pushes an error per unknown tag produces exactly the scan's error list |
| `Validation.ValidateCreate` | src/setting.ts:78-95 | the handler's pushes produce exactly `CreateErrors`, including the TypeError of a truthy title with no author |
| `Validation.CreateErrorsByField` | src/setting.ts:79-84 | the title error appears exactly when the title is missing or empty or the trimmed author exceeds 40; the author error exactly when the author is missing or empty or its trimmed length exceeds 20; no other kind of error appears besides resolution errors |
| `Validation.CreateResolutionErrorCount` | src/setting.ts:85-95 | create reports as many resolution errors as a non-empty array has unknown tags (none when the array is missing or empty), and at most one title error |
| `Validation.CreateErrorsEmptyIff` | src/setting.ts:78-96 | create reports no error exactly when title and author are present and non-empty, the trimmed author is at most 20 and every tag is a name |
| `Validation.LongAuthorTwoAuthorErrors` | src/setting.ts:79-84 | an author longer than 40 after trimming draws the title error and the author error, both tagged `author` |
| `Validation.CreateAcceptsLongTitle` | src/setting.ts:79-81 | a 41-character title with a one-character author and no resolutions is accepted |
| `Validation.CreateEmptyTitleRejected` | src/setting.ts:79-81 | an empty title draws the title error first and does not throw |
| `Validation.UpdateErrorsCharacterised` | src/setting.ts:138-166 | update reports at most three errors, never two for one field, each exactly when its rule fails on the defaulted value, and none exactly when title, author and a non-empty list of names are valid |
| `Validation.UpdateMissingFieldsRejected` | src/setting.ts:138-158 | a missing title or author, or a missing or empty resolution list, always draws that field's error |
| `Validation.UpdateAcceptsBlankTitle` | src/setting.ts:151-153 | a title of three spaces passes update's title rule |
| `Validation.ScanUntilUnknown` | src/setting.ts:160-165 | the loop over a non-empty tag list pushes one error and stops when some tag is unknown, and pushes nothing when all are names |
| `Validation.ValidateUpdate` | src/setting.ts:147-166 | the handler's pushes, with the tag loop that breaks at the first unknown tag, produce exactly `UpdateErrors` |
| `Store.FindIndex` | src/setting.ts:131 | `findIndex` by id returns the position of the first record with the id, or -1 exactly when no record has it |
| `Store.Find` | src/setting.ts:54 | `find` by id returns a stored record with that id, the one at the first matching position, and nothing exactly when no record has the id |
| `Store.FindAfterAppend` | src/setting.ts:114 | after pushing a record with an absent id, finding that id returns the record, other ids find what they found before, and unique ids stay unique |
| `Store.Spliced` | src/setting.ts:197 | `splice(i, 1)` keeps the records before `i`, shifts those after it down by one, and removes exactly one occurrence of the record at `i` |
| `Store.RemoveFirstMatch` | src/setting.ts:190-197 | with unique ids, after splicing out the first record with an id no record has it, and ids stay unique |
| `Store.FindOtherAfterRemove` | src/setting.ts:190-197 | splicing out the record of one id leaves the lookup of every other id unchanged |
| `Store.FindAfterReplace` | src/setting.ts:183 | overwriting a record with one of the same id leaves every lookup on the same position and keeps ids unique |
| `Store.SeedWellFormed` | src/setting.ts:32-45 | the seed record satisfies the record rules |
| `Store.AcceptedCreateWellFormed` | src/setting.ts:96-114 | a record built from an accepted create payload satisfies the record rules |
| `Store.Rebuilt` | src/setting.ts:173-181 | the record PUT writes back keeps the old id and createdAt, takes the six updatable fields from the payload or their defaults `""`, `[]`, `false`, null, `""`, and satisfies the record rules when the payload is accepted |
| `Store.VideoStore.constructor` | src/setting.ts:32-45 | the store starts with the seed record alone, satisfying the invariant |
| `Store.VideoStore.List` | src/setting.ts:47-50 | GET /videos answers the whole store in insertion order |
| `Store.VideoStore.Get` | src/setting.ts:51-61 | GET answers the record at the first matching position, or a not-found with no `errorsMessages` entry exactly when no record has the id; nothing changes |
| `Store.VideoStore.Create` | src/setting.ts:69-117 | a throwing or erroneous payload leaves the store as it was and answers `Crashed` or the errors; an accepted one appends exactly one record with the clock's id and timestamps, the given title and author, `canBeDownloaded` false, `minAgeRestriction` null and the coerced resolutions |
| `Store.VideoStore.Update` | src/setting.ts:128-186 | an absent id is not found whatever the payload; erroneous payloads change nothing; otherwise only the record at the found position is replaced, by `Rebuilt`, and the length is kept |
| `Store.VideoStore.Delete` | src/setting.ts:187-199 | an absent id is not found and changes nothing; otherwise exactly the first record with the id is spliced out |
| `Store.VideoStore.Clear` | src/setting.ts:200-203 | DELETE /clear always leaves the store empty |

## Left out

- Express wiring (`app`, `express.json()`, `res.status`, `res.send`, `res.sendStatus`) and the status codes: the handlers answer an `Outcome`.
- Parsing the path parameter with `+req.params.id` and its NaN case: ids arrive as integers.
- The clock: `new Date()`, `toISOString()`, `setDate(getDate() + 1)` and the id `+(new Date())` are parameters of `VideoStore.Create`; that the publication date is one day after creation and that ids are never reused are not modelled.
- Inherited property names such as `toString`, which make `AvailableResolution[tag]` truthy in JavaScript: membership is the eight key names.
- Values of the wrong runtime type (a non-string title, a non-boolean `canBeDownloaded`, a non-string tag): every field is taken to be well typed.
- Store.Rebuilt: an explicit null `canBeDownloaded` or `publicationDate` is stored as null by the code, since the defaults of the destructuring replace only an absent field; the model treats it as absent and stores `false` / `""`.
- Text.Trim: counts Unicode scalar values, not UTF-16 code units as JavaScript's `length` does, so lengths differ for characters outside the Basic Multilingual Plane.
- Store.VideoStore.Create: does not promise unique ids, because the code does not check the clock-derived id against the store; `FindAfterAppend` states what holds when the id is new.
