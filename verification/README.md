# Quiz API: validation, partial-update merge and record store

A model of the logic of a small quiz CRUD service. The service stores quiz
questions (question text, 2 to 6 options, the index of the correct option, a
category and a difficulty, plus creation and update times) in a document
collection. It has three parts:

- **Request validation** (`Dtos`). The data-annotation rules on the create and
  update request bodies become functions that return the set of failing rules.
  The controller rejects a request when that set is non-empty, before the
  service runs. The attribute semantics are modelled as ASP.NET applies them:
  - `[Required]` refuses empty and all-white-space strings.
  - Every other attribute lets a null value through.
  - `[RegularExpression]` also lets the empty string through, and otherwise
    needs the whole string to match, case-sensitively.
- **The service** (`Services`):
  - `NewQuiz` is the index check and record construction of `CreateQuizAsync`.
  - `Merged` is the declarative specification of the field-by-field merge of
    `UpdateQuizAsync`. `ApplyPatch` is the merge as the source writes it: it
    updates the fetched record one property at a time and is proved equal to
    `Merged`.
  - `ToResponse` is the response mapping.
  - `CreateOutcome`, `GetOutcome` and `UpdateOutcome` describe each operation
    end to end as a transition of the store.
  - The class `QuizService` runs those operations against a `QuizRepository`
    object.
- **The repository** (`Data`). The collection is a `map<string, Quiz>` keyed by
  document id. `Lookup`, `Insert`, `Replace` and `Remove` are its transitions
  as pure functions. The class `QuizRepository` has a `quizzes` field and
  performs the same transitions in place.

Time is a natural number passed in as `now`. The id that the database driver
generates for a new record is passed in as `generatedId`. If that id is
already taken, the insert fails with `DuplicateKey`.

## Behaviour worth noting

- **A retained answer index is not re-checked.** `correctAnswer` is checked
  only when the patch supplies one (Services/QuizService.cs:64-72). A patch
  that shrinks `options` and omits `correctAnswer` is accepted, so the stored
  index can end up outside the new options, and that record is persisted.
  - `AnswerInRangeNotPreservedInGeneral` exhibits such an input.
  - `AnswerInRangePreserved`, `WellFormedPreserved` and
    `UpdateKeepsStoreWellFormed` prove that the invariant holds when the
    patch supplies the answer index or leaves the options alone.
- **The merge applies any non-blank difficulty.** Only request validation
  restricts difficulty to the three names (DTOs/UpdateQuizDto.cs:20-21).
  `Merged` therefore applies any non-blank value, and the lemmas that need a
  valid difficulty assume `ValidUpdate`.
- **An unchanged replacement reads as "not found".** A replacement counts as
  done only when the store reports a modified record
  (Data/QuizRepository.cs:30). So an update that changes nothing within one
  clock tick is reported as "not found" although the record exists
  (`UnchangedUpdateReportsNotFound`). Once the clock has advanced, this cannot
  happen (`UpdateReportsRecordWhenClockAdvanced`).

## Model

| member | source | states |
|---|---|---|
| `Dtos.CreateErrors` | DTOs/CreateQuizDto.cs:7-26 | each create rule's error is reported exactly when it fails: blank or wrong-length (5..500) question, fewer than 2 or more than 6 options, answer outside 0..5, blank or wrong-length (2..100) category, blank difficulty, difficulty not matching the pattern |
| `Dtos.ValidCreateIff` | DTOs/CreateQuizDto.cs:7-26 | a create request is accepted iff question is non-blank with length 5..500, 2..6 options, answer in 0..5, category non-blank with length 2..100, and difficulty exactly Easy, Medium or Hard |
| `Dtos.DifficultyNamesAreNotBlank` | DTOs/CreateQuizDto.cs:24-26 | none of the three difficulty names is white space, so `[Required]` never refuses a name the pattern accepts |
| `Dtos.EmptyDifficultyOnlyRefusedByRequired` | DTOs/CreateQuizDto.cs:24-26 | the pattern lets the empty difficulty through; on create `[Required]` refuses it, on update nothing does |
| `Dtos.UpdateErrors` | DTOs/UpdateQuizDto.cs:7-21 | each update rule's error is reported exactly when its property is present and breaks the rule; no `[Required]` error can occur |
| `Dtos.EmptyPatchIsValid` | DTOs/UpdateQuizDto.cs:7-21 | a patch with every property absent passes validation |
| `Dtos.ValidUpdateIff` | DTOs/UpdateQuizDto.cs:7-21 | a patch is accepted iff each present property meets its rule (question 5..500, options 2..6, answer 0..5, category 2..100, difficulty empty or an exact name) |
| `Dtos.ValidOptionsAreNonEmpty` | DTOs/UpdateQuizDto.cs:10-12 | a validated options list is non-empty, so the service's `Count > 0` guard always holds for it |
| `Dtos.LowerCaseDifficultyRejected` | DTOs/UpdateQuizDto.cs:20-21 | difficulty "medium" is refused: the match is case-sensitive |
| `Data.Lookup` | Data/QuizRepository.cs:15-18 | the result is null or a record held in the store; in a well-keyed store a record is found iff some stored record's id equals the argument, and the result is exactly that stored record |
| `Data.Insert` | Data/QuizRepository.cs:20-24 | the id is the quiz's own or the generated one; a taken id fails with no change; otherwise the returned quiz carries the id and is found under it; other ids are untouched; keying is preserved |
| `Data.LongerThanAll` | Data/QuizRepository.cs:22 | for every finite set of ids there is a length longer than all of them |
| `Data.InsertCanSucceed` | Data/QuizRepository.cs:20-24 | some generated id always lets the insert of an id-less quiz succeed |
| `Data.Replace` | Data/QuizRepository.cs:26-31 | unknown id: null and no change; the result is non-null iff the record exists and differs from the replacement stamped with `now` (the store's modified count), and then it is the stamped quiz; a null result changes nothing; for a known id the store afterwards holds the stamped replacement; an advanced clock always yields a non-null result; other ids untouched |
| `Data.Remove` | Data/QuizRepository.cs:33-37 | returns true iff a record had that id; afterwards none has it; other ids untouched; keying preserved |
| `Data.DeleteTwice` | Data/QuizRepository.cs:33-37 | a second delete of the same id returns false and changes nothing |
| `Data.QuizRepository.constructor` | Data/QuizRepository.cs:10-13 | the repository starts on the given well-keyed collection |
| `Data.QuizRepository.GetById` | Data/QuizRepository.cs:15-18 | returns `Lookup` of the collection, so the stored record whose id equals the argument or null, and changes nothing |
| `Data.QuizRepository.Create` | Data/QuizRepository.cs:20-24 | result and new collection are those of `Insert` on the old collection |
| `Data.QuizRepository.Update` | Data/QuizRepository.cs:26-31 | result and new collection are those of `Replace` on the old collection |
| `Data.QuizRepository.Delete` | Data/QuizRepository.cs:33-37 | result and new collection are those of `Remove` on the old collection |
| `Services.NewQuiz` | Services/QuizService.cs:16-33 | fails iff the answer is negative or not below the option count; on success the record has no id, carries exactly the request's five fields, and both times equal `now` |
| `Services.NewQuizIsWellFormed` | Services/QuizService.cs:19-33 | an accepted create request yields a record meeting every rule with its answer inside its options |
| `Services.AnswerRangeRuleImplied` | DTOs/CreateQuizDto.cs:11-18 | at most 6 options plus the service's index check force the answer into 0..5 |
| `Services.AnswerRangeRuleInsufficient` | Services/QuizService.cs:19-22 | with two options, index 2 passes every declared rule but the service refuses it, while index 1 is built |
| `Services.Merged` | Services/QuizService.cs:54-84 | the merge fails iff a supplied answer lies outside the options after replacement; on success id and creation time are kept and the update time is `now` |
| `Services.ApplyPatch` | Services/QuizService.cs:54-84 | the property-by-property update of the fetched record yields exactly `Merged` |
| `Services.MergeTextProperties` | Services/QuizService.cs:54-82 | for question, category and difficulty, a null or blank value keeps the stored text and any other value replaces it |
| `Services.MergeOptionsAndAnswer` | Services/QuizService.cs:59-72 | options change only for a present non-empty list; a supplied answer, zero included, is stored, and an absent one is kept |
| `Services.AnswerCheckedAgainstNewOptions` | Services/QuizService.cs:59-72 | when both are supplied, the answer is accepted iff it indexes the replacement options |
| `Services.EmptyPatchOnlyRestamps` | Services/QuizService.cs:54-84 | an empty patch changes only the update time |
| `Services.DifficultyOnlyPatch` | Services/QuizService.cs:79-84 | a patch with only difficulty "Hard" changes only difficulty and the update time |
| `Services.BlankQuestionIgnored` | Services/QuizService.cs:54-57 | a white-space question of length 5..500 passes validation and leaves the record unchanged except for the update time |
| `Services.MergeIdempotent` | Services/QuizService.cs:54-84 | applying a patch again to its own result at the same time gives the same record |
| `Services.AnswerInRangePreserved` | Services/QuizService.cs:64-72 | the answer-inside-options invariant survives a merge that supplies the answer or leaves options alone |
| `Services.WellFormedPreserved` | Services/QuizService.cs:54-84 | a record meeting every create rule still does after a validated patch that supplies the answer or leaves options alone |
| `Services.AnswerInRangeNotPreservedInGeneral` | Services/QuizService.cs:59-72 | a validated patch that shrinks the options of a well-formed record and omits the answer is accepted and leaves the answer outside the options |
| `Services.ToResponse` | Services/QuizService.cs:95-108 | a field-for-field copy of the record: the response id is the record's id, or "" when it is null, and `FromResponse` recovers every other field for every record, the whole record whenever its id is not "" |
| `Services.ResponseRoundTrip` | Services/QuizService.cs:95-108 | for every record, the response gives back every field but the id; it gives back the whole record whenever the id is not ""; its id is empty iff the record's id is null or "" |
| `Services.CreateOutcome` | Services/QuizService.cs:16-37 | a bad answer index fails with nothing inserted; success iff the index is valid and the generated id is free; then the stored record carries the request's fields, both times equal `now`, and it is what the response describes; other ids untouched |
| `Services.GetOutcome` | Services/QuizService.cs:39-43 | null iff no record has the id; otherwise the response carries that id and is the mapping of the stored record with that id |
| `Services.UpdateOutcome` | Services/QuizService.cs:45-88 | unknown id: null, no change; fails iff a supplied answer is outside the post-replacement options, then nothing is persisted; on success the store holds the merged record and a non-null response describes it; other ids untouched |
| `Services.CreateThenGet` | Services/QuizService.cs:35-43 | getting the id returned by a create yields the same response |
| `Services.CreateKeepsStoreWellFormed` | Services/QuizService.cs:16-37 | creating from an accepted request keeps every stored record well formed |
| `Services.UpdateKeepsStoreWellFormed` | Services/QuizService.cs:45-88 | an accepted patch that supplies the answer or leaves options alone keeps every stored record well formed |
| `Services.UnchangedUpdateReportsNotFound` | Services/QuizService.cs:86-87 | an empty patch within the same clock tick as the last update gives null ("not found") and no change for an existing record |
| `Services.UpdateReportsRecordWhenClockAdvanced` | Data/QuizRepository.cs:28-30 | when the clock differs from the stored update time, a successful update of an existing record returns it |
| `Services.QuizService.constructor` | Services/QuizService.cs:11-14 | the service holds the given repository |
| `Services.QuizService.CreateQuiz` | Services/QuizService.cs:16-37 | result and new collection are those of `CreateOutcome` |
| `Services.QuizService.GetQuizById` | Services/QuizService.cs:39-43 | returns `GetOutcome`, so the response of the stored record with that id or null, and changes nothing |
| `Services.QuizService.UpdateQuiz` | Services/QuizService.cs:45-88 | fetch, merge by `ApplyPatch`, replace: result and new collection are those of `UpdateOutcome` |
| `Services.QuizService.DeleteQuiz` | Services/QuizService.cs:90-93 | delegates to the repository: result and new collection are those of `Remove` |

## Left out

- HTTP routing, status codes, exception-to-response translation and logging
  (Controllers/QuizController.cs). Only the order "validate first, then call
  the service" is reflected, in that the validation predicates
  `ValidCreate` and `ValidUpdate` are hypotheses of the store-invariant
  lemmas.
- Startup wiring, dependency injection and database configuration
  (Program.cs).
- `async`/`Task` and concurrent requests: each operation is one sequential
  step.
- `IQuizService` and `IQuizRepository` are signatures only. The class methods
  mirror them.
- Wall-clock time. Each operation takes a single `now`. Create reads the
  clock twice (Services/QuizService.cs:31-32), and update stamps the record
  twice (Services/QuizService.cs:84, Data/QuizRepository.cs:28). The model
  uses one reading for both.
- The ObjectId format. Any string can be an id. The driver's failure on an id
  that is not 24 hexadecimal digits is not modelled.
- Store failures other than a duplicate id, and write-acknowledgement
  semantics: every write is acknowledged.
- `Data.Replace`: requires the replacement to carry no id or the id it
  replaces. The driver's error for a replacement with a different `_id` is not
  modelled, because the service never sends one.
- `Data.QuizRepository.Update`: returns the stamped value. The C# method also
  stamps the caller's object in place, even when it returns null; that
  aliasing is not modelled.
- Validation error texts and their order. Errors are a set of failing rules.
- An explicit JSON `null` for a create property, and null entries inside an
  options list. A missing property takes its C# initial value.
- String length counts Unicode scalar values. C# counts UTF-16 code units, so
  characters outside the Basic Multilingual Plane count once here and twice
  in C#.
