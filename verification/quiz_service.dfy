/** The quiz service (Services/QuizService.cs): building a record from a
    create request, merging an update request into a stored record, mapping
    records to responses, and the four operations composed on the repository. */
module Services {
  import opened Wrappers
  import opened Models
  import opened Dtos
  import opened Data

  /** `ArgumentException` for an answer index outside the options, or a
      failure reported by the store. */
  datatype ServiceError = AnswerOutOfRange | StorageFailure(cause: StoreError)

  /** The create request a record carries, field for field. */
  function RequestOf(q: Quiz): (r: CreateQuizDto) {
    CreateQuizDto(q.question, q.options, q.correctAnswer, q.category, q.difficulty)
  }

  /** A record that meets every rule of a create request and whose answer
      indexes into its options. */
  predicate WellFormed(q: Quiz) {
    ValidCreate(RequestOf(q)) && AnswerInRange(q)
  }

  /** Every stored record is filed under its id and well formed. */
  predicate StoreWellFormed(s: Store) {
    WellKeyed(s) && forall k :: k in s ==> WellFormed(s[k])
  }

  // ---------------------------------------------------------------------
  // Create

  /** `CreateQuizAsync` before the insert: refuse an answer index outside
      the options, otherwise build an unsaved record stamped with `now`. */
  function NewQuiz(dto: CreateQuizDto, now: Timestamp): (r: Result<Quiz, ServiceError>)
    ensures r.Failure? <==> dto.correctAnswer < 0 || dto.correctAnswer >= |dto.options|
    ensures r.Failure? ==> r.error == AnswerOutOfRange
    ensures r.Success? ==>
      && r.value.id.None?
      && RequestOf(r.value) == dto
      && r.value.createdAt == now && r.value.updatedAt == now
  {
    if dto.correctAnswer < 0 || dto.correctAnswer >= |dto.options| then
      Failure(AnswerOutOfRange)
    else
      Success(Quiz(None, dto.question, dto.options, dto.correctAnswer, dto.category,
                   dto.difficulty, now, now))
  }

  /** An accepted create request yields a well-formed record. */
  lemma NewQuizIsWellFormed(dto: CreateQuizDto, now: Timestamp)
    requires ValidCreate(dto) && NewQuiz(dto, now).Success?
    ensures WellFormed(NewQuiz(dto, now).value)
  {
  }

  /** The [0,5] range rule is implied: at most six options and the service's
      index check already confine the answer to 0..5. */
  lemma AnswerRangeRuleImplied(dto: CreateQuizDto, now: Timestamp)
    requires |dto.options| <= 6 && NewQuiz(dto, now).Success?
    ensures 0 <= dto.correctAnswer <= 5 && AnswerRange !in CreateErrors(dto)
  {
  }

  /** The converse does not hold: with two options, index 1 is accepted and
      index 2 passes every declared rule yet is refused by the service. */
  lemma AnswerRangeRuleInsufficient(now: Timestamp)
    ensures var dto := CreateQuizDto("What is 2 + 2?", ["4", "5"], 2, "Maths", "Easy");
      ValidCreate(dto) && NewQuiz(dto, now) == Failure(AnswerOutOfRange)
      && NewQuiz(dto.(correctAnswer := 1), now).Success?
  {
    var dto := CreateQuizDto("What is 2 + 2?", ["4", "5"], 2, "Maths", "Easy");
    assert !IsWhite(dto.question[0]) && !IsWhite(dto.category[0]) && !IsWhite(dto.difficulty[0]);
    ValidCreateIff(dto);
  }

  // ---------------------------------------------------------------------
  // Update merge

  /** A text property of the patch is applied: present and not blank. */
  predicate TextSupplied(value: Option<string>) {
    !IsNullOrWhiteSpace(value)
  }

  /** The options list of the patch is applied: present and non-empty. */
  predicate OptionsSupplied(p: UpdateQuizDto) {
    p.options.Some? && |p.options.value| > 0
  }

  /** The options once the patch's list, if applied, has replaced them. */
  function OptionsAfter(existing: Quiz, p: UpdateQuizDto): (options: seq<string>) {
    if OptionsSupplied(p) then p.options.value else existing.options
  }

  /** A text property once the patch's value, if applied, has replaced it. */
  function TextAfter(value: Option<string>, current: string): (text: string) {
    if TextSupplied(value) then value.value else current
  }

  /** The outcome `UpdateQuizAsync` computes from the fetched record: each
      applied property replaces the stored one; a supplied answer index is
      checked against the options as they stand after the options step and
      refused when outside them; the update time becomes `now`. A retained
      answer index is not checked. */
  function Merged(existing: Quiz, p: UpdateQuizDto, now: Timestamp): (r: Result<Quiz, ServiceError>)
    ensures r.Failure? <==>
      p.correctAnswer.Some? && !(0 <= p.correctAnswer.value < |OptionsAfter(existing, p)|)
    ensures r.Failure? ==> r.error == AnswerOutOfRange
    ensures r.Success? ==>
      && r.value.id == existing.id
      && r.value.createdAt == existing.createdAt
      && r.value.updatedAt == now
  {
    var options := OptionsAfter(existing, p);
    if p.correctAnswer.Some? && !(0 <= p.correctAnswer.value < |options|) then
      Failure(AnswerOutOfRange)
    else
      Success(Quiz(existing.id,
                   TextAfter(p.question, existing.question),
                   options,
                   p.correctAnswer.GetOr(existing.correctAnswer),
                   TextAfter(p.category, existing.category),
                   TextAfter(p.difficulty, existing.difficulty),
                   existing.createdAt,
                   now))
  }

  /** The merge as the service performs it: the fetched record is updated
      one property at a time, and a bad answer index aborts the merge. */
  method ApplyPatch(existing: Quiz, p: UpdateQuizDto, now: Timestamp) returns (r: Result<Quiz, ServiceError>)
    ensures r == Merged(existing, p, now)
  {
    var quiz := existing;
    if !IsNullOrWhiteSpace(p.question) {
      quiz := quiz.(question := p.question.value);
    }
    if p.options.Some? && |p.options.value| > 0 {
      quiz := quiz.(options := p.options.value);
    }
    if p.correctAnswer.Some? {
      var options := quiz.options;
      if p.correctAnswer.value < 0 || p.correctAnswer.value >= |options| {
        return Failure(AnswerOutOfRange);
      }
      quiz := quiz.(correctAnswer := p.correctAnswer.value);
    }
    if !IsNullOrWhiteSpace(p.category) {
      quiz := quiz.(category := p.category.value);
    }
    if !IsNullOrWhiteSpace(p.difficulty) {
      quiz := quiz.(difficulty := p.difficulty.value);
    }
    quiz := quiz.(updatedAt := now);
    r := Success(quiz);
  }

  /** Question, category and difficulty: an absent or blank value keeps the
      stored text, any other value replaces it; an absent property is never
      changed. */
  lemma MergeTextProperties(existing: Quiz, p: UpdateQuizDto, now: Timestamp)
    requires Merged(existing, p, now).Success?
    ensures var m := Merged(existing, p, now).value;
      && (IsNullOrWhiteSpace(p.question) ==> m.question == existing.question)
      && (!IsNullOrWhiteSpace(p.question) ==> m.question == p.question.value)
      && (IsNullOrWhiteSpace(p.category) ==> m.category == existing.category)
      && (!IsNullOrWhiteSpace(p.category) ==> m.category == p.category.value)
      && (IsNullOrWhiteSpace(p.difficulty) ==> m.difficulty == existing.difficulty)
      && (!IsNullOrWhiteSpace(p.difficulty) ==> m.difficulty == p.difficulty.value)
  {
  }

  /** Options are replaced only by a present, non-empty list; a supplied
      answer index (zero included) is stored, an absent one keeps the old. */
  lemma MergeOptionsAndAnswer(existing: Quiz, p: UpdateQuizDto, now: Timestamp)
    requires Merged(existing, p, now).Success?
    ensures var m := Merged(existing, p, now).value;
      && (p.options.None? || p.options.value == [] ==> m.options == existing.options)
      && (p.options.Some? && p.options.value != [] ==> m.options == p.options.value)
      && (p.correctAnswer.Some? ==> m.correctAnswer == p.correctAnswer.value)
      && (p.correctAnswer.None? ==> m.correctAnswer == existing.correctAnswer)
  {
  }

  /** The answer index is checked against the replacement options, not the
      stored ones. */
  lemma AnswerCheckedAgainstNewOptions(existing: Quiz, p: UpdateQuizDto, now: Timestamp)
    requires p.correctAnswer.Some? && OptionsSupplied(p)
    ensures Merged(existing, p, now).Success? <==> 0 <= p.correctAnswer.value < |p.options.value|
  {
  }

  /** An empty patch changes nothing but the update time. */
  lemma EmptyPatchOnlyRestamps(existing: Quiz, now: Timestamp)
    ensures Merged(existing, EmptyPatch, now) == Success(existing.(updatedAt := now))
  {
  }

  /** A patch that supplies only difficulty "Hard" changes only difficulty
      and the update time. */
  lemma DifficultyOnlyPatch(existing: Quiz, now: Timestamp)
    ensures Merged(existing, EmptyPatch.(difficulty := Some("Hard")), now)
         == Success(existing.(difficulty := "Hard", updatedAt := now))
  {
    assert !IsWhite("Hard"[0]);
  }

  /** A white-space question long enough to pass validation is accepted and
      then ignored by the merge. */
  lemma BlankQuestionIgnored(existing: Quiz, text: string, now: Timestamp)
    requires IsWhiteSpace(text) && 5 <= |text| <= 500
    ensures ValidUpdate(EmptyPatch.(question := Some(text)))
    ensures Merged(existing, EmptyPatch.(question := Some(text)), now)
         == Success(existing.(updatedAt := now))
  {
    ValidUpdateIff(EmptyPatch.(question := Some(text)));
  }

  /** Applying the same patch again at the same time changes nothing more. */
  lemma MergeIdempotent(existing: Quiz, p: UpdateQuizDto, now: Timestamp)
    requires Merged(existing, p, now).Success?
    ensures var m := Merged(existing, p, now).value;
      Merged(m, p, now) == Success(m)
  {
  }

  /** The answer-index invariant survives a merge that supplies the answer
      index or leaves the options alone. */
  lemma AnswerInRangePreserved(existing: Quiz, p: UpdateQuizDto, now: Timestamp)
    requires AnswerInRange(existing)
    requires p.correctAnswer.Some? || !OptionsSupplied(p)
    requires Merged(existing, p, now).Success?
    ensures AnswerInRange(Merged(existing, p, now).value)
  {
  }

  /** A well-formed record stays well formed under a validated patch that
      supplies the answer index or leaves the options alone. */
  lemma WellFormedPreserved(existing: Quiz, p: UpdateQuizDto, now: Timestamp)
    requires WellFormed(existing) && ValidUpdate(p)
    requires p.correctAnswer.Some? || !OptionsSupplied(p)
    requires Merged(existing, p, now).Success?
    ensures WellFormed(Merged(existing, p, now).value)
  {
    var m := Merged(existing, p, now).value;
    ValidCreateIff(RequestOf(existing));
    ValidUpdateIff(p);
    if TextSupplied(p.difficulty) {
      assert m.difficulty == p.difficulty.value != "";
    }
    DifficultyNamesAreNotBlank(m.difficulty);
    ValidCreateIff(RequestOf(m));
  }

  /** Without that condition the invariant is lost: a validated patch that
      shrinks the options and omits the answer index leaves a stored index
      that points past the new options. */
  lemma AnswerInRangeNotPreservedInGeneral(now: Timestamp)
    ensures var existing := Quiz(Some("q1"), "Which is blue?", ["red", "green", "blue"], 2,
                                 "Colours", "Easy", 0, 0);
      var p := EmptyPatch.(options := Some(["red", "green"]));
      && WellFormed(existing) && ValidUpdate(p)
      && Merged(existing, p, now).Success?
      && !AnswerInRange(Merged(existing, p, now).value)
  {
    var existing := Quiz(Some("q1"), "Which is blue?", ["red", "green", "blue"], 2,
                         "Colours", "Easy", 0, 0);
    var p := EmptyPatch.(options := Some(["red", "green"]));
    assert !IsWhite(existing.question[0]) && !IsWhite(existing.category[0]);
    ValidCreateIff(RequestOf(existing));
    ValidUpdateIff(p);
  }

  // ---------------------------------------------------------------------
  // Responses

  /** `MapToResponseDto`: a field-for-field copy, a null id becoming "". */
  function ToResponse(q: Quiz): (r: QuizResponseDto)
    ensures r.id == q.id.GetOr("")
    ensures FromResponse(r).(id := q.id) == q
    ensures q.id != Some("") ==> FromResponse(r) == q
  {
    QuizResponseDto(q.id.GetOr(""), q.question, q.options, q.correctAnswer, q.category,
                    q.difficulty, q.createdAt, q.updatedAt)
  }

  /** The record a response describes, reading "" as no id. */
  function FromResponse(r: QuizResponseDto): (q: Quiz) {
    Quiz(if r.id == "" then None else Some(r.id), r.question, r.options, r.correctAnswer,
         r.category, r.difficulty, r.createdAt, r.updatedAt)
  }

  /** The response loses nothing: every field but the id is recovered from
      it, the whole record whenever its id is not itself "", and the response
      id is empty only for an unsaved record or one whose id is "". */
  lemma ResponseRoundTrip(q: Quiz)
    ensures FromResponse(ToResponse(q)).(id := q.id) == q
    ensures q.id != Some("") ==> FromResponse(ToResponse(q)) == q
    ensures ToResponse(q).id == "" <==> q.id.None? || q.id == Some("")
  {
  }

  // ---------------------------------------------------------------------
  // The service operations over the store

  /** `CreateQuizAsync` end to end. */
  function CreateOutcome(s: Store, dto: CreateQuizDto, generatedId: string, now: Timestamp)
    : (r: Step<Result<QuizResponseDto, ServiceError>>)
    ensures r.result == Failure(AnswerOutOfRange) <==>
      dto.correctAnswer < 0 || dto.correctAnswer >= |dto.options|
    ensures r.result.Failure? ==> r.store == s
    ensures r.result.Success? <==> 0 <= dto.correctAnswer < |dto.options| && generatedId !in s
    ensures r.result.Success? ==>
      && r.result.value.id == generatedId
      && Lookup(r.store, generatedId).Some?
      && var stored := Lookup(r.store, generatedId).value;
      && RequestOf(stored) == dto
      && stored.createdAt == now && stored.updatedAt == now
      && ToResponse(stored) == r.result.value
    ensures forall k :: k != generatedId ==> Lookup(r.store, k) == Lookup(s, k)
    ensures WellKeyed(s) ==> WellKeyed(r.store)
  {
    match NewQuiz(dto, now)
    case Failure(e) => Step(Failure(e), s)
    case Success(quiz) =>
      var inserted := Insert(s, quiz, generatedId);
      match inserted.result
      case Failure(e) => Step(Failure(StorageFailure(e)), inserted.store)
      case Success(created) => Step(Success(ToResponse(created)), inserted.store)
  }

  /** `GetQuizByIdAsync`: the response describing the stored record with that
      id, or null. */
  function GetOutcome(s: Store, id: string): (r: Option<QuizResponseDto>)
    ensures r.None? <==> Lookup(s, id).None?
    ensures WellKeyed(s) && r.Some? ==> r.value.id == id
    ensures WellKeyed(s) && r.Some? ==>
      exists k :: k in s && s[k].id == Some(id) && r.value == ToResponse(s[k])
  {
    match Lookup(s, id)
    case None => None
    case Some(q) => Some(ToResponse(q))
  }

  /** `UpdateQuizAsync` end to end: an unknown id gives null and no change;
      a refused answer index changes nothing; otherwise the merged record
      replaces the stored one, and the response is null when the store
      reports that nothing was modified. */
  function UpdateOutcome(s: Store, id: string, p: UpdateQuizDto, now: Timestamp)
    : (r: Step<Result<Option<QuizResponseDto>, ServiceError>>)
    requires WellKeyed(s)
    ensures id !in s ==> r == Step(Success(None), s)
    ensures r.result.Failure? <==>
      id in s && p.correctAnswer.Some? && !(0 <= p.correctAnswer.value < |OptionsAfter(s[id], p)|)
    ensures r.result.Failure? ==> r.result.error == AnswerOutOfRange && r.store == s
    ensures id in s && r.result.Success? ==>
      && Lookup(r.store, id) == Some(Merged(s[id], p, now).value)
      && (r.result.value.Some? ==> r.result.value == Some(ToResponse(Merged(s[id], p, now).value)))
      && (r.result.value.None? <==> Merged(s[id], p, now).value == s[id])
    ensures forall k :: k != id ==> Lookup(r.store, k) == Lookup(s, k)
    ensures WellKeyed(r.store)
  {
    match Lookup(s, id)
    case None => Step(Success(None), s)
    case Some(existing) =>
      match Merged(existing, p, now)
      case Failure(e) => Step(Failure(e), s)
      case Success(merged) =>
        var replaced := Replace(s, id, merged, now);
        match replaced.result
        case None => Step(Success(None), replaced.store)
        case Some(q) => Step(Success(Some(ToResponse(q))), replaced.store)
  }

  /** Create then get: the record just created is found under the returned
      id and described by the same response. */
  lemma CreateThenGet(s: Store, dto: CreateQuizDto, generatedId: string, now: Timestamp)
    requires CreateOutcome(s, dto, generatedId, now).result.Success?
    ensures var c := CreateOutcome(s, dto, generatedId, now);
      GetOutcome(c.store, c.result.value.id) == Some(c.result.value)
  {
  }

  /** Creating from an accepted request keeps every stored record well formed. */
  lemma CreateKeepsStoreWellFormed(s: Store, dto: CreateQuizDto, generatedId: string, now: Timestamp)
    requires StoreWellFormed(s) && ValidCreate(dto)
    ensures StoreWellFormed(CreateOutcome(s, dto, generatedId, now).store)
  {
    var after := CreateOutcome(s, dto, generatedId, now).store;
    forall k | k in after
      ensures WellFormed(after[k])
    {
      if k == generatedId && generatedId !in s {
        assert Lookup(after, k).Some?;
        NewQuizIsWellFormed(dto, now);
      } else {
        assert Lookup(after, k) == Lookup(s, k);
      }
    }
  }

  /** Updating with an accepted patch that supplies the answer index or
      leaves the options alone keeps every stored record well formed. */
  lemma UpdateKeepsStoreWellFormed(s: Store, id: string, p: UpdateQuizDto, now: Timestamp)
    requires StoreWellFormed(s) && ValidUpdate(p)
    requires p.correctAnswer.Some? || !OptionsSupplied(p)
    ensures StoreWellFormed(UpdateOutcome(s, id, p, now).store)
  {
    var u := UpdateOutcome(s, id, p, now);
    forall k | k in u.store
      ensures WellFormed(u.store[k])
    {
      if k == id && id in s && u.result.Success? {
        assert Lookup(u.store, k) == Some(Merged(s[id], p, now).value);
        WellFormedPreserved(s[id], p, now);
      } else {
        assert Lookup(u.store, k) == Lookup(s, k);
      }
    }
  }

  /** An update that changes nothing within one clock tick is reported as
      "not found", although the record exists: the store reports no
      modified record. */
  lemma UnchangedUpdateReportsNotFound(s: Store, id: string, now: Timestamp)
    requires WellKeyed(s) && id in s && s[id].updatedAt == now
    ensures UpdateOutcome(s, id, EmptyPatch, now) == Step(Success(None), s)
  {
  }

  /** Once the clock has moved past the stored update time, an accepted
      update of an existing record always reports the new record. */
  lemma UpdateReportsRecordWhenClockAdvanced(s: Store, id: string, p: UpdateQuizDto, now: Timestamp)
    requires WellKeyed(s) && id in s && s[id].updatedAt != now
    requires UpdateOutcome(s, id, p, now).result.Success?
    ensures UpdateOutcome(s, id, p, now).result.value.Some?
  {
  }

  /** The service object, holding its repository. */
  class QuizService {
    const repo: QuizRepository

    constructor (repo: QuizRepository)
      ensures this.repo == repo
    {
      this.repo := repo;
    }

    method CreateQuiz(dto: CreateQuizDto, generatedId: string, now: Timestamp)
      returns (r: Result<QuizResponseDto, ServiceError>)
      requires repo.Valid()
      modifies repo
      ensures repo.Valid()
      ensures Step(r, repo.quizzes) == CreateOutcome(old(repo.quizzes), dto, generatedId, now)
    {
      var built := NewQuiz(dto, now);
      if built.Failure? {
        return Failure(built.error);
      }
      var created := repo.Create(built.value, generatedId);
      match created
      case Failure(e) => r := Failure(StorageFailure(e));
      case Success(q) => r := Success(ToResponse(q));
    }

    method GetQuizById(id: string) returns (r: Option<QuizResponseDto>)
      requires repo.Valid()
      ensures r == GetOutcome(repo.quizzes, id)
    {
      var quiz := repo.GetById(id);
      r := if quiz.Some? then Some(ToResponse(quiz.value)) else None;
    }

    method UpdateQuiz(id: string, p: UpdateQuizDto, now: Timestamp)
      returns (r: Result<Option<QuizResponseDto>, ServiceError>)
      requires repo.Valid()
      modifies repo
      ensures repo.Valid()
      ensures Step(r, repo.quizzes) == UpdateOutcome(old(repo.quizzes), id, p, now)
    {
      var existing := repo.GetById(id);
      if existing.None? {
        return Success(None);
      }
      var merged := ApplyPatch(existing.value, p, now);
      if merged.Failure? {
        return Failure(merged.error);
      }
      var updated := repo.Update(id, merged.value, now);
      r := if updated.Some? then Success(Some(ToResponse(updated.value))) else Success(None);
    }

    method DeleteQuiz(id: string) returns (deleted: bool)
      requires repo.Valid()
      modifies repo
      ensures repo.Valid()
      ensures Step(deleted, repo.quizzes) == Remove(old(repo.quizzes), id)
    {
      deleted := repo.Delete(id);
    }
  }
}
