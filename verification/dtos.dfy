/** The request and response shapes of the quiz API and the data-annotation
    rules declared on them (DTOs/CreateQuizDto.cs, DTOs/UpdateQuizDto.cs,
    DTOs/QuizResponseDto.cs). Model binding runs every attribute of every
    property and collects one error per failing attribute; the controller
    rejects the request when any error was collected, before the service runs. */
module Dtos {
  import opened Wrappers
  import opened Models

  const QuestionMinLength: nat := 5
  const QuestionMaxLength: nat := 500
  const OptionsMinCount: nat := 2
  const OptionsMaxCount: nat := 6
  const AnswerMin: int := 0
  const AnswerMax: int := 5
  const CategoryMinLength: nat := 2
  const CategoryMaxLength: nat := 100

  /** One failing validation attribute. */
  datatype FieldError =
    | QuestionRequired | QuestionLength
    | OptionsTooFew | OptionsTooMany
    | AnswerRange
    | CategoryRequired | CategoryLength
    | DifficultyRequired | DifficultyPattern

  // The attribute semantics, applied to a non-null value. A null value passes
  // every attribute except [Required].

  /** [Required] on a string: null, empty and all-white-space strings fail. */
  predicate RequiredText(s: string) {
    !IsWhiteSpace(s)
  }

  /** [StringLength(max, MinimumLength = min)]. */
  predicate LengthBetween(s: string, min: nat, max: nat) {
    min <= |s| <= max
  }

  /** [Range(lo, hi)] on an integer. */
  predicate Between(n: int, lo: int, hi: int) {
    lo <= n <= hi
  }

  /** [RegularExpression("^(Easy|Medium|Hard)$")]: the empty string passes
      (the attribute skips it), any other string passes only when the whole
      string matches, so the comparison is exact and case-sensitive. */
  predicate DifficultyMatches(s: string) {
    s == "" || s == "Easy" || s == "Medium" || s == "Hard"
  }

  /** The error `e` when the rule `ok` fails, nothing otherwise. */
  function Unless(ok: bool, e: FieldError): (errs: set<FieldError>)
    ensures e in errs <==> !ok
    ensures forall other :: other in errs ==> other == e
  {
    if ok then {} else {e}
  }

  /** The body of a create request; a property missing from the JSON keeps its
      C# initial value (empty string, empty list, zero). */
  datatype CreateQuizDto = CreateQuizDto(
    question: string,
    options: seq<string>,
    correctAnswer: int,
    category: string,
    difficulty: string)

  /** The errors model binding reports for a create request. Each error is present exactly when its attribute fails. */
  function CreateErrors(dto: CreateQuizDto): (errs: set<FieldError>)
    ensures QuestionRequired in errs <==> IsWhiteSpace(dto.question)
    ensures QuestionLength in errs <==> !(5 <= |dto.question| <= 500)
    ensures OptionsTooFew in errs <==> |dto.options| < 2
    ensures OptionsTooMany in errs <==> |dto.options| > 6
    ensures AnswerRange in errs <==> !(0 <= dto.correctAnswer <= 5)
    ensures CategoryRequired in errs <==> IsWhiteSpace(dto.category)
    ensures CategoryLength in errs <==> !(2 <= |dto.category| <= 100)
    ensures DifficultyRequired in errs <==> IsWhiteSpace(dto.difficulty)
    ensures DifficultyPattern in errs <==> !DifficultyMatches(dto.difficulty)
  {
    Unless(RequiredText(dto.question), QuestionRequired)
    + Unless(LengthBetween(dto.question, QuestionMinLength, QuestionMaxLength), QuestionLength)
    + Unless(OptionsMinCount <= |dto.options|, OptionsTooFew)
    + Unless(|dto.options| <= OptionsMaxCount, OptionsTooMany)
    + Unless(Between(dto.correctAnswer, AnswerMin, AnswerMax), AnswerRange)
    + Unless(RequiredText(dto.category), CategoryRequired)
    + Unless(LengthBetween(dto.category, CategoryMinLength, CategoryMaxLength), CategoryLength)
    + Unless(RequiredText(dto.difficulty), DifficultyRequired)
    + Unless(DifficultyMatches(dto.difficulty), DifficultyPattern)
  }

  /** The controller accepts the create request. */
  predicate ValidCreate(dto: CreateQuizDto) {
    CreateErrors(dto) == {}
  }

  /** The three accepted difficulty names start with a letter, so none of
      them is white space. */
  lemma DifficultyNamesAreNotBlank(d: string)
    ensures d in {"Easy", "Medium", "Hard"} ==> !IsWhiteSpace(d)
  {
    if d in {"Easy", "Medium", "Hard"} {
      assert !IsWhite(d[0]);
    }
  }

  /** A create request is accepted exactly when every declared rule holds;
      in particular an empty difficulty is refused. */
  lemma ValidCreateIff(dto: CreateQuizDto)
    ensures ValidCreate(dto) <==>
      && !IsWhiteSpace(dto.question) && 5 <= |dto.question| <= 500
      && 2 <= |dto.options| <= 6
      && 0 <= dto.correctAnswer <= 5
      && !IsWhiteSpace(dto.category) && 2 <= |dto.category| <= 100
      && dto.difficulty in {"Easy", "Medium", "Hard"}
  {
    var errs := CreateErrors(dto);
    if errs != {} {
      // some attribute failed: the error names which one
      var e :| e in errs;
      match e
      case DifficultyRequired =>
        DifficultyNamesAreNotBlank(dto.difficulty);
      case _ =>
    } else {
      // no attribute failed; [Required] excludes the empty difficulty that the pattern lets through
      assert DifficultyRequired !in errs;
    }
  }

  /** The body of an update request: every property is nullable. */
  datatype UpdateQuizDto = UpdateQuizDto(
    question: Option<string>,
    options: Option<seq<string>>,
    correctAnswer: Option<int>,
    category: Option<string>,
    difficulty: Option<string>)

  /** The patch that supplies nothing. */
  const EmptyPatch := UpdateQuizDto(None, None, None, None, None)

  /** The errors model binding reports for an update request. An absent
      property never contributes an error. */
  function UpdateErrors(p: UpdateQuizDto): (errs: set<FieldError>)
    ensures QuestionLength in errs <==> p.question.Some? && !(5 <= |p.question.value| <= 500)
    ensures OptionsTooFew in errs <==> p.options.Some? && |p.options.value| < 2
    ensures OptionsTooMany in errs <==> p.options.Some? && |p.options.value| > 6
    ensures AnswerRange in errs <==> p.correctAnswer.Some? && !(0 <= p.correctAnswer.value <= 5)
    ensures CategoryLength in errs <==> p.category.Some? && !(2 <= |p.category.value| <= 100)
    ensures DifficultyPattern in errs <==>
      p.difficulty.Some? && p.difficulty.value != "" && p.difficulty.value !in {"Easy", "Medium", "Hard"}
    ensures QuestionRequired !in errs && CategoryRequired !in errs && DifficultyRequired !in errs
  {
    Unless(p.question.None? || LengthBetween(p.question.value, QuestionMinLength, QuestionMaxLength), QuestionLength)
    + Unless(p.options.None? || OptionsMinCount <= |p.options.value|, OptionsTooFew)
    + Unless(p.options.None? || |p.options.value| <= OptionsMaxCount, OptionsTooMany)
    + Unless(p.correctAnswer.None? || Between(p.correctAnswer.value, AnswerMin, AnswerMax), AnswerRange)
    + Unless(p.category.None? || LengthBetween(p.category.value, CategoryMinLength, CategoryMaxLength), CategoryLength)
    + Unless(p.difficulty.None? || DifficultyMatches(p.difficulty.value), DifficultyPattern)
  }

  /** The controller accepts the update request. */
  predicate ValidUpdate(p: UpdateQuizDto) {
    UpdateErrors(p) == {}
  }

  /** The external representation of a quiz. */
  datatype QuizResponseDto = QuizResponseDto(
    id: string,
    question: string,
    options: seq<string>,
    correctAnswer: int,
    category: string,
    difficulty: string,
    createdAt: Timestamp,
    updatedAt: Timestamp)

  // ---------------------------------------------------------------------
  // Properties of the declared rules

  /** A patch that supplies nothing passes validation. */
  lemma EmptyPatchIsValid()
    ensures ValidUpdate(EmptyPatch)
  {
  }

  /** A valid update agrees with the field rules: each supplied property
      satisfies its own rule, and absent properties are unconstrained. */
  lemma ValidUpdateIff(p: UpdateQuizDto)
    ensures ValidUpdate(p) <==>
      && (p.question.Some? ==> 5 <= |p.question.value| <= 500)
      && (p.options.Some? ==> 2 <= |p.options.value| <= 6)
      && (p.correctAnswer.Some? ==> 0 <= p.correctAnswer.value <= 5)
      && (p.category.Some? ==> 2 <= |p.category.value| <= 100)
      && (p.difficulty.Some? ==> DifficultyMatches(p.difficulty.value))
  {
    var errs := UpdateErrors(p);
    if errs != {} {
      var e :| e in errs;
    }
  }

  /** Any options list that passes update validation is non-empty, so the
      service's `Count > 0` guard never filters a validated list. */
  lemma ValidOptionsAreNonEmpty(p: UpdateQuizDto)
    requires ValidUpdate(p) && p.options.Some?
    ensures |p.options.value| > 0
  {
    assert OptionsTooFew !in UpdateErrors(p);
  }

  /** Difficulty is matched case-sensitively: "medium" is refused. */
  lemma LowerCaseDifficultyRejected(p: UpdateQuizDto)
    requires p.difficulty == Some("medium")
    ensures DifficultyPattern in UpdateErrors(p) && !ValidUpdate(p)
  {
  }

  /** A create request cannot leave difficulty empty, but an update may:
      the pattern skips the empty string and only [Required] refuses it. */
  lemma EmptyDifficultyOnlyRefusedByRequired(dto: CreateQuizDto, p: UpdateQuizDto)
    requires dto.difficulty == "" && p.difficulty == Some("")
    ensures DifficultyRequired in CreateErrors(dto) && DifficultyPattern !in CreateErrors(dto)
    ensures DifficultyPattern !in UpdateErrors(p)
  {
  }
}
