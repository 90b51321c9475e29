/** The persisted quiz record (Models/Quiz.cs) and the whitespace test that
    the service and the validation attributes use. */
module Models {
  import opened Wrappers

  /** A reading of `DateTime.UtcNow`, passed in as a tick count. */
  type Timestamp = nat

  /** One quiz question. `id` is null until the store assigns one. */
  datatype Quiz = Quiz(
    id: Option<string>,
    question: string,
    options: seq<string>,
    correctAnswer: int,
    category: string,
    difficulty: string,
    createdAt: Timestamp,
    updatedAt: Timestamp)

  /** `char.IsWhiteSpace`: the Unicode space, line and paragraph separators,
      the C0 controls tab to carriage return, and U+0085. */
  predicate IsWhite(c: char) {
    || c == ' '
    || ('\t' <= c <= '\r')
    || c == '\U{0085}'
    || c == '\U{00A0}'
    || c == '\U{1680}'
    || ('\U{2000}' <= c <= '\U{200A}')
    || c == '\U{2028}'
    || c == '\U{2029}'
    || c == '\U{202F}'
    || c == '\U{205F}'
    || c == '\U{3000}'
  }

  /** Every character is white space (true of the empty string). */
  predicate IsWhiteSpace(s: string) {
    forall i :: 0 <= i < |s| ==> IsWhite(s[i])
  }

  /** `string.IsNullOrWhiteSpace` on a nullable string. */
  predicate IsNullOrWhiteSpace(s: Option<string>) {
    s.None? || IsWhiteSpace(s.value)
  }

  /** The cross-field invariant: the answer indexes into the options. */
  predicate AnswerInRange(q: Quiz) {
    0 <= q.correctAnswer < |q.options|
  }
}
