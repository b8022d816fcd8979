/**
 The request and response records of the persona endpoint, as plain values.
 */
module Models {

  /** One answered quiz question: `question_id` and `answer`. */
  datatype QuizAnswer = QuizAnswer(questionId: int, answer: string)

  /** The body of a persona request: the selfie (already base64 text), the quiz answers and
      the chosen theme. */
  datatype GeneratePersonaRequest =
    GeneratePersonaRequest(selfieBase64: string, quizAnswers: seq<QuizAnswer>, personaTheme: string)

  /** The stored and returned persona. `id` is a UUID string and `createdAt` a UTC timestamp;
      both are produced by library defaults and appear here as given values. */
  datatype GeneratedPersona = GeneratedPersona(
    id: string,
    personaName: string,
    bioParagraph: string,
    traits: seq<string>,
    shareQuote: string,
    avatarBase64: string,
    personaTheme: string,
    createdAt: int)
}
