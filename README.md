# FIND ME AI persona backend: parser, quiz summary and theme table

FIND ME AI turns a selfie, a short personality quiz and a chosen theme into an "alter ego"
persona. The backend (`backend/server.py`) does three things with plain data around its calls
to a language model and an image service:

- it renders the quiz answers as a summary, one `Q<id>: <answer>` line per answer, for the prompt;
- it looks up the image style of the chosen theme in a fixed table, with "professional portrait"
  for unknown themes;
- it parses the model's free-text reply into a persona record.
  - The record has a name, a bio, a list of traits and a share quote.
  - Header lines may be Turkish or English (`PERSONA ADI:`, `BİO:`, `ÖZELLİKLER:`,
    `PAYLAŞIM SÖZÜ:`, or `PERSONA NAME:`, `BIO:`, `TRAITS:`/`FEATURES:`,
    `SHARE QUOTE:`/`QUOTE:`).
  - Fixed defaults fill whatever the reply leaves empty.

This project models those pieces in Dafny and proves what they promise.

- `Text`: Python's string operations with the meaning Python gives them.
  - `strip()` uses the full `str.isspace` set.
  - Also covered: `lstrip('- ')`, `startswith` on a tuple, `split('\n')`, `split(':', 1)[1]`,
    `join` and `str(int)`.
  - Strings are sequences of Unicode scalar values: every code point except the surrogates
    U+D800 to U+DFFF.
- `PersonaParser`: the parser.
  - The parser is an imperative method, `ParsePersonaResponse`, proved equal to the
    functional specification `Parse = Finish ∘ Run`. It splits the reply into lines, runs
    the loop `ParseLines` and then applies the fallbacks in `ApplyFallbacks`.
  - The body of the loop, `ParseLine`, has the same branches in the same order as the
    source and updates the section and the fields.
  - `Run` folds `Step` over the lines. `ArmOf` says which branch of the loop body a line takes.
  - For each header, a lemma states in the source's terms which lines take its branch,
    whatever section is open, and what that branch does to the state.
- `PersonaProperties`: what the parser guarantees over whole replies.
  - The record is always complete.
  - Blank lines are irrelevant.
  - The last name header wins, and it changes nothing but the name.
  - Bullets in the traits section become traits, in order.
  - Plain lines continue the bio or the quote after exactly one space.
  - A reply without headers gives the default record.
- `Quiz`: the quiz summary, together with a reader `ReadSummary`. The reader is not part of the
  server. It exists to prove that the summary loses nothing: the answers come back, in order,
  whenever no answer contains a newline.
- `Themes`: the theme table and its lookup.
- `Models` and `Generate`: the request and persona records, and how the endpoint assembles a
  persona from the parsed reply and the first generated picture.

One as-written behaviour follows from `BioParagraph` and `QuoteParagraph`. Take an empty
`BIO:` header before any bio, followed by text on the next line: the bio starts with a space,
because every continuation line is appended as `' ' + line`. The model keeps this behaviour.

## Model

| member | source | states |
|---|---|---|
| `Text.StripContent` | backend/server.py:209 | `strip()` cuts a whitespace-only prefix, exactly the one `lstrip()` cuts, and a whitespace-only suffix. The rest is kept unchanged, and neither starts nor ends with whitespace, so neither cut could be longer |
| `Text.StripIdempotent` | backend/server.py:198-209 | `strip()` applied to an already stripped string changes nothing, so stripping twice equals stripping once; for instance, the first and last lines that line 209 strips were already stripped at their outer ends by line 198 |
| `Text.StripBlank` | backend/server.py:209-211 | A line strips to the empty string exactly when every character in it is whitespace |
| `Text.TrimStart` | backend/server.py:228 | `lstrip('- ')` removes a prefix made only of `-` and space and leaves a suffix that does not start with either |
| `Text.StartsWithConcat` | backend/server.py:213-233 | A line starts with a prefix exactly when it is that prefix followed by some rest |
| `Text.StartsWithAnyCases` | backend/server.py:213-233 | Testing a tuple of prefixes (or a chain of `or`) fails on no prefixes, and otherwise succeeds exactly when the first prefix or one of the rest matches |
| `Text.AfterFirst` | backend/server.py:214 | The text after the first colon: the character before the result is the colon, and no earlier character is one |
| `Text.Split` | backend/server.py:198 | `split('\n')` gives at least one piece, no piece contains a newline, and joining the pieces with newlines gives back the input |
| `Text.SplitJoin` | backend/server.py:198 | Splitting what was joined gives back the pieces, as long as no piece contains the separator |
| `Text.JoinSnoc` | backend/server.py:84 | `join` puts the separator between parts and never after the last: one more part adds the separator and that part at the end |
| `Text.NatToDecimal` | backend/server.py:85 | `str(n)` for n ≥ 0 is digits only, has no leading zero, and denotes n |
| `Text.IntToDecimal` | backend/server.py:85 | `str(n)` starts with `-` exactly for negative n, and every later character is a digit. What follows the sign is the absolute value of n in canonical form: non-empty, digits only, no leading zero, and denoting that absolute value |
| `PersonaParser.HeadersWellFormed` | backend/server.py:213-226 | Every header the parser recognises ends with a colon and has no other colon |
| `PersonaParser.HeaderHasColon` | backend/server.py:213-226 | Every header line contains a colon, so `split(':', 1)[1]` never fails on one |
| `PersonaParser.HeaderArmHasColon` | backend/server.py:213-226 | A line that takes the name, bio or quote header branch contains a colon |
| `PersonaParser.Lines` | backend/server.py:198 | The visited lines are at least one, and joined with newlines they give back the stripped reply |
| `PersonaParser.HeaderText` | backend/server.py:214-224 | The header text is stripped |
| `PersonaParser.HeaderTextAfterHeader` | backend/server.py:214-224 | For a line that starts with a header, the header text is the stripped rest of the line after that header |
| `PersonaParser.BulletTextContent` | backend/server.py:228 | The text of a bullet is the rest of the line after its whole leading run of `-` and spaces, stripped |
| `PersonaParser.StepBlankLine` | backend/server.py:209-211 | A whitespace-only line leaves the state unchanged |
| `PersonaParser.StepKeepsTraitsOffBullet` | backend/server.py:213-234 | Only the bullet branch touches the traits |
| `PersonaParser.StepKeepsTraits` | backend/server.py:227-230 | One step keeps the traits it started with, in order |
| `PersonaParser.RunKeepsTraits` | backend/server.py:208-234 | Traits are only appended: the traits held before the loop are a prefix of those after it |
| `PersonaParser.RunKeepsClean` | backend/server.py:227-230 | Every trait the loop adds is non-empty and stripped |
| `PersonaParser.Finish` | backend/server.py:236-244 | Each empty field takes its default and each filled one is kept, so all four fields are non-empty |
| `PersonaParser.ParsePersonaResponse` | backend/server.py:195-246 | The loop, with its section variable and in-place updates, returns exactly `Parse(response)`, and every field of the result is non-empty |
| `PersonaParser.ParseLines` | backend/server.py:199-234 | The loop starts with every field empty and no section, runs the body once per line in order, and ends in exactly the state that `Run` specifies |
| `PersonaParser.ApplyFallbacks` | backend/server.py:236-244 | The four fallback checks leave exactly the record that `Finish` specifies: each empty field takes its default and each filled one is kept |
| `PersonaParser.ParseLine` | backend/server.py:209-234 | One turn of the loop body, with its checks in the source's order, does to the section and the four fields exactly what `Step` specifies |
| `PersonaProperties.ParseIsComplete` | backend/server.py:236-246 | For every reply, the record has a name, a bio, at least one trait and a quote, and every trait is non-empty and stripped |
| `PersonaProperties.DefaultTraitsClean` | backend/server.py:241-242 | The five default traits are clean |
| `PersonaProperties.RunAppend` | backend/server.py:208 | Running the loop over `a + b` is running it over `a` and then over `b` |
| `PersonaProperties.BlankLineHasNoEffect` | backend/server.py:209-211 | Inserting or deleting a whitespace-only line anywhere leaves the final state unchanged |
| `PersonaProperties.NonBlank` | backend/server.py:209-211 | The filtered lines are exactly the non-blank ones: a line occurs in the result exactly when it occurs in the input and is not blank |
| `PersonaProperties.NonBlankAppend` | backend/server.py:209-211 | Filtering keeps the order: the non-blank lines of `a + b` are those of `a` followed by those of `b` |
| `PersonaProperties.RunIgnoresBlankLines` | backend/server.py:209-211 | The loop gives the same state on the lines with every blank line removed |
| `PersonaProperties.NameLineArm` | backend/server.py:213 | A line takes the name branch exactly when it starts with `PERSONA ADI:` or `PERSONA NAME:`, whatever the section |
| `PersonaProperties.StepKeepsNameOffNameHeader` | backend/server.py:213-234 | Only the name branch touches the name |
| `PersonaProperties.StepKeepsName` | backend/server.py:213-234 | A line that is not a name header keeps the name |
| `PersonaProperties.RunKeepsName` | backend/server.py:213-214 | Without name headers, the name stays what it was |
| `PersonaProperties.LastNameHeaderWins` | backend/server.py:213-214 | The name is the stripped text after the header of the last name header line. A later header overrides an earlier one |
| `PersonaProperties.NameStep` | backend/server.py:213-214 | A line starting with a name header sets the name to its header text, even an empty one, from any section, and changes nothing else, not even the section |
| `PersonaProperties.NameTextAfterHeader` | backend/server.py:214 | The text of a name header is the stripped rest after `PERSONA ADI:` or `PERSONA NAME:` |
| `PersonaProperties.StepIgnoresName` | backend/server.py:208-234 | No branch depends on the name: two states that differ only in the name still differ only in the name after a step |
| `PersonaProperties.RunIgnoresName` | backend/server.py:208-234 | The same holds for the whole loop |
| `PersonaProperties.NameLineChangesOnlyName` | backend/server.py:213-214 | Removing a name header leaves the section, bio, traits and quote of the result unchanged |
| `PersonaProperties.BioHeaderArm` | backend/server.py:213-216 | A line takes the bio header branch exactly when it starts with `BİO:` or `BIO:`, whatever the section; the name check before it never catches such a line |
| `PersonaProperties.TraitsHeaderArm` | backend/server.py:213-221 | A line takes the traits header branch exactly when it starts with `ÖZELLİKLER:`, `TRAITS:` or `FEATURES:`, whatever the section |
| `PersonaProperties.QuoteHeaderArm` | backend/server.py:213-223 | A line takes the quote header branch exactly when it starts with `PAYLAŞIM SÖZÜ:`, `SHARE QUOTE:` or `QUOTE:`, whatever the section |
| `PersonaProperties.BioHeaderStep` | backend/server.py:215-219 | A line starting with a bio header opens the bio section from any section. A non-empty header text replaces the bio, an empty one keeps it, and nothing else changes |
| `PersonaProperties.TraitsHeaderStep` | backend/server.py:220-221 | A line starting with a traits header opens the traits section from any section and changes nothing else; text after its colon is dropped |
| `PersonaProperties.QuoteHeaderStep` | backend/server.py:222-226 | A line starting with a quote header opens the quote section from any section. A non-empty header text replaces the quote, an empty one keeps it, and nothing else changes |
| `PersonaProperties.DashLineIsNoHeader` | backend/server.py:213-227 | A line starting with `-` is never taken for a header |
| `PersonaProperties.DashLineArm` | backend/server.py:227 | In the traits section, a `-` line takes the bullet branch |
| `PersonaProperties.BulletStep` | backend/server.py:227-230 | In the traits section, a `-` line appends its text when that text is non-empty |
| `PersonaProperties.BulletsBecomeTraits` | backend/server.py:227-230 | In the traits section, a run of `-` lines appends exactly their non-empty texts, in input order, and the section stays open |
| `PersonaProperties.NoBulletOutsideTraitsSection` | backend/server.py:227 | Outside the traits section no line takes the bullet branch |
| `PersonaProperties.NoTraitOutsideTraitsSection` | backend/server.py:227 | Outside the traits section no line changes the traits |
| `PersonaProperties.PlainLineArm` | backend/server.py:231-234 | A plain line takes the bio branch in the bio section and the quote branch in the quote section |
| `PersonaProperties.BioLineStep` | backend/server.py:231-232 | In the bio section, a plain line is appended to the bio after one space |
| `PersonaProperties.QuoteLineStep` | backend/server.py:233-234 | In the quote section, a plain line is appended to the quote after one space |
| `PersonaProperties.PlainLinesContinueSection` | backend/server.py:231-234 | In the bio (quote) section, plain lines are appended to the bio (quote), each after exactly one space. Nothing else changes |
| `PersonaProperties.BioParagraph` | backend/server.py:215-232 | A bio header followed by plain lines opens the bio section. The bio becomes the header text, or the earlier bio if that text is empty, followed by the lines |
| `PersonaProperties.QuoteParagraph` | backend/server.py:222-234 | A quote header followed by plain lines opens the quote section. The quote becomes the header text, or the earlier quote if that text is empty, followed by the lines |
| `PersonaProperties.NoSectionArm` | backend/server.py:208-234 | With no section open, a line that is not a header is blank or ignored |
| `PersonaProperties.StepWithoutHeader` | backend/server.py:208-234 | With no section open, a line that is not a header changes nothing |
| `PersonaProperties.RunWithoutHeaders` | backend/server.py:208-234 | Before any header, no line has an effect |
| `PersonaProperties.NoHeaderGivesDefault` | backend/server.py:237-244 | A reply in which no line is a header yields exactly the default record |
| `Quiz.AnswerLine` | backend/server.py:85 | The line determines its answer: reading it back gives the same id and text. It holds a newline exactly when the answer text does |
| `Quiz.AnswerLines` | backend/server.py:84-87 | One line per answer, in input order, the k-th being `Q<id>: <answer>` of the k-th answer |
| `Quiz.QuizSummary` | backend/server.py:84-87 | The summary is empty exactly when there are no answers. When no answer text contains a newline, reading it back gives the answers, their ids and their order |
| `Quiz.SummaryOfFew` | backend/server.py:84-87 | No answers give the empty summary, and one answer gives its line with no newline |
| `Quiz.SummaryAppend` | backend/server.py:84-87 | One more answer adds a newline and its line at the end: newlines separate lines and never trail |
| `Quiz.SummarySplitsIntoLines` | backend/server.py:84-87 | Splitting the summary at newlines gives back the answer lines, when no answer contains a newline |
| `Quiz.ReadIntOfDecimal` | backend/server.py:85 | Reading back the rendered id gives the id |
| `Quiz.ReadLinesOfAnswerLines` | backend/server.py:84-87 | Reading back the answer lines gives the answers in order |
| `Themes.KnownThemes` | backend/server.py:67-72 | The table knows exactly Midnight CEO, Dark Charmer, Alpha Strategist and Glam Diva |
| `Themes.StyleOfKnownThemes` | backend/server.py:67-72 | Each of the four themes gets its own style description from the table |
| `Themes.StyleFor` | backend/server.py:132 | A known theme gets its table entry. The fallback "professional portrait" comes back exactly for themes outside the table, since no entry equals it |
| `Themes.FallbackExactlyForUnknownThemes` | backend/server.py:132 | The lookup gives "professional portrait" exactly for names other than Midnight CEO, Dark Charmer, Alpha Strategist and Glam Diva |
| `Generate.AssemblePersona` | backend/server.py:147-161 | No picture is an HTTP 500 error. Otherwise the persona carries the parsed name, bio, traits and quote, the first picture, the requested theme and the given id and time |
| `Generate.CreatedPersonaIsComplete` | backend/server.py:154-161 | Every persona the endpoint creates has a name, a bio, at least one trait and a quote, and all traits are clean |

## Left out

- The FastAPI application, router, CORS middleware and shutdown hook: web framework wiring.
- MongoDB access (`insert_one`, `find`, `find_one`) and the list and fetch endpoints with their
  404/500 mapping: foreign asynchronous database calls.
- The language-model chat and the image service.
  - The reply text and the generated pictures are parameters of `Generate.AssemblePersona`.
  - The prompt texts (system message, user message, image prompt) are not modelled.
  - The failures of these calls are not modelled either. In the source, the endpoint turns
    every such failure into an HTTP 500.
- `base64.b64encode` of the picture bytes: pictures enter the model already encoded.
- The `uuid4` id and the `utcnow` creation time: nondeterministic, so given as parameters.
- Logging.
- Generate.AssemblePersona: the error detail text assumes that the web framework renders the
  inner `HTTPException` as `"<status>: <detail>"` when the outer handler wraps it. That
  framework code is not part of this model.
- The exception handler of `parse_persona_response`. In the model the parser is total:
  `HeaderHasColon` discharges the only precondition, that of `split(':', 1)[1]`. The handler's
  record would be the same default record that `NoHeaderGivesDefault` describes anyway.
- `GenerateAvatarRequest`: a record the modelled code does not use.
- `backend_test.py`, an HTTP test script against a live server.
- `test_gender_detection.py`, which depends on image-processing libraries and on a function
  that is not part of this model.
- The mobile client's session flow (regenerating and remixing a persona): no such code is part
  of this model.
- Byte-level text encoding: strings are sequences of characters.
- Lone surrogates: a Dafny `char` is a Unicode scalar value, so it cannot hold U+D800 to U+DFFF.
  A Python `str` can, for instance after decoding the JSON escape `"\ud800"`. A reply holding a
  lone surrogate has no counterpart in the model.
- Quiz.QuizSummary: the read-back clause holds only for answers without a newline. An answer
  containing `\n` makes the summary ambiguous in the source as well.
