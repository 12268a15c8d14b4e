# Student helper: the quiz path and the upload server, in Dafny

The system is a small web application. A student uploads a JPG, PNG or PDF file. A Flask
server (`app.py`) extracts the text with an OCR service, with PyPDF2 as a fallback for
PDFs. It then asks a language model for a summary, question-and-answer pairs and five
multiple-choice questions. The browser script (`static/script.js`) parses those questions
into a quiz, grades the student's selections and shows a message.

This project models:

- the multiple-choice parser (`processMCQs`), both as the loop the page runs and as a
  declarative reading that the loop is proved against;
- grading (`evaluateQuiz`) and the message chosen from the percentage;
- the `mcqQuestions` state, kept in a `QuizPage` class whose two methods update it;
- the browser-side type check and progress schedule (`handleFileUpload`);
- the server's `allowed_file` and `is_pdf` rules;
- the two OCR flattening loops;
- the decisions of the `/upload` and `/chat` routes.

Modules:

- `Wrappers`: `Option`.
- `Notifications`: what `showNotification` shows, the success or error styling included.
- `Strings`: JavaScript `trim`/`\s`, Python `strip`, `split('\n')`, `rsplit('.', 1)`,
  ASCII `lower`, and `toUpperCase().charCodeAt(0)`.
- `MCQParser`: the parser, the properties of its output, and a round trip through the
  format the server asks the model for.
- `Quiz`: grading, the verdict and the page class.
- `UploadIntake`: `handleFileUpload`.
- `ServerFiles`: `allowed_file` and `is_pdf`.
- `OcrText`: the flattening loops, over a JSON shape in which a member the loops read can be missing or of the wrong type.
- `Routes`: the two POST routes, with every foreign call passed in as a function parameter.

Where the code and the written description of the system disagree, the model follows the
code:

- A question with no `Answer:` line keeps the key -1. An unanswered question also gives -1,
  so the two match and the question counts as correct (`Quiz.UnansweredQuestion`).
- The key is not always an option index. `Answer: E` gives 4, `Answer: @` gives -1, and a
  blank letter gives NaN, which matches nothing (`MCQParser.AnswerLetterExamples`,
  `MCQParser.AnswerNonLetterExamples`).
- A PDF whose fallback yields pages succeeds even when every page's text is empty, because
  each page adds a line feed (`Routes.UploadFallback`).

## Model

| member | source | states |
|---|---|---|
| MCQParser.ParseLines | static/script.js:190-217 | The loop with its "current question" and final flush returns exactly the declarative parse of the lines. |
| MCQParser.ParseMCQText | static/script.js:189-217 | Splitting the text at line feeds and running the loop gives the declarative parse of the text. |
| MCQParser.IsOptionMarker | static/script.js:203 | An option line (`/^[A-D]\.\s/`) never starts with `Q: ` or `Answer: `, so the three patterns exclude each other. |
| MCQParser.Classify | static/script.js:194-212 | A line is a question, option or answer line exactly when it matches that pattern, and is ignored exactly when it matches none. Because the patterns exclude each other, the order of the tests does not matter. |
| MCQParser.AnswerKeyOf | static/script.js:209-210 | The key is NaN exactly when the text after `Answer: ` is all whitespace. |
| MCQParser.QuestionsAppend | static/script.js:193-212 | One more line changes the parse as the loop does. A `Q: ` line adds a fresh record with key -1. Any other line changes only the last record. Before the first question nothing changes. |
| MCQParser.ParseAppend | static/script.js:193-212 | The same step stated on raw lines through their classification. |
| MCQParser.QuestionsEmptyIff | static/script.js:194-217 | The parse is empty exactly when no line is a question line. |
| MCQParser.QuestionsInOrder | static/script.js:194-217 | There is one record per question line, in encounter order, and each carries that line's trimmed text. |
| MCQParser.QuestionsKeepEveryOption | static/script.js:203-206 | The records' options, read in order, are exactly the option lines after the first question line. Each lands in one record, and earlier ones are dropped. |
| MCQParser.IgnoredLineHasNoEffect | static/script.js:193-212 | Deleting a line that matches none of the three patterns does not change the parse. |
| MCQParser.LaterAnswerWins | static/script.js:207-211 | Of two consecutive answer lines, the later one decides the key. |
| MCQParser.QuestionlessPrefixIsDropped | static/script.js:195-211 | Lines before the first question line have no effect on the result. |
| MCQParser.AnswerLetterExamples | static/script.js:209-210 | ` b` and `Bee` give 1 and `E` gives 4. |
| MCQParser.AnswerNonLetterExamples | static/script.js:209-210 | A blank letter gives NaN, and `@` gives -1. |
| MCQParser.AnswerKeyInRange | static/script.js:209-210 | The key is one of the four option indexes exactly when the trimmed letter is A-D in either case, or U+1E9A. |
| MCQParser.ParseRendered | static/script.js:189-217 | Well-formed questions written in the `Q:`/`A.`/`Answer:` format of app.py:152 parse back to themselves. |
| MCQParser.SplitRendered | static/script.js:189 | The written text splits back into the lines it was joined from. |
| Quiz.UserAnswer | static/script.js:266-267 | The answer is -1 exactly when no option of that question is checked, and is never below -1. |
| Quiz.Score | static/script.js:265-270 | The score never exceeds the number of questions. `ScoreCountsCorrect` and `PerfectScore` state what it counts. |
| Quiz.ScoreCountsCorrect | static/script.js:265-270 | The score is the number of questions whose answer strictly equals the key. |
| Quiz.PerfectScore | static/script.js:265-270 | Full marks exactly when every question is answered correctly. |
| Quiz.UnansweredQuestion | static/script.js:267-268 | An unanswered question counts exactly when its key is still -1. A NaN key matches no answer. |
| Quiz.ReviewOf | static/script.js:272-282 | A review carries the question's number (index plus one) and text. It shows the correct-answer line exactly when it is not marked correct. An answer it shows is the option checked for that question. |
| Quiz.Evaluate | static/script.js:265-283 | The loop's score is the score function, and there is one review per question. |
| Quiz.ReviewsAgreeWithScore | static/script.js:272-280 | A review is marked correct exactly for a counted question and shows the correct answer exactly for the others. "Not answered" goes with -1. |
| Quiz.VerdictOf | static/script.js:295-303 | Full marks (on a non-empty quiz) give "Excellent work!" and a score of 0 gives "Keep practicing!". `VerdictByPercentage` ties the rest to the percentage. |
| Quiz.VerdictByPercentage | static/script.js:295-303 | The integer comparisons pick the same message as the exact percentage compared with 80 and 60. |
| Quiz.EmptyQuizVerdict | static/script.js:295-303 | With no questions the message is always "Keep practicing!". |
| Quiz.VerdictMonotone | static/script.js:297-303 | A higher score never gets a lesser message. |
| Quiz.DecimalValue | static/script.js:305 | The digits shown in the score message read back as the number, with no leading zero. |
| Quiz.ScoreMessage | static/script.js:305 | The message starts with `You scored ` and ends with the verdict's message. `DecimalValue` shows that the digits between read back as the score and the total. |
| Quiz.Rendered | static/script.js:237-239 | The notice "No MCQs could be generated" is shown exactly when there are no questions. |
| Quiz.QuizPage.constructor | static/script.js:30 | The page starts with no stored questions. |
| Quiz.QuizPage.ProcessMCQs | static/script.js:183-231 | A string payload replaces the stored questions by its parse and renders them. Any other payload fails before the reset, keeps the old questions and shows the error notice. The submit button is then shown and the score hidden. |
| Quiz.QuizPage.EvaluateQuiz | static/script.js:261-306 | The page shows the score and total, one review per question and the "Quiz Completed" notification with the score message. The stored questions are left as they were. |
| Quiz.EvaluateTwice | static/script.js:261-306 | Submitting the same selections twice shows the same score. |
| UploadIntake.HandleFileUpload | static/script.js:89-129 | No file does nothing. A type outside the three accepted ones is rejected before any progress, with the fixed message in an error-styled notification. Otherwise the bar runs exactly 20 ticks of 5 percent. |
| UploadIntake.StatusAt | static/script.js:116-122 | A status text is set exactly at 25, 50 and 75 percent. |
| UploadIntake.ProgressSchedule | static/script.js:111-128 | The three statuses fall on ticks 5, 10 and 15. Processing starts once, on tick 20, at 100 percent. |
| UploadIntake.TypeCheckExamples | static/script.js:94-97 | The three MIME types pass; `image/jpg`, `image/gif` and the empty type do not. |
| UploadIntake.IsValidType | static/script.js:94-97 | The `validTypes` test. `TypeCheckExamples` states which types pass, and `HandleFileUpload` rejects exactly the types that fail it. |
| Strings.TrimSpec | static/script.js:199 | `trim` leaves the whitespace-free infix: empty exactly for all-whitespace input, and only whitespace is cut on either side. |
| Strings.TrimIdempotent | static/script.js:199 | Trimming twice is trimming once. |
| Strings.SplitLines | static/script.js:189 | The pieces contain no line feed and join back to the text. |
| Strings.SplitLinesUnique | static/script.js:189 | Any line-feed-free pieces that join to the text are exactly the split. |
| Strings.AfterLastDot | app.py:35 | No result exactly when there is no dot. Otherwise the result is the dot-free text after the last dot. |
| Strings.LowerAscii | app.py:35 | Same length; ASCII capitals are lowered and every other character is kept. |
| Strings.UpperFirstCodeUnit | static/script.js:209-210 | A 16-bit code unit; ASCII letters map to their capitals. |
| ServerFiles.AllowedFileIff | app.py:33-35 | A name is allowed exactly when it has a dot with no dot after it and the lowered text after it is png, jpg, jpeg or pdf. |
| ServerFiles.AllowedFile | app.py:33-35 | An allowed name contains a dot and has at least four characters. `AllowedFileIff` states the rule in full. |
| ServerFiles.UppercaseExtensionAccepted | app.py:35 | `notes.PDF` is allowed. |
| ServerFiles.LastExtensionDecides | app.py:33-35 | For any prefix, even one with dots, only the last extension decides. So `a.exe.pdf` passes, `a.pdf.exe` and `photo.` fail, and `.png` passes. |
| ServerFiles.DotlessNameRefused | app.py:34 | A name without a dot is refused. |
| ServerFiles.IsPdf | app.py:207-208 | There is no flag (the indexing raises) exactly when the sanitised name has no dot. |
| ServerFiles.IsPdfAndAllowedFile | app.py:207-208 | An allowed name yields a flag. The flag is true exactly when the lowered last extension is `pdf`, and then the name is allowed. |
| OcrText.FlattenReadResults | app.py:85-90 | The result is no text (the raise caught at app.py:107-109) exactly when some read result lacks a `lines` list or some line lacks a string `text`. Otherwise it is the stripped concatenation of every line text followed by a line feed. A body without `readResults` gives the empty text. |
| OcrText.ReadTextKeepsEveryLine | app.py:85-90 | Split at line feeds, the flattened text gives back every line text in reading order. Stripping removes only whitespace around it. |
| OcrText.ReadTextEmptyIff | app.py:85-90 | The stripped text is empty exactly when every line text is whitespace. |
| OcrText.FlattenRegions | app.py:97-105 | The result is no text exactly when some region lacks `lines`, some line lacks `words`, or some word lacks a string `text`. Otherwise it is the stripped text of the words, each with a space, a line feed after each line and one more after each region. A body without `regions` gives the empty text. |
| OcrText.AppendRegion | app.py:100-103 | One region adds each of its lines, or fails exactly when one of its lines or words is malformed. |
| OcrText.AppendLine | app.py:101-103 | One line adds each word and a space, then a line feed, or fails exactly when a word lacks a string `text`. |
| OcrText.RegionsTextEmptyIff | app.py:97-105 | The stripped text is empty exactly when every word is whitespace. |
| Routes.Rejection | app.py:189-196 | Passing all three checks means the part exists and has an allowed file name. |
| Routes.UploadValidationOrder | app.py:189-196 | Each of the three 400 answers comes exactly when its check is the first to fail. These are the only 400 answers. |
| Routes.UploadSavedIffAccepted | app.py:196-204 | A file is saved, under its sanitised name, exactly when it passed the checks. A rejection does not depend on any service. |
| Routes.UploadFile | app.py:186-258 | Every answer is 200, 400 or 500, and the file is saved exactly when the answer is not 400. |
| Routes.Process | app.py:197-258 | An accepted file is always saved under its sanitised name, and the answer is 200 or 500. |
| Routes.ExtractText | app.py:211-227 | A truthy OCR text is used as it is. For an image a falsy OCR text stays falsy. |
| Routes.Respond | app.py:229-252 | The answer is 200 exactly when the extracted text is truthy, and 500 otherwise. |
| Routes.Generated | app.py:237-252 | The success body carries the extracted text itself, next to what the model and the translator return for it. |
| Routes.UploadSuccess | app.py:237-252 | A 200 body carries non-empty text: the OCR text when truthy, otherwise the PDF fallback's pages. |
| Routes.UploadFallback | app.py:213-235 | With falsy OCR text an image fails. A PDF with pages succeeds exactly when it has at least one page. A PDF without PyPDF2 fails. |
| Routes.PagesTextEmptyIff | app.py:222-224 | The fallback text is empty exactly when there are no pages. |
| Routes.UploadDotlessSanitisedName | app.py:204-208 | A sanitised name without a dot gives the 500 answer of the `IndexError` after the file was saved. |
| Routes.Truncate | app.py:274 | `s[:1000]` is the prefix of length `min(|s|, 1000)`. |
| Routes.ChatPrompt | app.py:274 | The prompt starts with the fixed introduction, and at most 1000 characters of the text go into it. `PromptSeesFirst1000`, `PromptKeepsMessage` and `PromptAmbiguity` state the rest. |
| Routes.Chat | app.py:260-280 | Every answer is 200 or 400, and a 200 answer is a reply that is never empty. `ChatOutcomes` states which request gets which. |
| Routes.ChatOutcomes | app.py:262-280 | Missing data and a missing message give their 400 answers before the model is asked. Every other request gets a 200 reply that is never empty: the model's if truthy, otherwise the apology. |
| Routes.PromptSeesFirst1000 | app.py:274 | Texts that agree on their first 1000 characters give the same prompt. |
| Routes.PromptKeepsMessage | app.py:274 | For the same text, different messages give different prompts. |
| Routes.PromptAmbiguity | app.py:274 | A short text that contains the prompt's separator gives the same prompt as its head with the rest moved into the message. |

## Left out

- All DOM work is left out: element lookups, HTML strings, `innerHTML`, tabs, drag and drop, `scrollIntoView`, and the notification's timer. The page state records only what the quiz functions decide: the area's content, two visibilities, the score, the reviews and the notification.
- The review's HTML text is not modelled. Its letters and option texts (`String.fromCharCode(65 + …)`, `q.options[userAnswer]`) are out, and so is the `undefined` shown for an out-of-range key. Each review is a record of what it shows.
- `fetch` and the promise chains of the page are left out (network). Neither is `processFileWithAzure`, which `handleFileUpload` calls when the bar is full; the model records that hand-off as a flag on the last tick.
- The interval timer is a plain loop of ticks. Its 200 ms period and asynchrony are not modelled.
- static/chatbot.js is not part of this model.
- The OCR request and its polling loop (app.py:44-92) are left out, and so is the raise for a failed operation. The routes take the OCR result as a service parameter rather than from `FlattenReadResults` and `FlattenRegions`.
- A `lines` or `words` member that is some iterable other than a list (a string or an object, whose iteration yields keys or characters) is treated like a missing one. This differs from the code only for an empty string or an empty object, which it iterates over without raising.
- The Azure OCR, OpenAI and Translator calls, PyPDF2, `secure_filename` and the model calls are parameters of the routes (foreign I/O). Their own failures show up only as the values they return. An exception from PyPDF2 or from one page becomes the `Raised` case.
- Flask itself is left out: routing, `request.get_json` errors, `file.save`, `os.makedirs` and JSON encoding. `os.path.join` is modelled as `"uploads/" + name`.
- `/chat` accepts a JSON object only as a map of string members. A non-string `message` or `extracted_text` is not modelled.
- The uncaught-exception handler of `/chat` (app.py:282-284) is left out, since no modelled step raises there.
- Routes.Process: the summary, the question-and-answer pairs, the questions and the translation are whatever the service parameters return for the prompts of app.py:142-152. No contract states anything about their content.
- The floating-point percentage is replaced by exact integer comparisons. `Quiz.VerdictByPercentage` ties them to exact real division, not to IEEE doubles.
- Strings.UpperFirstCodeUnit covers ASCII, Latin-1 and the lowercase letters whose uppercase form begins with an ASCII letter. Other characters keep their own code unit, which differs from full Unicode case mapping for the remaining cased scripts.
- Strings.LowerAscii lowers ASCII letters only. Python's `lower` also maps other scripts, but no non-ASCII character lowers into `png`, `jpg`, `jpeg` or `pdf`.
- JavaScript strings are modelled as sequences of Unicode scalar values, not UTF-16 code units. The only exception is `charCodeAt(0)` on a supplementary character, which gives its high surrogate.
