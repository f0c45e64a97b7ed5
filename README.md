# TalentScout screening flow, modelled in Dafny

TalentScout is a single-page Streamlit application (`app.py`) that screens a
job candidate. It runs in four stages: a greeting, an intake form, a
technical assessment with one page of questions per declared technology, and
a completion page. Streamlit re-runs the whole script on every interaction.
Each re-run ("pass") first logs any text typed into the chat box and checks
it for an exit keyword; on an exit the pass ends there, otherwise it runs the
handler of the current stage.

The model has six modules, one file each:

- `text.dfy` (`Text`): the Python `str` operations that the application
  relies on. These are `strip()` (with Python's whitespace set), `split(sep)`,
  an ASCII `lower()`, the `in` substring test, and the "split, strip, drop
  empty" comprehension.
- `intake.dfy` (`Intake`): the intake form, form validation, the email
  pattern written as character classes, and the parsing of the comma-separated
  tech stack.
- `questions.dfy` (`Questions`): where the questions for a technology come
  from. That is the language-model reply, the fixed fallback table looked up
  by technology name, or four template questions. The reply is post-processed
  into at most five questions.
- `conversation.dfy` (`Conversation`): the append-only conversation log, the
  context string built from its last ten entries, and the exit keywords.
- `screening.dfy` (`Screening`): the session as a value (`State`). Each stage
  handler is a function, `Step` is one pass of `run`, and `RunTurns` is a
  sequence of passes. The lemmas prove the invariant that every reachable
  session keeps, and each stage transition in both directions.
- `app.dfy` (`App`): the class `Session`, whose fields are the Streamlit
  session keys. Its methods update them in place, and each method is proved
  equal to its `Screening` function. Two of the source's loops (app.py:62,
  327) are methods with loop invariants. The key lookup at app.py:237 is the
  recursive `Text.FirstContained`. The key-deleting loop at app.py:366-367
  becomes the field resets of `ShowCompletion`.

One pass of the application is a `Turn`. It holds the chat-box text, the
widget action of that pass, whether an API key is configured, and what the
completion call would reply.

Four behaviours of the code are easy to misread; the model keeps them as
written:

- The form validation tests text fields for emptiness only (Python's `all` on
  strings), not blankness. So a tech stack of `" , "` is accepted and parses
  to no technologies at all (`Intake.BlankTechStackAccepted`).
- An empty tech stack does not lead to completion. The assessment stage stays
  where it is on every later pass (`Screening.EmptyStackStuck`).
- When the API answers, the number of questions is anywhere from 0 to 5, even
  though the prompt at app.py:172 asks for 3 to 5. An empty JSON array gives a technology with no questions, and
  submitting its empty form moves on at once (`Screening.NoQuestionsAdvance`).
- The email check uses `re.match` with a `$` anchor, which also matches just
  before one final newline (`Intake.TrailingNewlineAccepted`).

## Model

| member | source | states |
|---|---|---|
| `Text.Strip` | app.py:142 | the result is the part of the input left when all leading and trailing whitespace is cut away, and neither of its ends is whitespace |
| `Text.StripEmptyIffBlank` | app.py:142 | a string strips to nothing exactly when every character of it is whitespace |
| `Text.Split` | app.py:142 | the pieces contain no separator, there is at least one, and joining them with the separator gives back the input |
| `Text.SplitAround` | app.py:142 | splitting at a separator splits the text on either side of it independently and in order |
| `Text.SplitStrip` | app.py:142 | every kept entry is non-empty, trimmed and free of the separator |
| `Text.SplitStripSegment` | app.py:142 | a piece without the separator gives its stripped self, or nothing when it is blank |
| `Text.SplitStripAround` | app.py:142 | the entries before a separator come first, followed by those after it, in order |
| `Text.Lower` | app.py:236 | same length; no upper-case ASCII letter is left; upper-case letters become their lower-case letter and every other character is kept |
| `Text.Take` | app.py:201 | the slice `[:n]`: a prefix of the input of length min(n, its length) |
| `Text.Contains` | app.py:238 | the substring test holds exactly when the needle occurs at some offset of the haystack |
| `Text.FirstContained` | app.py:237-239 | the loop over the keys returns the first key that occurs, and returns nothing exactly when no key occurs |
| `Intake.HasEmailShapeIff` | app.py:135 | the index-based test accepts exactly the strings of the shape local-part `@` domain `.` letters, with each part drawn from its character class |
| `Intake.IsValidEmail` | app.py:133-136 | the email check accepts exactly what the anchored pattern matches, including one trailing newline |
| `Intake.TrailingNewlineAccepted` | app.py:135-136 | a valid address followed by one newline is still accepted |
| `Intake.EmailExamples` | app.py:135-136 | "a@b.co" is accepted; "not-an-email", "a@b" and "" are refused |
| `Intake.ValidateForm` | app.py:121-131 | a form is accepted exactly when the five text fields are non-empty, at least one position is chosen and the email matches the pattern |
| `Intake.ParseTechStack` | app.py:142 | every parsed technology is non-empty, trimmed and free of commas |
| `Intake.ParseTechStackSegment` | app.py:142 | a segment without a comma yields its stripped self, or nothing when it is blank |
| `Intake.ParseTechStackAround` | app.py:142 | the technologies before a comma come first, followed by those after it, in order |
| `Intake.BlankTechStackAccepted` | app.py:121-143 | a valid form stays valid with tech stack " , ", and that stack parses to no technology |
| `Intake.TechStackExample` | app.py:142 | "Python, JavaScript,  , React" parses to ["Python", "JavaScript", "React"] |
| `Questions.TemplateQuestions` | app.py:241-246 | there are four generic questions, and each one mentions the technology |
| `Questions.FallbackQuestions` | app.py:207-246 | four questions: the list of the first table key, in table order, that occurs in the lower-cased name, or, when no key occurs, the four template questions of app.py:241-246 |
| `Questions.KeyFoundMeansTableList` | app.py:236-239 | a name containing some key gets the list of that key or of an earlier one, never the templates |
| `Questions.FallbackPython` | app.py:236-239 | "Python" gets the stored Python questions |
| `Questions.FallbackJavaScript` | app.py:236-239 | "JavaScript" gets the JavaScript questions, since "python" does not occur in it |
| `Questions.FallbackNode` | app.py:236-239 | "Node.js" gets the Node.js questions, since no earlier key occurs in it |
| `Questions.FallbackRust` | app.py:236-246 | "Rust" matches no key and gets the four template questions, each of which mentions "Rust" |
| `Questions.ReplyLines` | app.py:194-201 | a non-JSON reply gives the first min(5, n) of the n non-blank stripped lines of the stripped reply, in reply order; each is non-empty, trimmed and without a newline |
| `Questions.GenerateQuestionsForTech` | app.py:165-205 | at most five questions. Without a key, or when the call fails, the fallback questions. A JSON array gives its first min(5, n) items. Other text gives its reply lines |
| `Conversation.RecentEntries` | app.py:62 | the window holds the last min(10, n) entries of the log, in order |
| `Conversation.RenderAppend` | app.py:61-63 | rendering two runs of entries is rendering each in turn |
| `Conversation.Context` | app.py:59-64 | with at most ten entries logged, the context renders the whole log |
| `Conversation.ContextForgetsOlderEntries` | app.py:59-64 | once ten entries follow it, an older entry no longer affects the context |
| `Conversation.ContextEndsWithLatest` | app.py:59-64 | the context after logging an entry ends with that entry's line |
| `Conversation.IsExitCommand` | app.py:378 | the input exits exactly when some exit keyword occurs in its lower-cased text |
| `Conversation.ExitIgnoresCase` | app.py:378 | "I need to EXIT now" exits |
| `Conversation.ExitInsideWord` | app.py:378 | "Nonstop" exits, because the test is a substring test |
| `Conversation.NonExitExample` | app.py:378 | "Hello" does not exit |
| `Screening.Initial` | app.py:36-49 | the first session: greeting stage, empty log, no record, no stack, no questions or answers, cursor at 0 |
| `Screening.Record` | app.py:51-57 | the entry is appended to the log and nothing else changes |
| `Screening.GreetingStep` | app.py:282-287 | "Let's Begin!" moves the stage to the intake form; only the stage changes, and without the click nothing changes |
| `Screening.SaveCandidateData` | app.py:138-143 | the form becomes the record, the stored answers are dropped and the stack is the parsed tech stack; log, stage, questions and cursor are kept |
| `Screening.IntakeStep` | app.py:289-294 | a valid submitted form is saved, the stage moves to the assessment and the intake note is logged; anything else changes nothing |
| `Screening.AssessmentStep` | app.py:296-351 | log, record and stack are kept, stored questions are never replaced, the cursor moves by at most one and only on a submission, and the stage becomes completion exactly when the stack is non-empty and the cursor is at its end |
| `Screening.SubmitStep` | app.py:337-351 | the cursor advances exactly when every box is filled, and then the answers are stored with their questions under the current technology; otherwise nothing changes |
| `Screening.CompletionStep` | app.py:364-368 | "Start New Session" gives the initial session; otherwise nothing changes |
| `Screening.Step` | app.py:264-280 | a pass whose text holds an exit keyword only logs the text; outside the assessment, a pass with no widget action only logs the text |
| `Screening.EnsureQuestions` | app.py:313-317 | afterwards the current technology has stored questions, and the stack and the cursor are unchanged |
| `Screening.ShownQuestions` | app.py:313-323 | the questions shown are the stored ones when there are some, and otherwise the ones generated on this pass |
| `Screening.InitialValid` | app.py:36-49 | the first session satisfies the session invariant |
| `Screening.IntakePreservesValid` | app.py:289-294 | the intake handler keeps the session invariant |
| `Screening.EnsureQuestionsPreservesValid` | app.py:313-317 | storing generated questions keeps the session invariant |
| `Screening.SubmitPreservesValid` | app.py:337-351 | storing accepted answers and advancing the cursor keeps the session invariant |
| `Screening.StepPreservesValid` | app.py:264-280 | every pass keeps the session invariant: stage shape, answers stored for exactly the technologies before the cursor, questions only for those reached, answers paired with their questions |
| `Screening.RunTurnsPreservesValid` | app.py:264-280 | any number of passes keeps the session invariant |
| `Screening.CompletionHasEveryAnswer` | app.py:296-348 | at completion, every technology of the parsed stack has stored questions and one non-empty answer per question |
| `Screening.ExitOnlyLogs` | app.py:370-380 | an exit command is logged and ends the pass with nothing else changed |
| `Screening.MessageAlwaysLogged` | app.py:370-385 | typed text is always logged first. Apart from the reset, the log only grows, and by at most the intake note |
| `Screening.GreetingTransition` | app.py:282-287 | the greeting moves to the intake form exactly when "Let's Begin!" is clicked and no exit was typed; only the stage and the log change |
| `Screening.IntakeTransition` | app.py:289-294 | the intake moves to the assessment exactly when a valid form is submitted. The form becomes the record, the stack is parsed and the note is logged. Otherwise only the log changes |
| `Screening.AssessmentCompletes` | app.py:300-309 | the assessment ends exactly when a pass finds a non-empty stack with the cursor at its end |
| `Screening.EmptyStackStuck` | app.py:300-302 | with an empty stack, no sequence of passes changes anything but the log |
| `Screening.ResetTransition` | app.py:364-368 | the session is recreated from scratch exactly when "Start New Session" is clicked and no exit was typed |
| `Screening.StagesMoveForward` | app.py:264-280 | a pass moves the flow forward by at most one stage; only the reset moves it back, to the very start |
| `Screening.QuestionsMemoised` | app.py:313-317 | questions stored for a technology are never replaced; only the reset discards them |
| `Screening.AnswersSubmission` | app.py:335-351 | a submitted answers form advances the cursor exactly when every box is filled. The answers are then stored with their questions; otherwise nothing but the questions and the log changes |
| `Screening.AssessmentWithoutSubmission` | app.py:311-335 | a pass without a submission stores the questions it shows and changes nothing else but the log |
| `Screening.NoQuestionsAdvance` | app.py:314-348 | an empty JSON array reply stores no question on the pass that shows the page, and submitting the empty form on the next pass moves on at once |
| `Screening.PythonScenario` | app.py:296-348 | without a key, the first pass shows and stores the four Python questions. On the next pass four answers are stored with them and advance the cursor, and the pass after that reaches completion |
| `App.ConversationContext` | app.py:59-64 | the loop builds exactly the rendering of the last ten entries |
| `App.CollectResponses` | app.py:326-333 | one answer per question: the text typed into its box, or "" for a box left untouched |
| `App.Session.constructor` | app.py:36-49 | a new session is the initial session |
| `App.Session.AddToHistory` | app.py:51-57 | the entry is appended and nothing else changes |
| `App.Session.GetConversationContext` | app.py:59-64 | the context of the session's log |
| `App.Session.CheckExitCommand` | app.py:370-385 | logs non-empty text, and reports an exit exactly when the text holds a keyword |
| `App.Session.ShowGreeting` | app.py:282-287 | performs the greeting step in place |
| `App.Session.SaveCandidateData` | app.py:138-143 | the form replaces the record, the stored answers are dropped and the stack is parsed |
| `App.Session.CollectCandidateData` | app.py:289-294 | performs the intake step in place |
| `App.Session.ConductTechnicalAssessment` | app.py:296-351 | performs the assessment step in place |
| `App.Session.ShowQuestions` | app.py:313-317 | stores generated questions for the current technology unless some are stored already |
| `App.Session.SubmitAnswers` | app.py:337-351 | stores the answers and advances the cursor only when every box is filled |
| `App.Session.ShowCompletion` | app.py:364-368 | "Start New Session" resets every field to its initial value |
| `App.Session.Run` | app.py:264-280 | one pass in place is `Screening.Step`, and it keeps the session invariant |

## Left out

- Rendering is not modelled: titles, markdown, balloons, the JSON review panel, and the error, warning and info messages. `st.rerun()` is modelled as the end of the pass. The pass it starts at once (app.py:287, 294, 308, 349, 368) is an ordinary `Turn` with no text and `NoAction`, which the caller supplies; without that pass the model does not reach the completion page by itself after the last submission, as the program does.
- The completion call to OpenAI (prompt, model name, tokens, temperature) is not modelled. Its outcome is an input (`ApiReply`): a failure, a reply that parses as a JSON array of strings, or text that is not JSON.
- A reply that parses as a JSON string is not modelled. Neither is a JSON array whose items are not strings. Other JSON values (objects, numbers, booleans, null) make the slice raise inside the `try`, so they behave like a failed call.
- How the API key is found (argument, Streamlit secrets, environment) is reduced to one boolean, `hasKey`.
- The experience level passed to the question generator only reaches the prompt, so it is left out. The 0 to 50 bounds on years of experience are enforced by the widget, and `yearsExperience` is an unconstrained integer.
- Timestamps of log entries are left out; reading the clock is outside the model.
- `Text.Lower`: only ASCII letters are lower-cased, whereas Python's `lower()` covers all of Unicode. The exit keywords and fallback keys are ASCII.
- The email pattern is stated directly as character classes rather than run through a regular-expression engine.
- The candidate-data dictionary is the typed `Form` plus the `techResponses` map. The insertion order of the Python dictionaries is not kept.
- Streamlit's widget values are inputs to a pass: the typed chat text, the clicked button, the submitted form, and the text typed into each answer box.
