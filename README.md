# Quiz session model

A Dafny model of `quiz.js`, a browser multiple-choice quiz. The quiz loads a question list,
shows one question at a time and scores the option the user picks. A stored answer memo
(`responses`, keyed by question id) lets the user go back with "Anterior" without being
scored twice. "Reiniciar" (restart) clears everything and draws a new question order.

Modules, one per concern of the script:

- `Wrappers` (wrappers.dfy): `Option` and `Result`.
- `Json` (json.dfy): the parsed document. Its values are null (which also stands for an
  absent property), strings, arrays and objects. It also models property access and
  JavaScript's `String()` coercion of those four kinds of value.
- `Escape` (escape.dfy): `escapeHtml`, its five chained `replaceAll` passes, and a
  one-pass character table it is proved equal to.
- `Shuffle` (shuffle.dfy): `shuffleInPlace`, the countdown Fisher–Yates loop over an
  array. `Math.random` is replaced by a caller-supplied `seq<nat>`: iteration `k` at index
  `i` swaps with `rnd[k] % (i + 1)`, or with 0 when the sequence is exhausted. The
  specification function `Shuffled` is proved to be a permutation.
- `Questions` (questions.dfy): `normalizeQuestion`, the part of `init` that turns the
  document into the question list, and the set of question ids.
- `Quiz` (quiz.dfy): the session as a value. It holds the module-level variables
  (`questions`, `order`, `idx`, `score`, `answered`, `currentAnswered`, `lastWasCorrect`,
  `responses`) and the screen. The screen is a question view, the end screen, or nothing
  yet. There is one function per command, and the invariant `Valid` they keep.
- `QuizProperties` (quiz_properties.dfy): lemmas across commands. They cover the counter
  bounds, answering once, the answer / next / previous round trip, Prev from the end screen,
  and completion of a full run.
- `Session` (session.dfy): class `QuizSession`. Its fields are the script's variables and
  its methods are the handlers, which change the fields in place. Option and question
  orders are shuffled in arrays. Each method's postcondition equates the new state with
  the matching `Quiz` function applied to the old state.

The random source, the user's radio selection and the parsed document are inputs. The
DOM is reduced to the `Screen` value. It records what the page shows and whether the Prev
and Next buttons are enabled, on a question screen and on the end screen.

Where the code and a reading of the quiz as a cleaner state machine differ, the model
follows the code:

- There is no "finished" state. `showEnd` leaves `idx` on the last question and
  `currentAnswered` true, and it enables Prev. Prev from the end screen therefore goes to
  the question before the last one (`QuizProperties.PrevFromEnd`).
- A missing `id` becomes `""`, and ids are not required to be unique. Two questions with
  the same id share one memo entry. The second of them is shown as already answered and is
  never scored, so a full run ends with one answer per distinct id
  (`QuizProperties.RunCompletes`).

## Model

| member | source | states |
|---|---|---|
| `Json.Get` | quiz.js:84-96 | property access yields the object's own field, and null (undefined) for a missing key or a non-object |
| `Json.ToText` | quiz.js:84-96 | `String()` keeps a string unchanged and turns an empty array into "" |
| `Json.IsObjectLike` | quiz.js:88 | defined by its body: `v && typeof v === "object"` holds for arrays and objects only; see `Questions.ExplanationFallback` |
| `Questions.TextOr` | quiz.js:84 | `String(v ?? d)` is `d` for null/undefined and the string itself for a string |
| `Questions.NormalizeQuestion` | quiz.js:83-102 | a null entry throws; otherwise `type` defaults to "single_choice", `id`, `question` and `correct_answer` to "", `options` is `[]` unless an array (and then element-wise `String`), and the explanation is the fallback chain |
| `Questions.ExplanationFallback` | quiz.js:88-92 | the explanation is the root field if non-null, else `meta.explicacion` when `meta` is an object and the field is non-null, else "" |
| `Questions.NormalizeAll` | quiz.js:62 | mapping succeeds iff no entry is null, keeps the length, and each result is that entry's normalization |
| `Questions.LoadQuestions` | quiz.js:54-62 | a null document fails (`data.settings` throws), a non-array `questions` fails, otherwise the list is the normalized entries |
| `Questions.IdSetSize` | quiz.js:196 | there are never more distinct ids than questions |
| `Questions.UniqueIdSetSize` | quiz.js:196 | with unique ids there are exactly as many ids as questions |
| `Escape.EscapeHtmlIsPerCharacter` | quiz.js:291-298 | the five passes, `&` first, equal the one-pass table `& < > " '` to `&amp; &lt; &gt; &quot; &#039;`, so no produced entity is escaped again |
| `Escape.EscapeHtmlHasNoMarkup` | quiz.js:291-298 | the output contains no `<`, `>`, `"` or `'` |
| `Escape.EscapeHtmlPlain` | quiz.js:291-298 | text without any of the five characters is returned unchanged |
| `Escape.ReplaceAllAbsent` | quiz.js:293 | a `replaceAll` pass whose character does not occur changes nothing |
| `Shuffle.Pick` | quiz.js:285 | every draw is a position `0 <= j <= i` |
| `Shuffle.ShuffleDownPermutes` | quiz.js:284-287 | the swaps from index `i` down to 1 keep the multiset of elements |
| `Shuffle.ShuffledPermutes` | quiz.js:283-289 | for every draw sequence the shuffle has the input's length and multiset |
| `Shuffle.SwapCells` | quiz.js:286 | the destructuring swap on the array leaves `Swap` of its old contents |
| `Shuffle.ShuffleInPlace` | quiz.js:283-289 | the in-place loop leaves the array equal to `Shuffled` of its old contents, a permutation of them |
| `Shuffle.Identity` | quiz.js:63 | `Array.from({length: n}, (_, i) => i)` holds `i` at position `i` |
| `Shuffle.PermutationBound` | quiz.js:105 | every entry of `order` indexes `questions` |
| `Shuffle.PermutationCovers` | quiz.js:63-65 | every question index occurs somewhere in `order` |
| `Shuffle.ShuffledIdentityIsPermutation` | quiz.js:270-271 | the identity, shuffled or not, is a permutation of `0..n-1` |
| `Json.JoinTexts` | quiz.js:84 | defined by its body: `Array.prototype.join(",")` of the element texts, a null element giving ""; used by `Json.ToText` |
| `Questions.ExplanationOf` | quiz.js:88-92 | defined by its body; its fallback order is stated by `Questions.ExplanationFallback` |
| `Escape.ReplaceAll` | quiz.js:293-297 | defined by its body: one `replaceAll` pass for a one-character pattern; see `Escape.ReplaceAllAbsent` and `Escape.EscapeHtmlIsPerCharacter` |
| `Escape.EscapeHtml` | quiz.js:291-298 | defined by its body, the five passes in source order; its meaning is stated by `Escape.EscapeHtmlIsPerCharacter`, `Escape.EscapeHtmlHasNoMarkup` and `Escape.EscapeHtmlPlain` |
| `Shuffle.Swap` | quiz.js:286 | exchanging two cells keeps the length; `Shuffle.SwapPermutes` shows it keeps the multiset |
| `Shuffle.ShuffleDown` | quiz.js:284-287 | the loop's iterations from index `i` down to 1 keep the length; `Shuffle.ShuffleDownPermutes` shows they keep the multiset |
| `Shuffle.Shuffled` | quiz.js:283-289 | the shuffle keeps the length; `Shuffle.ShuffledPermutes` shows it is a permutation |
| `Quiz.Saved` | quiz.js:106 | defined by its body: `responses.get(q.id)` for the current question |
| `Quiz.IsBlank` | quiz.js:180 | defined by its body: every character is one `trim` removes, so `trim().length == 0` |
| `Quiz.ExplanationShown` | quiz.js:180 | defined by its body: the explanation is shown iff `show_explanation` is on and the text is not blank |
| `Quiz.FeedbackFor` | quiz.js:171-178 | defined by its body: "Correcta", or "Incorrecta" with the escaped correct answer |
| `Quiz.DisplayedOptions` | quiz.js:127-128 | defined by its body: a copy of the options, shuffled only when there is no stored answer and `shuffle_options` is on; see `QuizProperties.RenderShowsMemo` |
| `Quiz.ViewFor` | quiz.js:130-165 | defined by its body: the stored selection checked, its feedback and explanation, Prev iff `idx != 0`, Next iff answered; see `QuizProperties.RenderShowsMemo` |
| `Quiz.ShowEnd` | quiz.js:245-260 | only the screen changes: the end screen with the score out of the total, Next disabled and Prev enabled (also at position 0) |
| `Quiz.IdAt` | quiz.js:105 | defined by its body: the id of the question at display position `i` |
| `Quiz.EarlierAnswered` | quiz.js:229 | defined by its body: every display position before `idx` has a stored answer |
| `Quiz.Current` | quiz.js:105 | `questions[order[idx]]` is always defined and is one of the questions |
| `Quiz.Render` | quiz.js:104-169 | rendering re-establishes the invariant, sets `currentAnswered` iff the current id has a stored answer, and changes no counter, memo, order, position or setting |
| `Quiz.Answer` | quiz.js:186-200 | no effect when already answered or nothing is selected; otherwise stores `{selected, isCorrect}` under `q.id` with exact string equality, adds 1 to `answered` and adds 1 to `score` iff correct; the screen keeps its options and shows the selection, the feedback for that verdict, the explanation when enabled and not blank, Prev iff `idx != 0` and Next enabled (quiz.js:202-222) |
| `Quiz.Next` | quiz.js:228-237 | no effect unless answered; moves to `idx + 1` before the last question; at the last question shows the end screen with `idx` unchanged; memo and counters unchanged |
| `Quiz.Prev` | quiz.js:239-243 | no effect at `idx == 0`, otherwise `idx - 1`; memo and counters unchanged |
| `Quiz.NewOrder` | quiz.js:63-65 | the display order is a permutation of the question indices |
| `Quiz.Restart` | quiz.js:262-275 | `idx`, `score`, `answered` are 0, the memo is empty, the order is the identity shuffled iff `shuffle_questions`, and the invariant holds |
| `Quiz.Start` | quiz.js:62-71 | the first state has position 0, zero counters, an empty memo, a permutation order and the invariant |
| `Quiz.Init` | quiz.js:54-79 | load failures and an empty list end in the error branch with that error; a non-empty list gives `Success` of the session `Start` builds, valid on position 0 with an empty memo |
| `QuizProperties.AnswerKeepsValid` | quiz.js:186-200 | answering keeps `answered == |responses|` and `score ==` the number of correct records |
| `QuizProperties.CountersBounded` | quiz.js:196-200 | `score <= answered <= |questions|` in every valid state |
| `QuizProperties.AnswerOnce` | quiz.js:187 | after one answer, any further answer to the same question changes nothing |
| `QuizProperties.RenderShowsMemo` | quiz.js:127-157 | the options shown are a permutation of the question's, in stored order when answered, with the stored selection checked, its feedback and explanation shown and Next enabled; unanswered questions show no selection and Next disabled; Prev is enabled iff `idx != 0` |
| `QuizProperties.AnswerNextPrevRestores` | quiz.js:104-165 | answer A, Next, Prev returns to the same position, answered, with A checked, the original option order, the same feedback and explanation, and counters as the answer left them |
| `QuizProperties.PrevFromEnd` | quiz.js:245-260 | Next at the last question shows the end screen without moving, with Prev enabled and Next disabled; Prev from there goes to `|questions| - 2` (no effect with one question) |
| `QuizProperties.StartReachable` | quiz.js:62-71 | init starts in a state where every earlier position is answered (there is none) |
| `QuizProperties.RestartReachable` | quiz.js:262-275 | restart, from any state, gives such a state again |
| `QuizProperties.AnswerKeepsReachable` | quiz.js:186-200 | answering keeps the invariant and every earlier position answered |
| `QuizProperties.NextKeepsReachable` | quiz.js:228-237 | Next leaves only an answered question, so every position before the new one is answered |
| `QuizProperties.PrevKeepsReachable` | quiz.js:239-243 | Prev keeps every earlier position answered |
| `QuizProperties.PrevLandsOnAnswered` | quiz.js:239-243 | from any position but the first, Prev lands on `idx - 1`, which is shown answered, with its feedback and Next enabled |
| `QuizProperties.Step` | quiz.js:186-237 | one answer and Next keeps the invariant, adds the current id to the memo, and advances or ends |
| `QuizProperties.VisitedAll` | quiz.js:63-65 | visiting every display position visits every question id |
| `QuizProperties.RunVisits` | quiz.js:228-237 | answering and pressing Next from position `k` to the end ends on the end screen with every id of the display order in the memo |
| `QuizProperties.RunCompletes` | quiz.js:228-237 | from a fresh session, one answer and Next per question reaches the end screen with `answered` equal to the number of distinct ids (all questions when ids are unique) |
| `QuizProperties.RestartThenRunCompletes` | quiz.js:262-275 | after restart, from any state, a full run again completes with every id answered |
| `Session.BuildOrder` | quiz.js:63-65 | the order array built and shuffled in place equals `Quiz.NewOrder`, a permutation |
| `Session.QuizSession.constructor` | quiz.js:62-71 | the new session is valid and equals `Quiz.Start` |
| `Session.QuizSession.RenderQuestion` | quiz.js:104-169 | the new state is `Quiz.Render` of the old one, options shuffled in an array |
| `Session.QuizSession.OnAnswer` | quiz.js:186-226 | the new state is `Quiz.Answer` of the old one and stays valid |
| `Session.QuizSession.Record` | quiz.js:193-222 | storing an answer for an unanswered question gives `Quiz.Answer` of the old state |
| `Session.QuizSession.OnNext` | quiz.js:228-237 | the new state is `Quiz.Next` of the old one and stays valid |
| `Session.QuizSession.OnPrev` | quiz.js:239-243 | the new state is `Quiz.Prev` of the old one and stays valid |
| `Session.QuizSession.ShowEnd` | quiz.js:245-260 | only the screen changes, to the end screen with score and total |
| `Session.QuizSession.Restart` | quiz.js:262-275 | the new state is `Quiz.Restart` of the old one, from any non-empty state |
| `Session.QuizSession.Scoreboard` | quiz.js:277-281 | the numbers shown are `score`, `answered`, `|questions|`, with `score <= answered <= total` |
| `Session.Init` | quiz.js:46-80 | fails exactly when `Quiz.Init` does, otherwise returns a fresh valid session equal to it |

## Left out

- `fetch`, `res.ok`, `res.json()` and the `async` flow of `init` are I/O and native parsing. The model starts from the parsed document.
- The `settings` spread over the document's `settings` object is left out because it depends on JavaScript object semantics. `Settings` is a parameter, so the default values (all four switches on) are not modelled either.
- JSON numbers and booleans are not part of `Json.Value`. `ToText` is exact for null, strings, arrays and plain objects, but not for objects with their own `toString` or `valueOf` key.
- The random source is replaced by the draw sequence. The floating-point arithmetic of `Math.floor(Math.random() * (i + 1))` and the uniformity of the shuffle are not modelled; only the permutation property is proved.
- DOM text is not modelled, because it is presentation: the prompt and its "(Sin enunciado)" default, the progress text, the status line and the score markup. The model keeps only what the page offers: options, the checked radio, feedback, explanation, the score on the end screen, and the Prev/Next enabled flags of the question and end screens.
- The Answer button's enabled flag and its `change` listener are left out. The selected radio button is the `selection` parameter of `OnAnswer`.
- `String.prototype.trim` is modelled only as the test "every character is ECMAScript white space or a line terminator" (`Quiz.IsBlank`).
- The catch branch of `init` is modelled as a `LoadError` result. Its markup with the escaped error message is left out.
- `Quiz.Restart`: requires at least one question. With zero questions the source's `restart` throws in `renderQuestion`; this uncaught exception is not modelled.
- `Quiz.Render`, `Quiz.Next`, `Quiz.Prev` and `Quiz.Answer` require the session invariant, which in particular means a non-empty question list. With zero questions `init` ends in its error branch, so these handlers are never reached in a state the model describes.
- `lastWasCorrect` is kept up to date as the source does, but nothing reads it. The only property stated about it is that `Quiz.Answer` leaves it unchanged.
- `Quiz.Answer`: accepts any selected string. On the page the value always comes from a rendered radio button, so it is one of the shown options. The model admits the wider input, which is why `QuizProperties.AnswerNextPrevRestores` states the checked radio only for a selection among the question's options.
- Strings are sequences of Unicode scalar values, while JavaScript strings are UTF-16 code units. A JSON string holding a lone surrogate such as `"\ud800"` cannot be represented. On well-formed text this changes neither `===`, nor `trim`, nor the one-character ASCII patterns of `escapeHtml`.
