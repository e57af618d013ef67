# Trivia quiz session (college.js)

A Dafny model of the quiz page in `college.js`. The page fetches multiple-choice
questions from the Open Trivia Database, shows them one at a time, marks the
user's pick as right or wrong, counts correct picks and finally shows
"score / number of questions".

The model has three modules, one per concern of the script:

- `Questions` (questions.dfy): the transform that `fetchQuestions` applies to each
  raw result (`data.results.map(...)`). Every text is decoded. The choice list is
  the incorrect answers followed by the correct one. It is reordered and then
  decoded item by item. The stored answer is the decoded correct answer. The
  entity decoding is a `string -> string` parameter. The random-comparator `sort`
  is represented by its output, which must be a rearrangement of its input.
  Proved: each question has `|incorrect_answers| + 1` choices. The choices are a
  rearrangement of the decoded `incorrect_answers ++ [correct_answer]`. The answer
  is always one of the choices. Results keep their order.
- `Marking` (marking.dfy): the marking rule of `selectedAnswer`, plus the
  `forEach` loop that applies it to every rendered choice.
- `Session` (session.dfy): class `QuizSession`. It holds the script's variables
  `index`, `score` and `questions`. It also holds the page state the handlers
  switch on and off, because that state decides which clicks can happen next:
  - which of the start button, question panel and result panel is visible;
  - whether the next button carries its own `hidden` class (it can be clicked only
    when it does not and the question panel is shown);
  - which choice texts are rendered, whether they still take a click, and their marks;
  - how many fetches are still in flight;
  - the score line written by `showResult`.

  There is one method per handler: start, fetch settled, pick, next and restart.
  There is also one method per helper: `showQuestion`, `showResult` and the error
  path. A handler's `requires` says that its control can be clicked. `Valid()`
  describes five phases: idle, loading, asking, answered and finished. It holds
  in every state reachable with the corrected `StartQuiz`: the constructor
  establishes it, and `StartQuiz`, `FetchSettled`, `Select`, `Next` and `Restart`
  preserve it. In those states the score line never exceeds the number of
  questions. `StartQuizAsWritten` does not preserve it (see "## Findings").

The model follows the code on these points:

- the score is counted up on each pick, not recomputed from stored answers;
- a question has `|incorrect_answers| + 1` choices, not always four;
- the reordering is whatever `sort` returned, not a Fisher–Yates shuffle;
- after a pick every rendered choice stops taking clicks (`pointerEvents` is
  "none"), so the same rendering cannot be picked twice and nothing is
  overwritten. A late response can re-render an answered question, which can
  then be picked again (see "## Findings").

Assumptions about the page markup (index.html is not part of this model):

- the next button and the choice list sit inside the question panel;
- the restart button sits inside the result panel;
- at load only the start button is visible, and the next button carries its own
  `hidden` class besides sitting in the hidden question panel. Without that class
  the overscoring trace of "## Findings" would already work in the first round.

## Model

| member | source | states |
|---|---|---|
| `Questions.DecodeAllKeepsReordering` | college.js:42-50 | Sorting the raw texts and then decoding them gives a rearrangement of the decoded original list, for any decoding |
| `Questions.Normalise` | college.js:33-56 | The prompt and the answer are the decoded raw texts. There are `|incorrect_answers| + 1` choices. The choices are a rearrangement of the decoded `incorrect_answers ++ [correct_answer]`. The answer is one of the choices |
| `Questions.NormaliseAll` | college.js:32-57 | One question per raw result, and every question's answer is among its choices |
| `Questions.NormaliseAllAt` | college.js:32 | Question `i` is the transform of result `i`: the provider's order is kept |
| `Marking.Classify` | college.js:125-130 | An item is marked correct iff its text is the answer. It is marked wrong iff its text is the pick and the pick is not the answer. No item gets both marks |
| `Marking.MarkChoices` | college.js:122-131 | Every rendered item gets its mark from `Classify`. The picked item is always highlighted. The answer is marked whenever it is on screen. A correct pick produces no wrong mark |
| `Session.QuizSession.constructor` | college.js:11-13 | The page starts with `index = 0`, `score = 0` and `questions = []`, showing only the start button (the idle phase) |
| `Session.QuizSession.ResultLine` | college.js:145 | In every state reachable with the corrected start (every `Valid()` state), the result line's score is at most its number of questions |
| `Session.QuizSession.StartQuiz` | college.js:92-101 | Start hides the start button and the result panel and shows the question panel. It sets `index` and `score` to 0, starts a fetch and leaves `questions` untouched. It also hides the next button (the finding below), which makes the state the loading phase |
| `Session.QuizSession.StartQuizAsWritten` | college.js:92-101 | The same as start, except that the next button keeps the visibility the last round left it with |
| `Session.QuizSession.ShowQuestion` | college.js:103-116 | Hides the next button. If `index` is in range, it renders `questions[index].choices` as fresh, clickable, unmarked items. Otherwise the read throws and nothing is rendered |
| `Session.QuizSession.ShowResult` | college.js:142-146 | Swaps the question panel for the result panel and writes `score / questions.length` |
| `Session.QuizSession.FailLoading` | college.js:60-68 | On a failed load the question panel is hidden and the start button is shown again |
| `Session.QuizSession.FetchSettled` | college.js:17-69 | A failed fetch keeps `questions` and returns to the start button. A successful one replaces `questions` with the normalised results and shows question `index`. With no results, `showQuestion` throws inside the `try` and the error path runs. From the loading phase this ends in the asking phase with `score = 0`, or in the idle phase |
| `Session.QuizSession.Select` | college.js:118-140 | All items stop taking clicks and are marked. `score` rises by exactly 1 iff the pick equals `questions[index].answer`. The next button appears. `index` and `questions` do not change. From the asking phase it reaches the answered phase, with the answer marked correct on screen |
| `Session.QuizSession.Next` | college.js:74-81 | `index` rises by exactly 1. If the new `index` is within `questions`, that question is rendered. Otherwise the result panel is shown. From the answered phase this is the next question, or the result with `score <= index = questions.length` |
| `Session.QuizSession.Restart` | college.js:83-90 | The result panel is hidden and the start button shown. `index = 0`, `score = 0` and `questions = []`: the idle phase |
| `Session.RoundShown` | college.js:92-101 | As written, with a one-question response: the first question is rendered and clickable |
| `Session.RoundPlayed` | college.js:74-90 | As written, after a right pick, the result panel and restart, the start button returns and the next button is not hidden, so it reappears as soon as start shows the question panel |
| `Session.TwoFetchesInFlight` | college.js:74-81 | As written, clicking next while the second round loads leads, through restart and start, to two fetches in flight |
| `Session.StaleFetchOverscores` | college.js:92-101 | As written, the late response re-renders the answered question, and the result line reads 2 / 1 for any question and decoding |

## Left out

- Presentation: element lookup, the "Loading questions..." and error texts, the prompt written to `question-text`, and the "selected" class on the picked item.
- The network: the fetch, `response.ok`, `response.json()` and the request URL. A fetch is represented by how it settles: `Failed` or `Loaded`. A payload whose `results` cannot be mapped settles as `Failed`, which keeps `questions` as the throwing `map` does.
- HTML-entity decoding through the `textarea`: any total function on strings stands for it.
- `Math.random()` inside `sort`: only "the output is a rearrangement of the input" is modelled, not its distribution.
- The 2-second `setTimeout` before the start button returns, and `console.error`: the failure path shows the start button at once. So clicks inside that two-second window are not modelled.
- The countdown timer of the other variant of the page: it is not in this file.
- JavaScript numbers: `index` and `score` are unbounded naturals. They only count clicks and never come near 2^53.

## Findings

| source | as written | input that shows it | evidently intended | confidence | as-written member | corrected member |
|---|---|---|---|---|---|---|
| college.js:92-101 | `startQuiz` never hides the next button. After a round, the button is still visible and clickable while the next round loads | Play a round and restart. Click start, then next before the response arrives; this shows the result panel. Restart and start again, so two fetches are in flight. Answer the question from the first response. The late response re-renders it; answer it again and click next. The result reads "2 / 1" (with ten-question responses, "11 / 10") | The next button is hidden until a pick, so one fetch is in flight at a time and the score never exceeds the number of questions | medium, not executed; it relies on the markup keeping the next button visible with the question panel | `Session.StaleFetchOverscores` | `Session.QuizSession.StartQuiz` |
