/** The quiz session of college.js: the three variables `index`, `score` and
    `questions` that the page's event handlers update in place, together with the
    part of the page those handlers switch on and off and that decides which
    clicks can happen next (which of the start button, the question panel and the
    result panel is visible, whether the next button is visible, which choice
    texts are rendered and whether they still accept a click, their marks, how
    many fetches are still in flight, and the score line written on the result
    panel).

    A handler runs only when its control can be clicked; that is the `requires`
    of each event method. The page markup is assumed to hold the next button and
    the choice list inside the question panel and the restart button inside the
    result panel, and to show only the start button when the page loads. */
module Session {
  import opened Questions
  import opened Marking

  /** How a fetch started by `startQuiz` settles. `Failed` covers a transport
      failure, a status that is not OK and a body that is not readable;
      `Loaded` carries the parsed results and, per result, the order that the
      random-comparator `sort` gave its choice list. */
  datatype FetchOutcome =
    | Failed
    | Loaded(results: seq<RawResult>, shuffles: seq<seq<string>>)

  /** `sort` only rearranges: every order it reports is a rearrangement. */
  predicate SortPermutes(outcome: FetchOutcome)
  {
    outcome.Loaded? ==> Reorderings(outcome.results, outcome.shuffles)
  }

  class QuizSession {
    var index: nat
    var score: nat
    var questions: seq<Question>

    var startShown: bool
    var quizShown: bool
    var resultShown: bool
    /** The next button lacks its own `hidden` class. It sits inside the question
        panel, so it can be clicked only when `quizShown && nextShown`. */
    var nextShown: bool
    /** Texts of the choice items currently in the list. */
    var rendered: seq<string>
    /** The rendered items still accept a click (`pointerEvents` not yet "none"). */
    var picking: bool
    var marks: seq<Mark>
    /** Fetches started and not yet settled. */
    var pending: nat
    /** The score line written by `showResult`: `shownScore / shownTotal`. */
    var shownScore: nat
    var shownTotal: nat

    /** Only the start button is visible; nothing of a session is kept. */
    ghost predicate Idle()
      reads this
    {
      startShown && !quizShown && !resultShown && !picking && pending == 0 &&
      index == 0 && score == 0 && questions == []
    }

    /** The single fetch is in flight; the question panel waits for it. */
    ghost predicate Loading()
      reads this
    {
      !startShown && quizShown && !resultShown && !nextShown && !picking && pending == 1 &&
      index == 0 && score == 0 && questions == []
    }

    /** Question `index` is on screen and not yet answered. */
    ghost predicate Asking()
      reads this
    {
      !startShown && quizShown && !resultShown && !nextShown && picking && pending == 0 &&
      index < |questions| && rendered == questions[index].choices && score <= index
    }

    /** Question `index` has been answered; the next button is offered. */
    ghost predicate Answered()
      reads this
    {
      !startShown && quizShown && !resultShown && nextShown && !picking && pending == 0 &&
      index < |questions| && rendered == questions[index].choices && score <= index + 1
    }

    /** The result panel shows the score line of the finished session. */
    ghost predicate Finished()
      reads this
    {
      !startShown && !quizShown && resultShown && !picking && pending == 0 &&
      index == |questions| && score <= index &&
      shownScore == score && shownTotal == |questions|
    }

    /** The states the page can reach: one of the five phases, with every
        question answerable and one mark per rendered item. */
    ghost predicate Valid()
      reads this
    {
      AllWellFormed(questions) &&
      |marks| == |rendered| &&
      (Idle() || Loading() || Asking() || Answered() || Finished())
    }

    /** The page as loaded: module-level `index = 0`, `score = 0`, `questions = []`.
        The markup is assumed to give the next button its own `hidden` class. */
    constructor ()
      ensures Valid() && Idle()
      ensures !nextShown && rendered == [] && marks == []
    {
      index, score, questions := 0, 0, [];
      startShown, quizShown, resultShown, nextShown := true, false, false, false;
      rendered, picking, marks := [], false, [];
      pending := 0;
      shownScore, shownTotal := 0, 0;
    }

    /** The score line on the result panel: never more correct picks than questions. */
    function ResultLine(): (line: (nat, nat))
      reads this
      requires Valid() && resultShown
      ensures line.0 <= line.1
    {
      (shownScore, shownTotal)
    }

    /** `startQuiz`, corrected (see the finding in README.md): besides hiding the
        start button and the result panel, showing the question panel, zeroing
        `index` and `score` and starting a fetch, it also hides the next button.
        `questions` is left as it is until the fetch settles. */
    method StartQuiz()
      requires startShown
      modifies this`startShown, this`resultShown, this`quizShown, this`nextShown
      modifies this`index, this`score, this`pending
      ensures !startShown && !resultShown && quizShown && !nextShown
      ensures index == 0 && score == 0 && pending == old(pending) + 1
      ensures old(Valid()) ==> Valid() && Loading()
    {
      startShown, resultShown, quizShown := false, false, true;
      nextShown := false;
      index, score := 0, 0;
      pending := pending + 1;
    }

    /** `startQuiz` as written: the next button keeps whatever visibility the
        previous session left it with. */
    method StartQuizAsWritten()
      requires startShown
      modifies this`startShown, this`resultShown, this`quizShown
      modifies this`index, this`score, this`pending
      ensures !startShown && !resultShown && quizShown
      ensures index == 0 && score == 0 && pending == old(pending) + 1
    {
      startShown, resultShown, quizShown := false, false, true;
      index, score := 0, 0;
      pending := pending + 1;
    }

    /** `showQuestion`: hides the next button, then renders the choices of
        `questions[index]` as fresh, clickable, unmarked items. Past the end of
        `questions` the read of `questions[index]` throws, after the next button
        was hidden and before anything was rendered; `shown` says which. */
    method ShowQuestion() returns (shown: bool)
      modifies this`nextShown, this`rendered, this`picking, this`marks
      ensures !nextShown
      ensures shown == (index < |questions|)
      ensures shown ==> rendered == questions[index].choices && picking && marks == Unmarked(|rendered|)
      ensures !shown ==> rendered == old(rendered) && picking == old(picking) && marks == old(marks)
    {
      nextShown := false;
      if index < |questions| {
        rendered := questions[index].choices;
        picking := true;
        marks := Unmarked(|rendered|);
        shown := true;
      } else {
        shown := false;
      }
    }

    /** `showResult`: swaps the question panel for the result panel and writes
        the score line `score / questions.length`. */
    method ShowResult()
      modifies this`quizShown, this`resultShown, this`shownScore, this`shownTotal
      ensures !quizShown && resultShown
      ensures shownScore == score && shownTotal == |questions|
    {
      quizShown, resultShown := false, true;
      shownScore, shownTotal := score, |questions|;
    }

    /** The `catch` of `fetchQuestions`: the question panel gives way to the start
        button again so that the user can retry. */
    method FailLoading()
      modifies this`quizShown, this`startShown
      ensures !quizShown && startShown
    {
      quizShown, startShown := false, true;
    }

    /** A fetch settles. On success `questions` is replaced by the normalised
        results and the first question at `index` is shown; if there is none,
        `showQuestion` throws inside the `try` and the error path runs with
        `questions` already replaced. On failure `questions` keeps its value. */
    method FetchSettled(outcome: FetchOutcome, decode: string -> string)
      requires pending > 0 && SortPermutes(outcome)
      modifies this`questions, this`pending, this`nextShown, this`rendered, this`picking, this`marks
      modifies this`quizShown, this`startShown
      ensures pending == old(pending) - 1
      ensures outcome.Failed? ==> questions == old(questions)
      ensures outcome.Loaded? ==>
        questions == NormaliseAll(decode, outcome.results, outcome.shuffles) && !nextShown
      ensures outcome.Failed? ==> nextShown == old(nextShown)
      ensures outcome.Loaded? && index < |questions| ==>
        rendered == questions[index].choices && picking && marks == Unmarked(|rendered|) &&
        quizShown == old(quizShown) && startShown == old(startShown)
      ensures outcome.Failed? || index >= |questions| ==>
        rendered == old(rendered) && picking == old(picking) && marks == old(marks) &&
        !quizShown && startShown
      ensures old(Valid()) ==> Valid() && (Asking() || Idle())
      ensures old(Valid()) && outcome.Loaded? && |questions| > 0 ==> Asking() && score == 0
    {
      ghost var wasLoading := Valid() && Loading();
      assert old(Valid()) ==> wasLoading;
      pending := pending - 1;
      match outcome {
        case Failed =>
          FailLoading();
          assert wasLoading ==> Valid() && Idle();
        case Loaded(results, shuffles) =>
          questions := NormaliseAll(decode, results, shuffles);
          assert AllWellFormed(questions);
          var shown := ShowQuestion();
          if !shown {
            FailLoading();
            assert wasLoading ==> questions == [] && Valid() && Idle();
          } else {
            assert wasLoading ==> Valid() && Asking();
          }
      }
    }

    /** `selectedAnswer` for the `k`-th rendered item: every item stops accepting
        clicks and is marked, the score goes up by one exactly when the picked
        text is the current question's answer, and the next button appears.
        `index` and `questions` are not touched. When `questions[index]` does not
        exist the handler throws on its first line and changes nothing. */
    method Select(k: nat)
      requires quizShown && picking && k < |rendered|
      modifies this`picking, this`marks, this`score, this`nextShown
      ensures index < |questions| ==>
        !picking && nextShown &&
        |marks| == |rendered| &&
        (forall i :: 0 <= i < |rendered| ==>
          marks[i] == Classify(rendered[i], rendered[k], questions[index].answer)) &&
        score == old(score) + (if rendered[k] == questions[index].answer then 1 else 0)
      ensures index >= |questions| ==>
        picking == old(picking) && marks == old(marks) && score == old(score) && nextShown == old(nextShown)
      ensures old(Valid()) ==> Valid() && Answered() && Correct in marks
    {
      if index < |questions| {
        var answer := questions[index].answer;
        var choice := rendered[k];
        picking := false;
        marks := MarkChoices(rendered, choice, answer);
        if choice == answer {
          score := score + 1;
        }
        nextShown := true;
      }
    }

    /** The next button: one step forward, then the next question if there is
        one and the result panel otherwise. */
    method Next()
      requires quizShown && nextShown
      modifies this`index, this`nextShown, this`rendered, this`picking, this`marks
      modifies this`quizShown, this`resultShown, this`shownScore, this`shownTotal
      ensures index == old(index) + 1
      ensures index < |questions| ==>
        !nextShown && rendered == questions[index].choices && picking && marks == Unmarked(|rendered|) &&
        quizShown && resultShown == old(resultShown) &&
        shownScore == old(shownScore) && shownTotal == old(shownTotal)
      ensures index >= |questions| ==>
        !quizShown && resultShown && shownScore == score && shownTotal == |questions| &&
        nextShown == old(nextShown) && rendered == old(rendered) && picking == old(picking) &&
        marks == old(marks)
      ensures old(Valid()) ==> Valid() && (Asking() || Finished())
    {
      index := index + 1;
      if index < |questions| {
        var shown := ShowQuestion();
      } else {
        ShowResult();
      }
    }

    /** The restart button: back to the start button with the session cleared. */
    method Restart()
      requires resultShown
      modifies this`resultShown, this`index, this`score, this`questions, this`startShown, this`quizShown
      ensures !resultShown && startShown && !quizShown
      ensures index == 0 && score == 0 && questions == []
      ensures old(Valid()) ==> Valid() && Idle()
    {
      resultShown := false;
      index, score, questions := 0, 0, [];
      startShown, quizShown := true, false;
    }
  }

  /** The page as written, loaded and showing the only question of a
      one-question response, left in the provider's order. */
  method RoundShown(decode: string -> string, raw: RawResult) returns (s: QuizSession)
    ensures fresh(s)
    ensures s.quizShown && s.picking && s.index == 0 && s.pending == 0
    ensures s.questions == NormaliseAll(decode, [raw], [AllChoices(raw)])
    ensures |s.questions| == 1 && s.rendered == s.questions[0].choices
  {
    s := new QuizSession();
    s.StartQuizAsWritten();
    s.FetchSettled(Loaded([raw], [AllChoices(raw)]), decode);
  }

  /** Continuing from `RoundShown`: the correct answer is picked, the result
      panel reached and the restart button clicked. The start button is back,
      and the next button, which nothing has hidden since the pick, is not
      hidden: it reappears as soon as start shows the question panel. */
  method RoundPlayed(decode: string -> string, raw: RawResult) returns (s: QuizSession)
    ensures fresh(s)
    ensures s.startShown && !s.quizShown && !s.resultShown && s.nextShown && s.pending == 0
    ensures s.questions == []
  {
    s := RoundShown(decode, raw);
    NormaliseAllAt(decode, [raw], [AllChoices(raw)], 0);
    s.Select(|raw.incorrectAnswers|);
    s.Next();
    s.Restart();
  }

  /** Continuing from `RoundPlayed`: the next button, shown again with the question panel, is clicked
      while the second round loads, which shows the result panel; a restart and
      a start from there leave two fetches in flight for one session. */
  method TwoFetchesInFlight(decode: string -> string, raw: RawResult) returns (s: QuizSession)
    ensures fresh(s)
    ensures s.pending == 2 && s.quizShown && s.index == 0 && s.score == 0
  {
    s := RoundPlayed(decode, raw);
    s.StartQuizAsWritten();
    s.Next();
    s.Restart();
    s.StartQuizAsWritten();
  }

  /** Continuing from `TwoFetchesInFlight`: the first response shows the question,
      the user picks the right answer, the late second response renders the same
      question again, the user picks it again and moves on. With one-question
      responses (here left in the provider's order) the result line reads 2 / 1,
      whatever the question and the decoding. */
  method StaleFetchOverscores(decode: string -> string, raw: RawResult) returns (shown: nat, total: nat)
    ensures shown == 2 && total == 1
  {
    var one := Loaded([raw], [AllChoices(raw)]);
    var k := |raw.incorrectAnswers|;
    var s := TwoFetchesInFlight(decode, raw);
    s.FetchSettled(one, decode);
    s.Select(k);
    s.FetchSettled(one, decode);
    s.Select(k);
    s.Next();
    shown, total := s.shownScore, s.shownTotal;
  }
}
