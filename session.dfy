/**
 * quiz.js's module-level state as one object: the command handlers change its
 * fields in place, option and question orders are shuffled in arrays, and
 * every method is proved to produce exactly the state the matching function
 * of module Quiz describes.
 */
module Session {
  import opened Wrappers
  import opened Questions
  import opened Shuffle
  import Json
  import Quiz
  import QuizProperties

  /** `Array.from({ length: n }, (_, i) => i)`, shuffled when `shuffle_questions` is on. */
  method BuildOrder(n: nat, st: Settings, rnd: seq<nat>) returns (order: seq<nat>)
    ensures order == Quiz.NewOrder(n, st, rnd)
    ensures IsPermutation(order, n)
  {
    var a := new nat[n](i => i);
    assert a[..] == Identity(n);
    if st.shuffleQuestions {
      ShuffleInPlace(a, rnd);
    }
    order := a[..];
  }

  class QuizSession {
    const questions: seq<Question>
    const settings: Settings
    var order: seq<nat>
    var idx: nat
    var score: nat
    var answered: nat
    var currentAnswered: bool
    var lastWasCorrect: bool
    var responses: map<string, Quiz.Response>
    var screen: Quiz.Screen

    /** The fields as a Quiz.State value. */
    function State(): Quiz.State
      reads this
    {
      Quiz.State(questions, settings, order, idx, score, answered,
                   currentAnswered, lastWasCorrect, responses, screen)
    }

    predicate Valid()
      reads this
    {
      Quiz.Valid(State())
    }

    /** The successful path of `init`: the question list is loaded and the first question drawn. */
    constructor (qs: seq<Question>, st: Settings, orderRnd: seq<nat>, optRnd: seq<nat>)
      requires |qs| > 0
      ensures Valid() && State() == Quiz.Start(qs, st, orderRnd, optRnd)
    {
      questions := qs;
      settings := st;
      var o := BuildOrder(|qs|, st, orderRnd);
      order := o;
      idx, score, answered := 0, 0, 0;
      currentAnswered, lastWasCorrect := false, false;
      responses := map[];
      screen := Quiz.Loading;
      new;
      RenderQuestion(optRnd);
    }

    /** renderQuestion. */
    method RenderQuestion(optRnd: seq<nat>)
      requires Quiz.Coherent(State())
      modifies this
      ensures Valid() && State() == Quiz.Render(old(State()), optRnd)
    {
      PermutationLength(order, |questions|);
      PermutationBound(order, |questions|, idx);
      var q := questions[order[idx]];
      var saved: Option<Quiz.Response> := if q.id in responses then Some(responses[q.id]) else None;
      currentAnswered := saved.Some?;
      lastWasCorrect := saved.Some? && saved.value.isCorrect;
      var opts := new string[|q.options|](i requires 0 <= i < |q.options| => q.options[i]);
      assert opts[..] == q.options;
      if saved.None? && settings.shuffleOptions {
        ShuffleInPlace(opts, optRnd);
      }
      screen := Quiz.Asking(Quiz.ViewFor(q, saved, settings, idx, opts[..]));
    }

    /** onAnswer, with the checked radio button's value as `selection`. */
    method OnAnswer(selection: Option<string>)
      requires Valid()
      modifies this
      ensures Valid() && State() == Quiz.Answer(old(State()), selection)
    {
      QuizProperties.AnswerKeepsValid(State(), selection);
      if currentAnswered || selection.None? {
        return;
      }
      Record(selection.value);
    }

    /** The recording part of onAnswer, for an unanswered question. */
    method Record(selected: string)
      requires Valid() && !currentAnswered
      modifies this
      ensures State() == Quiz.Answer(old(State()), Some(selected))
    {
      PermutationLength(order, |questions|);
      PermutationBound(order, |questions|, idx);
      var q := questions[order[idx]];
      assert q == Quiz.Current(State());
      var isCorrect := selected == q.correctAnswer;
      responses := responses[q.id := Quiz.Response(selected, isCorrect)];
      currentAnswered := true;
      answered := answered + 1;
      if isCorrect {
        score := score + 1;
      }
      screen := Quiz.Asking(screen.view.(
        selected := Some(selected),
        feedback := Some(Quiz.FeedbackFor(q, isCorrect)),
        explanation := Quiz.ExplanationShown(settings, q),
        prevEnabled := idx != 0,
        nextEnabled := true));
    }

    /** onNext. */
    method OnNext(optRnd: seq<nat>)
      requires Valid()
      modifies this
      ensures Valid() && State() == Quiz.Next(old(State()), optRnd)
    {
      if !currentAnswered {
        return;
      }
      ghost var s := State();
      if idx < |questions| - 1 {
        assert Quiz.Next(s, optRnd) == Quiz.Render(s.(idx := s.idx + 1), optRnd);
        idx := idx + 1;
        assert State() == s.(idx := s.idx + 1);
        RenderQuestion(optRnd);
      } else {
        assert Quiz.Next(s, optRnd) == Quiz.ShowEnd(s);
        ShowEnd();
      }
    }

    /** onPrev. */
    method OnPrev(optRnd: seq<nat>)
      requires Valid()
      modifies this
      ensures Valid() && State() == Quiz.Prev(old(State()), optRnd)
    {
      if idx == 0 {
        return;
      }
      idx := idx - 1;
      RenderQuestion(optRnd);
    }

    /** showEnd. */
    method ShowEnd()
      modifies this
      ensures State() == Quiz.ShowEnd(old(State()))
    {
      screen := Quiz.Finished(score, |questions|, true, false);
    }

    /** restart: from any state, as long as there is a question to draw. */
    method Restart(orderRnd: seq<nat>, optRnd: seq<nat>)
      requires |questions| > 0
      modifies this
      ensures Valid() && State() == Quiz.Restart(old(State()), orderRnd, optRnd)
    {
      idx := 0;
      score := 0;
      answered := 0;
      currentAnswered := false;
      responses := map[];
      var o := BuildOrder(|questions|, settings, orderRnd);
      order := o;
      RenderQuestion(optRnd);
    }

    /** updateScoreboard: the three numbers the page shows. */
    method Scoreboard() returns (shownScore: nat, shownAnswered: nat, total: nat)
      requires Valid()
      ensures shownScore == score && shownAnswered == answered && total == |questions|
      ensures shownScore <= shownAnswered <= total
    {
      QuizProperties.CountersBounded(State());
      shownScore, shownAnswered, total := score, answered, |questions|;
    }
  }

  /** init once the document is parsed: an error, or a session on its first question. */
  method Init(data: Json.Value, st: Settings, orderRnd: seq<nat>, optRnd: seq<nat>)
    returns (r: Result<QuizSession, LoadError>)
    ensures r.Failure? <==> Quiz.Init(data, st, orderRnd, optRnd).Failure?
    ensures r.Failure? ==> r.error == Quiz.Init(data, st, orderRnd, optRnd).error
    ensures r.Success? ==> fresh(r.value) && r.value.Valid()
    ensures r.Success? ==> r.value.State() == Quiz.Init(data, st, orderRnd, optRnd).value
  {
    var loaded := LoadQuestions(data);
    if loaded.Failure? {
      return Failure(loaded.error);
    }
    if |loaded.value| == 0 {
      return Failure(EmptyQuiz);
    }
    var s := new QuizSession(loaded.value, st, orderRnd, optRnd);
    return Success(s);
  }

  /** Two questions, no shuffling: one right answer, one wrong, then the end screen. */
  method TwoQuestionRun()
  {
    var q1 := Question("q1", "single_choice", "", ["A", "B"], "A", "");
    var q2 := Question("q2", "single_choice", "", ["C", "D"], "D", "");
    var st := Settings(true, false, true, false);
    var s := new QuizSession([q1, q2], st, [], []);
    assert Identity(2) == [0, 1];
    s.OnAnswer(Some("A"));
    assert s.score == 1 && s.answered == 1;
    s.OnNext([]);
    assert s.idx == 1;
    s.OnAnswer(Some("C"));
    assert s.score == 1 && s.answered == 2;
    s.OnNext([]);
    assert s.screen == Quiz.Finished(1, 2, true, false);
    s.OnPrev([]);
    assert s.idx == 0 && s.currentAnswered;
    var shownScore, shownAnswered, total := s.Scoreboard();
    assert (shownScore, shownAnswered, total) == (1, 2, 2);
  }
}
