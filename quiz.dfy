/**
 * The quiz session of quiz.js as values: the module-level state, the screen
 * the page shows, and one function per command. The class in session.dfy
 * runs the same commands in place and is proved equal to these functions.
 */
module Quiz {
  import opened Wrappers
  import opened Questions
  import opened Shuffle
  import Escape

  /** What the answer memo (`responses`) stores under a question id. */
  datatype Response = Response(selected: string, isCorrect: bool)

  /** The result line: "Correcta", or "Incorrecta" with the escaped right answer. */
  datatype Feedback = Correct | Incorrect(correctHtml: string)

  /** The part of the page a question screen consists of, as far as state is concerned. */
  datatype QuestionView = QuestionView(
    options: seq<string>,          // the radio buttons, in display order
    selected: Option<string>,      // the checked radio, if any
    feedback: Option<Feedback>,    // shown once the question is answered
    explanation: Option<string>,   // the explanation block, when visible
    prevEnabled: bool,
    nextEnabled: bool)

  /**
   * Before the first render, a question, or the end screen (`showEnd`), which
   * shows the score out of the total and sets the Prev and Next buttons.
   */
  datatype Screen =
    | Loading
    | Asking(view: QuestionView)
    | Finished(score: nat, total: nat, prevEnabled: bool, nextEnabled: bool)

  /** The module-level variables of quiz.js, plus the screen. */
  datatype State = State(
    questions: seq<Question>,
    settings: Settings,
    order: seq<nat>,
    idx: nat,
    score: nat,
    answered: nat,
    currentAnswered: bool,
    lastWasCorrect: bool,
    responses: map<string, Response>,
    screen: Screen)

  /** The characters `String.prototype.trim` removes: ECMAScript WhiteSpace and LineTerminator. */
  predicate IsTrimmedSpace(c: char)
  {
    c == '\t' || c == '\n' || c == '\U{000B}' || c == '\U{000C}' || c == '\r' || c == ' ' ||
    c == '\U{00A0}' || c == '\U{1680}' || ('\U{2000}' <= c <= '\U{200A}') ||
    c == '\U{2028}' || c == '\U{2029}' || c == '\U{202F}' || c == '\U{205F}' ||
    c == '\U{3000}' || c == '\U{FEFF}'
  }

  /** `!(s && s.trim().length > 0)`. */
  predicate IsBlank(s: string)
  {
    forall i :: 0 <= i < |s| ==> IsTrimmedSpace(s[i])
  }

  function FeedbackFor(q: Question, isCorrect: bool): Feedback
  {
    if isCorrect then Correct else Incorrect(Escape.EscapeHtml(q.correctAnswer))
  }

  /** The explanation block is shown when enabled and the text is not blank. */
  function ExplanationShown(st: Settings, q: Question): Option<string>
  {
    if st.showExplanation && !IsBlank(q.explanation) then Some(q.explanation) else None
  }

  /** The ids whose stored answer was correct. */
  function CorrectIds(m: map<string, Response>): set<string>
  {
    set k | k in m && m[k].isCorrect
  }

  /** All of the invariant except the link between `currentAnswered` and the memo. */
  predicate Coherent(s: State)
  {
    && |s.questions| > 0
    && IsPermutation(s.order, |s.questions|)
    && s.idx < |s.questions|
    && s.answered == |s.responses|
    && s.score == |CorrectIds(s.responses)|
    && s.responses.Keys <= IdSet(s.questions)
  }

  /** `questions[order[idx]]`. */
  function Current(s: State): (q: Question)
    requires Coherent(s)
    ensures q in s.questions
  {
    PermutationLength(s.order, |s.questions|);
    PermutationBound(s.order, |s.questions|, s.idx);
    s.questions[s.order[s.idx]]
  }

  /** `responses.get(q.id)` for the current question. */
  function Saved(s: State): Option<Response>
    requires Coherent(s)
  {
    var id := Current(s).id;
    if id in s.responses then Some(s.responses[id]) else None
  }

  /** The invariant every command keeps (once the first question is rendered). */
  predicate Valid(s: State)
  {
    && Coherent(s)
    && s.currentAnswered == (Current(s).id in s.responses)
    && (!s.currentAnswered ==> s.screen.Asking?)
  }

  /** The id of the question at display position `i`. */
  function IdAt(qs: seq<Question>, order: seq<nat>, i: nat): string
    requires IsPermutation(order, |qs|) && i < |qs|
  {
    PermutationLength(order, |qs|);
    PermutationBound(order, |qs|, i);
    qs[order[i]].id
  }

  /** Every display position before the current one has a stored answer. */
  predicate EarlierAnswered(s: State)
    requires Coherent(s)
  {
    PermutationLength(s.order, |s.questions|);
    forall k :: 0 <= k < s.idx ==> IdAt(s.questions, s.order, k) in s.responses
  }

  /** The invariant of the states the handlers can reach from init. */
  predicate Reachable(s: State)
  {
    Valid(s) && EarlierAnswered(s)
  }

  /** The options order `renderQuestion` uses: shuffled only for an unanswered question. */
  function DisplayedOptions(q: Question, saved: Option<Response>, st: Settings, rnd: seq<nat>): seq<string>
  {
    if saved.None? && st.shuffleOptions then Shuffled(q.options, rnd) else q.options
  }

  /** The question screen `renderQuestion` builds around the options `opts`. */
  function ViewFor(q: Question, saved: Option<Response>, st: Settings, idx: nat, opts: seq<string>): QuestionView
  {
    QuestionView(
      options := opts,
      selected := if saved.Some? && saved.value.selected in opts then Some(saved.value.selected) else None,
      feedback := if saved.Some? then Some(FeedbackFor(q, saved.value.isCorrect)) else None,
      explanation := if saved.Some? then ExplanationShown(st, q) else None,
      prevEnabled := idx != 0,
      nextEnabled := saved.Some?)
  }

  /** renderQuestion: recomputes `currentAnswered` from the memo and draws the question. */
  function Render(s: State, rnd: seq<nat>): (t: State)
    requires Coherent(s)
    ensures Valid(t) && t.screen.Asking?
    ensures t.currentAnswered <==> Current(s).id in s.responses
    ensures t.questions == s.questions && t.order == s.order && t.idx == s.idx && t.settings == s.settings
    ensures t.score == s.score && t.answered == s.answered && t.responses == s.responses
  {
    var q := Current(s);
    var saved := Saved(s);
    s.(currentAnswered := saved.Some?,
       lastWasCorrect := saved.Some? && saved.value.isCorrect,
       screen := Asking(ViewFor(q, saved, s.settings, s.idx, DisplayedOptions(q, saved, s.settings, rnd))))
  }

  /** onAnswer: scores the selected option once per question. */
  function Answer(s: State, selection: Option<string>): (t: State)
    requires Valid(s)
    ensures s.currentAnswered || selection.None? ==> t == s
    ensures selection.Some? ==> t.currentAnswered
    ensures selection.Some? ==> t.responses.Keys == s.responses.Keys + {Current(s).id}
    ensures !s.currentAnswered && selection.Some? ==>
      var ok := selection.value == Current(s).correctAnswer;
      && t.responses == s.responses[Current(s).id := Response(selection.value, ok)]
      && t.answered == s.answered + 1
      && t.score == (if ok then s.score + 1 else s.score)
    ensures !s.currentAnswered && selection.Some? ==>
      var q := Current(s);
      && t.screen.Asking? && t.screen.view.options == s.screen.view.options
      && t.screen.view.selected == selection
      && t.screen.view.feedback == Some(FeedbackFor(q, selection.value == q.correctAnswer))
      && t.screen.view.explanation == ExplanationShown(s.settings, q)
      && t.screen.view.prevEnabled == (s.idx != 0) && t.screen.view.nextEnabled
    ensures t.questions == s.questions && t.order == s.order && t.idx == s.idx && t.settings == s.settings
    ensures t.lastWasCorrect == s.lastWasCorrect
  {
    if s.currentAnswered || selection.None? then s
    else
      var q := Current(s);
      var ok := selection.value == q.correctAnswer;
      s.(responses := s.responses[q.id := Response(selection.value, ok)],
         currentAnswered := true,
         answered := s.answered + 1,
         score := if ok then s.score + 1 else s.score,
         screen := Asking(s.screen.view.(
           selected := selection,
           feedback := Some(FeedbackFor(q, ok)),
           explanation := ExplanationShown(s.settings, q),
           prevEnabled := s.idx != 0,
           nextEnabled := true)))
  }

  /**
   * showEnd: the final score, Next disabled and Prev enabled even at position
   * 0; nothing but the screen changes, so `idx` stays on the last question.
   */
  function ShowEnd(s: State): (t: State)
    ensures t.screen.Finished? && t.screen.score == s.score && t.screen.total == |s.questions|
    ensures t.screen.prevEnabled && !t.screen.nextEnabled
    ensures t.(screen := s.screen) == s
  {
    s.(screen := Finished(s.score, |s.questions|, true, false))
  }

  /** onNext: advances after an answer, or shows the end after the last question. */
  function Next(s: State, rnd: seq<nat>): (t: State)
    requires Valid(s)
    ensures Valid(t)
    ensures !s.currentAnswered ==> t == s
    ensures s.currentAnswered && s.idx < |s.questions| - 1 ==> t.idx == s.idx + 1 && t.screen.Asking?
    ensures s.currentAnswered && s.idx == |s.questions| - 1 ==>
      t.idx == s.idx && t.screen == Finished(s.score, |s.questions|, true, false)
    ensures t.questions == s.questions && t.order == s.order && t.settings == s.settings
    ensures t.score == s.score && t.answered == s.answered && t.responses == s.responses
  {
    if !s.currentAnswered then s
    else if s.idx < |s.questions| - 1 then Render(s.(idx := s.idx + 1), rnd)
    else ShowEnd(s)
  }

  /** onPrev: steps back unless at the first position. */
  function Prev(s: State, rnd: seq<nat>): (t: State)
    requires Valid(s)
    ensures Valid(t)
    ensures s.idx == 0 ==> t == s
    ensures s.idx > 0 ==> t.idx == s.idx - 1 && t.screen.Asking?
    ensures t.questions == s.questions && t.order == s.order && t.settings == s.settings
    ensures t.score == s.score && t.answered == s.answered && t.responses == s.responses
  {
    if s.idx == 0 then s else Render(s.(idx := s.idx - 1), rnd)
  }

  /** The display order built by `init` and `restart`. */
  function NewOrder(n: nat, st: Settings, rnd: seq<nat>): (order: seq<nat>)
    ensures IsPermutation(order, n)
  {
    ShuffledIdentityIsPermutation(n, rnd);
    if st.shuffleQuestions then Shuffled(Identity(n), rnd) else Identity(n)
  }

  /** restart: clears the memo and the counters and draws a new order. */
  function Restart(s: State, orderRnd: seq<nat>, optRnd: seq<nat>): (t: State)
    requires |s.questions| > 0
    ensures Valid(t)
    ensures t.idx == 0 && t.score == 0 && t.answered == 0 && t.responses == map[]
    ensures !t.currentAnswered && t.screen.Asking?
    ensures t.order == (if s.settings.shuffleQuestions then Shuffled(Identity(|s.questions|), orderRnd)
                        else Identity(|s.questions|))
    ensures t.questions == s.questions && t.settings == s.settings
  {
    Render(s.(order := NewOrder(|s.questions|, s.settings, orderRnd),
              idx := 0, score := 0, answered := 0, currentAnswered := false,
              responses := map[]), optRnd)
  }

  /** The state `init` reaches with a non-empty question list. */
  function Start(qs: seq<Question>, st: Settings, orderRnd: seq<nat>, optRnd: seq<nat>): (t: State)
    requires |qs| > 0
    ensures Valid(t)
    ensures t.questions == qs && t.settings == st && t.order == NewOrder(|qs|, st, orderRnd)
    ensures t.idx == 0 && t.score == 0 && t.answered == 0 && t.responses == map[]
    ensures !t.currentAnswered && t.screen.Asking?
  {
    Render(State(qs, st, NewOrder(|qs|, st, orderRnd), 0, 0, 0, false, false, map[], Loading), optRnd)
  }

  /** init after the document is parsed: its error branch, or the first question. */
  function Init(data: Json.Value, st: Settings, orderRnd: seq<nat>, optRnd: seq<nat>): (r: Result<State, LoadError>)
    ensures LoadQuestions(data).Failure? ==> r == Failure(LoadQuestions(data).error)
    ensures LoadQuestions(data) == Success([]) ==> r == Failure(EmptyQuiz)
    ensures r.Success? ==> LoadQuestions(data) == Success(r.value.questions) && |r.value.questions| > 0
    ensures r.Success? ==> Valid(r.value) && r.value.idx == 0 && r.value.responses == map[]
    ensures LoadQuestions(data).Success? && |LoadQuestions(data).value| > 0 ==>
      r == Success(Start(LoadQuestions(data).value, st, orderRnd, optRnd))
  {
    match LoadQuestions(data)
    case Failure(e) => Failure(e)
    case Success(qs) =>
      if |qs| == 0 then Failure(EmptyQuiz) else Success(Start(qs, st, orderRnd, optRnd))
  }
}
