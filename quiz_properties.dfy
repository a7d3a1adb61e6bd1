/**
 * What the quiz promises across commands: the counters stay consistent with
 * the memo and bounded by the question count, a question is scored once, a
 * revisited question shows its stored answer, and answering every question in
 * turn reaches the end screen.
 */
module QuizProperties {
  import opened Wrappers
  import opened Questions
  import opened Shuffle
  import opened Quiz

  lemma CorrectIdsInsert(m: map<string, Response>, k: string, r: Response)
    requires k !in m
    ensures |CorrectIds(m[k := r])| == |CorrectIds(m)| + (if r.isCorrect then 1 else 0)
  {
    if r.isCorrect {
      assert CorrectIds(m[k := r]) == CorrectIds(m) + {k};
    } else {
      assert CorrectIds(m[k := r]) == CorrectIds(m);
    }
  }

  /** onAnswer keeps `answered == |responses|` and `score == #correct records`. */
  lemma AnswerKeepsValid(s: State, selection: Option<string>)
    requires Valid(s)
    ensures Valid(Answer(s, selection))
  {
    if !s.currentAnswered && selection.Some? {
      var q := Current(s);
      var ok := selection.value == q.correctAnswer;
      CorrectIdsInsert(s.responses, q.id, Response(selection.value, ok));
      PermutationLength(s.order, |s.questions|);
      PermutationBound(s.order, |s.questions|, s.idx);
      IdSetHas(s.questions, s.order[s.idx]);
    }
  }

  lemma {:induction false} SubsetSize<T>(a: set<T>, b: set<T>)
    requires a <= b
    ensures |a| <= |b|
    decreases |b|
  {
    if a != {} {
      var x :| x in a;
      SubsetSize(a - {x}, b - {x});
    }
  }

  /**
   * What renderQuestion shows: the question's own options, reordered only
   * when it has no stored answer and option shuffling is on; for a stored
   * answer, that selection checked, its feedback, and Next enabled.
   */
  lemma RenderShowsMemo(s: State, rnd: seq<nat>)
    requires Coherent(s)
    ensures Render(s, rnd).screen.Asking?
    ensures
      var v := Render(s, rnd).screen.view;
      var q := Current(s);
      && multiset(v.options) == multiset(q.options)
      && v.prevEnabled == (s.idx != 0)
      && v.nextEnabled == (q.id in s.responses)
      && (q.id in s.responses ==>
            && v.options == q.options
            && v.selected == (if s.responses[q.id].selected in q.options then Some(s.responses[q.id].selected) else None)
            && v.feedback == Some(FeedbackFor(q, s.responses[q.id].isCorrect))
            && v.explanation == ExplanationShown(s.settings, q))
      && (q.id !in s.responses ==>
            && v.selected.None? && v.feedback.None? && v.explanation.None?
            && (s.settings.shuffleOptions ==> v.options == Shuffled(q.options, rnd))
            && (!s.settings.shuffleOptions ==> v.options == q.options))
  {
    ShuffledPermutes(Current(s).options, rnd);
  }

  /** `0 <= score <= answered <= |questions|` in every state. */
  lemma CountersBounded(s: State)
    requires Coherent(s)
    ensures s.score <= s.answered <= |s.questions|
  {
    assert |s.responses| == |s.responses.Keys|;
    SubsetSize(CorrectIds(s.responses), s.responses.Keys);
    SubsetSize(s.responses.Keys, IdSet(s.questions));
    IdSetSize(s.questions);
  }

  /** A question is scored at most once: a second answer changes nothing. */
  lemma AnswerOnce(s: State, a: string, b: Option<string>)
    requires Valid(s)
    ensures Valid(Answer(s, Some(a)))
    ensures Answer(Answer(s, Some(a)), b) == Answer(s, Some(a))
  {
    AnswerKeepsValid(s, Some(a));
  }

  /**
   * Answer, go forward, come back: the question is shown answered, with the
   * stored selection checked, its options in their original order, and the
   * same feedback and explanation as right after answering; the counters keep
   * the values the answer gave them.
   */
  lemma AnswerNextPrevRestores(s: State, a: string, r1: seq<nat>, r2: seq<nat>)
    requires Valid(s) && !s.currentAnswered && s.idx < |s.questions| - 1
    ensures Valid(Answer(s, Some(a)))
    ensures
      var q := Current(s);
      var s1 := Answer(s, Some(a));
      var s3 := Prev(Next(s1, r1), r2);
      && s3.idx == s.idx && s3.currentAnswered
      && s3.score == s1.score == (if a == q.correctAnswer then s.score + 1 else s.score)
      && s3.answered == s1.answered == s.answered + 1
      && s3.responses == s1.responses
      && s3.screen == Asking(QuestionView(
           options := q.options,
           selected := if a in q.options then Some(a) else None,
           feedback := Some(FeedbackFor(q, a == q.correctAnswer)),
           explanation := ExplanationShown(s.settings, q),
           prevEnabled := s.idx != 0,
           nextEnabled := true))
      && (a in q.options ==> s3.screen.view == s1.screen.view.(options := q.options))
  {
    AnswerKeepsValid(s, Some(a));
    var s1 := Answer(s, Some(a));
    var s2 := Next(s1, r1);
    assert s2.idx == s.idx + 1;
    var s3 := Prev(s2, r2);
    assert s3 == Render(s2.(idx := s.idx), r2);
    assert Current(s3) == Current(s);
  }

  // ---------------------------------------------------------------------
  // Going back always reaches an answered question.

  /** init starts with no earlier position, so the invariant holds at once. */
  lemma StartReachable(qs: seq<Question>, st: Settings, orderRnd: seq<nat>, optRnd: seq<nat>)
    requires |qs| > 0
    ensures Reachable(Start(qs, st, orderRnd, optRnd))
  {
  }

  lemma RestartReachable(s: State, orderRnd: seq<nat>, optRnd: seq<nat>)
    requires |s.questions| > 0
    ensures Reachable(Restart(s, orderRnd, optRnd))
  {
  }

  lemma AnswerKeepsReachable(s: State, selection: Option<string>)
    requires Reachable(s)
    ensures Reachable(Answer(s, selection))
  {
    AnswerKeepsValid(s, selection);
  }

  /** Next leaves only an answered question, so every earlier position stays answered. */
  lemma NextKeepsReachable(s: State, rnd: seq<nat>)
    requires Reachable(s)
    ensures Reachable(Next(s, rnd))
  {
    var t := Next(s, rnd);
    if s.currentAnswered && s.idx < |s.questions| - 1 {
      assert Current(s).id == IdAt(s.questions, s.order, s.idx);
      forall k | 0 <= k < t.idx ensures IdAt(t.questions, t.order, k) in t.responses {
        if k < s.idx {
          assert IdAt(s.questions, s.order, k) in s.responses;
        }
      }
    }
  }

  lemma PrevKeepsReachable(s: State, rnd: seq<nat>)
    requires Reachable(s)
    ensures Reachable(Prev(s, rnd))
  {
    var t := Prev(s, rnd);
    forall k | 0 <= k < t.idx ensures IdAt(t.questions, t.order, k) in t.responses {
      assert IdAt(s.questions, s.order, k) in s.responses;
    }
  }

  /**
   * Prev from any position but the first lands on a question that has a
   * stored answer: it is shown answered, with its feedback and Next enabled.
   */
  lemma PrevLandsOnAnswered(s: State, rnd: seq<nat>)
    requires Reachable(s) && s.idx > 0
    ensures Prev(s, rnd).idx == s.idx - 1
    ensures Prev(s, rnd).currentAnswered
    ensures Prev(s, rnd).screen.Asking?
    ensures Prev(s, rnd).screen.view.nextEnabled
    ensures Prev(s, rnd).screen.view.feedback.Some?
  {
    var t := Prev(s, rnd);
    assert IdAt(s.questions, s.order, s.idx - 1) in s.responses;
    assert Current(t).id == IdAt(s.questions, s.order, s.idx - 1);
  }

  /**
   * There is no finished flag: the end screen keeps `idx` on the last
   * question and enables Prev, so Prev from the end lands one before the last
   * question (and does nothing when there is only one question).
   */
  lemma PrevFromEnd(s: State, r1: seq<nat>, r2: seq<nat>)
    requires Valid(s) && s.currentAnswered && s.idx == |s.questions| - 1
    ensures Next(s, r1) == s.(screen := Finished(s.score, |s.questions|, true, false))
    ensures s.idx > 0 ==> Prev(Next(s, r1), r2).idx == |s.questions| - 2
    ensures s.idx == 0 ==> Prev(Next(s, r1), r2) == Next(s, r1)
  {
  }

  // ---------------------------------------------------------------------
  // Completion: answering every question and pressing Next each time.

  /** One round: answer with `pick.0`, then press Next (rendering with `pick.1`). */
  function Step(s: State, pick: (string, seq<nat>)): (t: State)
    requires Valid(s)
    ensures Valid(t)
    ensures t.questions == s.questions && t.order == s.order
    ensures t.responses.Keys == s.responses.Keys + {Current(s).id}
    ensures s.idx < |s.questions| - 1 ==> t.idx == s.idx + 1
    ensures s.idx == |s.questions| - 1 ==> t.screen.Finished?
  {
    AnswerKeepsValid(s, Some(pick.0));
    Next(Answer(s, Some(pick.0)), pick.1)
  }

  function Run(s: State, picks: seq<(string, seq<nat>)>): (t: State)
    requires Valid(s)
    ensures Valid(t)
    ensures t.questions == s.questions && t.order == s.order
    decreases |picks|
  {
    if picks == [] then s else Run(Step(s, picks[0]), picks[1..])
  }

  /** The ids of the first `k` questions in display order. */
  function VisitedIds(qs: seq<Question>, order: seq<nat>, k: nat): set<string>
    requires IsPermutation(order, |qs|) && k <= |qs|
  {
    if k == 0 then {} else VisitedIds(qs, order, k - 1) + {IdAt(qs, order, k - 1)}
  }

  lemma {:induction false} VisitedIdsHas(qs: seq<Question>, order: seq<nat>, k: nat, i: nat)
    requires IsPermutation(order, |qs|) && i < k <= |qs|
    ensures IdAt(qs, order, i) in VisitedIds(qs, order, k)
  {
    if i < k - 1 {
      VisitedIdsHas(qs, order, k - 1, i);
    }
  }

  lemma {:induction false} VisitedIdsInIdSet(qs: seq<Question>, order: seq<nat>, k: nat)
    requires IsPermutation(order, |qs|) && k <= |qs|
    ensures VisitedIds(qs, order, k) <= IdSet(qs)
  {
    if k > 0 {
      VisitedIdsInIdSet(qs, order, k - 1);
      PermutationLength(order, |qs|);
      PermutationBound(order, |qs|, k - 1);
      IdSetHas(qs, order[k - 1]);
    }
  }

  /** Visiting every position of a permutation visits every id. */
  lemma VisitedAll(qs: seq<Question>, order: seq<nat>)
    requires IsPermutation(order, |qs|)
    ensures VisitedIds(qs, order, |qs|) == IdSet(qs)
  {
    VisitedIdsInIdSet(qs, order, |qs|);
    forall id | id in IdSet(qs) ensures id in VisitedIds(qs, order, |qs|) {
      var m := IdSetWitness(qs, id);
      var k := PermutationCovers(order, |qs|, m);
      PermutationLength(order, |qs|);
      VisitedIdsHas(qs, order, |qs|, k);
    }
  }

  lemma {:induction false} RunVisits(s: State, picks: seq<(string, seq<nat>)>)
    requires Valid(s) && |picks| == |s.questions| - s.idx
    requires s.responses.Keys == VisitedIds(s.questions, s.order, s.idx)
    ensures Run(s, picks).screen.Finished?
    ensures Run(s, picks).responses.Keys == VisitedIds(s.questions, s.order, |s.questions|)
    decreases |picks|, 1
  {
    if |picks| > 1 {
      RunVisitsMore(s, picks);
    } else {
      RunVisitsLast(s, picks);
    }
  }

  /** Before the last question: one round, then the rest of the run. */
  lemma {:induction false} RunVisitsMore(s: State, picks: seq<(string, seq<nat>)>)
    requires Valid(s) && |picks| == |s.questions| - s.idx && |picks| > 1
    requires s.responses.Keys == VisitedIds(s.questions, s.order, s.idx)
    ensures Run(s, picks).screen.Finished?
    ensures Run(s, picks).responses.Keys == VisitedIds(s.questions, s.order, |s.questions|)
    decreases |picks|, 0
  {
    var t := Step(s, picks[0]);
    StepVisits(s, picks[0]);
    assert t.idx == s.idx + 1 && |picks[1..]| == |t.questions| - t.idx;
    RunFirst(s, picks);
    RunVisits(t, picks[1..]);
  }

  /** At the last question: the round ends the quiz. */
  lemma {:induction false} RunVisitsLast(s: State, picks: seq<(string, seq<nat>)>)
    requires Valid(s) && |picks| == |s.questions| - s.idx && |picks| == 1
    requires s.responses.Keys == VisitedIds(s.questions, s.order, s.idx)
    ensures Run(s, picks).screen.Finished?
    ensures Run(s, picks).responses.Keys == VisitedIds(s.questions, s.order, |s.questions|)
  {
    assert s.idx == |s.questions| - 1;
    StepVisits(s, picks[0]);
    RunFirst(s, picks);
    RunLast(Step(s, picks[0]), picks[1..]);
  }

  lemma RunLast(t: State, picks: seq<(string, seq<nat>)>)
    requires Valid(t) && |picks| == 0
    ensures Run(t, picks) == t
  {
  }

  /** A run is its first round followed by the rest. */
  lemma RunFirst(s: State, picks: seq<(string, seq<nat>)>)
    requires Valid(s) && picks != []
    ensures Run(s, picks) == Run(Step(s, picks[0]), picks[1..])
  {
  }

  /** One round adds the current position's id to the visited ids. */
  lemma StepVisits(s: State, pick: (string, seq<nat>))
    requires Valid(s) && s.responses.Keys == VisitedIds(s.questions, s.order, s.idx)
    ensures var t := Step(s, pick); t.responses.Keys == VisitedIds(t.questions, t.order, s.idx + 1)
  {
    assert Current(s).id == IdAt(s.questions, s.order, s.idx);
  }

  /**
   * From a fresh session (as after init or restart), answering and pressing
   * Next once per question reaches the end screen with one memo entry per
   * distinct id: all questions, when ids are unique.
   */
  lemma RunCompletes(s: State, picks: seq<(string, seq<nat>)>)
    requires Valid(s) && s.idx == 0 && s.responses == map[] && |picks| == |s.questions|
    ensures Run(s, picks).screen.Finished?
    ensures Run(s, picks).answered == |IdSet(s.questions)|
    ensures UniqueIds(s.questions) ==> Run(s, picks).answered == |s.questions|
    ensures Run(s, picks).score <= Run(s, picks).answered
  {
    RunVisits(s, picks);
    VisitedAll(s.questions, s.order);
    var t := Run(s, picks);
    assert |t.responses| == |t.responses.Keys|;
    if UniqueIds(s.questions) {
      UniqueIdSetSize(s.questions);
    }
    CountersBounded(t);
  }

  /** Restart makes a fresh session whatever came before, so completion holds again. */
  lemma RestartThenRunCompletes(s: State, orderRnd: seq<nat>, optRnd: seq<nat>, picks: seq<(string, seq<nat>)>)
    requires |s.questions| > 0 && |picks| == |s.questions|
    ensures Run(Restart(s, orderRnd, optRnd), picks).screen.Finished?
    ensures Run(Restart(s, orderRnd, optRnd), picks).answered == |IdSet(s.questions)|
  {
    RunCompletes(Restart(s, orderRnd, optRnd), picks);
  }
}
