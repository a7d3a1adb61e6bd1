/**
 * The question records of the quiz: `normalizeQuestion`, the part of `init`
 * that turns the parsed document into the question list, and the set of
 * question ids that the answer memo is keyed by.
 */
module Questions {
  import opened Wrappers
  import opened Json

  /** The four switches of the quiz (`settings`). */
  datatype Settings = Settings(showProgress: bool, shuffleOptions: bool, showExplanation: bool, shuffleQuestions: bool)

  /** A normalized question; `kind` is the record's `type` field. */
  datatype Question = Question(
    id: string,
    kind: string,
    prompt: string,
    options: seq<string>,
    correctAnswer: string,
    explanation: string)

  /** Why `init` ends in its error branch once the document has been parsed. */
  datatype LoadError =
    | NullDocument        // `data.settings` on a null document throws
    | QuestionsNotArray   // `questions` is not an array
    | NullQuestion        // `q.question` on a null entry throws
    | EmptyQuiz           // `renderQuestion` finds no first question

  /** `String(v ?? fallback)`. */
  function TextOr(v: Value, fallback: string): (r: string)
    ensures v.Null? ==> r == fallback
    ensures v.Str? ==> r == v.s
  {
    if v.Null? then fallback else ToText(v)
  }

  function ExplanationOf(q: Value): (r: string)
  {
    var meta := if IsObjectLike(Get(q, "meta")) then Get(q, "meta") else Obj(map[]);
    if !Get(q, "explanation").Null? then ToText(Get(q, "explanation"))
    else if !Get(meta, "explicacion").Null? then ToText(Get(meta, "explicacion"))
    else ""
  }

  /** normalizeQuestion: every field coerced to text, with the source's defaults. */
  function NormalizeQuestion(q: Value): (r: Result<Question, LoadError>)
    ensures r.Failure? <==> q.Null?
    ensures r.Failure? ==> r.error == NullQuestion
    ensures r.Success? ==> r.value.kind == TextOr(Get(q, "type"), "single_choice")
    ensures r.Success? ==> r.value.id == TextOr(Get(q, "id"), "")
    ensures r.Success? ==> r.value.prompt == TextOr(Get(q, "question"), "")
    ensures r.Success? ==> r.value.correctAnswer == TextOr(Get(q, "correct_answer"), "")
    ensures r.Success? && !Get(q, "options").Arr? ==> r.value.options == []
    ensures r.Success? && Get(q, "options").Arr? ==> |r.value.options| == |Get(q, "options").items|
    ensures r.Success? && Get(q, "options").Arr? ==>
      forall i :: 0 <= i < |r.value.options| ==> r.value.options[i] == ToText(Get(q, "options").items[i])
    ensures r.Success? ==> r.value.explanation == ExplanationOf(q)
  {
    if q.Null? then Failure(NullQuestion)
    else
      var opts := Get(q, "options");
      Success(Question(
        id := TextOr(Get(q, "id"), ""),
        kind := TextOr(Get(q, "type"), "single_choice"),
        prompt := TextOr(Get(q, "question"), ""),
        options := if opts.Arr? then seq(|opts.items|, i requires 0 <= i < |opts.items| => ToText(opts.items[i])) else [],
        correctAnswer := TextOr(Get(q, "correct_answer"), ""),
        explanation := ExplanationOf(q)))
  }

  /** The explanation prefers the root field, then `meta.explicacion`, then "". */
  lemma ExplanationFallback(q: Value)
    ensures !Get(q, "explanation").Null? ==> ExplanationOf(q) == ToText(Get(q, "explanation"))
    ensures Get(q, "explanation").Null? && Get(q, "meta").Obj? && !Get(Get(q, "meta"), "explicacion").Null? ==>
      ExplanationOf(q) == ToText(Get(Get(q, "meta"), "explicacion"))
    ensures Get(q, "explanation").Null? && (!Get(q, "meta").Obj? || Get(Get(q, "meta"), "explicacion").Null?) ==>
      ExplanationOf(q) == ""
  {
  }

  /** `data.questions.map(normalizeQuestion)`, stopping at the first entry that throws. */
  function NormalizeAll(items: seq<Value>): (r: Result<seq<Question>, LoadError>)
    ensures r.Success? <==> forall i :: 0 <= i < |items| ==> !items[i].Null?
    ensures r.Failure? ==> r.error == NullQuestion
    ensures r.Success? ==> |r.value| == |items|
    ensures r.Success? ==> forall i :: 0 <= i < |items| ==> NormalizeQuestion(items[i]) == Success(r.value[i])
  {
    if items == [] then Success([])
    else
      match NormalizeQuestion(items[0])
      case Failure(e) => Failure(e)
      case Success(q) =>
        match NormalizeAll(items[1..])
        case Failure(e) => Failure(e)
        case Success(rest) =>
          assert forall i :: 1 <= i < |items| ==> items[i] == items[1..][i - 1];
          Success([q] + rest)
  }

  /** The question list `init` builds from the parsed document. */
  function LoadQuestions(data: Value): (r: Result<seq<Question>, LoadError>)
    ensures data.Null? ==> r == Failure(NullDocument)
    ensures !data.Null? && !Get(data, "questions").Arr? ==> r == Failure(QuestionsNotArray)
    ensures Get(data, "questions").Arr? ==> r == NormalizeAll(Get(data, "questions").items)
  {
    if data.Null? then Failure(NullDocument)
    else
      var qs := Get(data, "questions");
      if !qs.Arr? then Failure(QuestionsNotArray)
      else NormalizeAll(qs.items)
  }

  /** The ids of a question list, the keys the answer memo may hold. */
  function IdSet(qs: seq<Question>): set<string>
  {
    if qs == [] then {} else {qs[0].id} + IdSet(qs[1..])
  }

  predicate UniqueIds(qs: seq<Question>)
  {
    forall i, j :: 0 <= i < j < |qs| ==> qs[i].id != qs[j].id
  }

  lemma {:induction false} IdSetHas(qs: seq<Question>, k: nat)
    requires k < |qs|
    ensures qs[k].id in IdSet(qs)
  {
    if k > 0 {
      IdSetHas(qs[1..], k - 1);
    }
  }

  lemma {:induction false} IdSetWitness(qs: seq<Question>, id: string) returns (k: nat)
    requires id in IdSet(qs)
    ensures k < |qs| && qs[k].id == id
  {
    if qs[0].id == id {
      k := 0;
    } else {
      var k' := IdSetWitness(qs[1..], id);
      k := k' + 1;
    }
  }

  /** There are never more distinct ids than questions. */
  lemma {:induction false} IdSetSize(qs: seq<Question>)
    ensures |IdSet(qs)| <= |qs|
  {
    if qs != [] {
      IdSetSize(qs[1..]);
    }
  }

  /** With unique ids, there are exactly as many ids as questions. */
  lemma {:induction false} UniqueIdSetSize(qs: seq<Question>)
    requires UniqueIds(qs)
    ensures |IdSet(qs)| == |qs|
  {
    if qs != [] {
      var rest := qs[1..];
      assert UniqueIds(rest) by {
        forall i, j | 0 <= i < j < |rest| ensures rest[i].id != rest[j].id {
          assert rest[i] == qs[i + 1] && rest[j] == qs[j + 1];
        }
      }
      UniqueIdSetSize(rest);
      if qs[0].id in IdSet(rest) {
        var k := IdSetWitness(rest, qs[0].id);
        assert false;
      }
    }
  }
}
