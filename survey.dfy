/** The mood survey of `ui/screens/SurveyScreen.kt`: seven questions whose
    answers the screen records one at a time, a gate that offers the results
    once every question is answered, and the scoring in `ResultsCard`. */
module Survey {
  import opened Common

  /** `selectedAnswer` is the index of the chosen option, or -1. */
  datatype SurveyQuestion = SurveyQuestion(question: string, options: seq<string>, selectedAnswer: int)

  const Unanswered: int := -1

  /** The list the screen remembers when it is first shown. */
  function InitialQuestions(): (qs: seq<SurveyQuestion>)
    ensures |qs| == 7
    ensures forall i :: 0 <= i < |qs| ==> qs[i].selectedAnswer == Unanswered
    ensures forall i :: 0 <= i < |qs| ==> |qs[i].options| == if i < 5 then 3 else 4
  {
    [
      SurveyQuestion("Як ти оцінюєш свій рівень стресу сьогодні?",
        ["😌 Майже без стресу", "😐 Помірний стрес", "😟 Високий рівень стресу"], Unanswered),
      SurveyQuestion("Скільки ти сьогодні відпочивав(-ла) під час навчання?",
        ["⏳ Часто робив(-ла) перерви", "🔄 Декілька разів відпочивав(-ла)", "🏃‍♂️ Весь день був(-ла) у русі без відпочинку"], Unanswered),
      SurveyQuestion("Як би ти описав(-ла) свою мотивацію сьогодні?",
        ["🔥 Висока — хотілося вчитися", "😐 Нейтральна — змушував(-ла) себе", "💤 Взагалі не було сил і бажання"], Unanswered),
      SurveyQuestion("Як минув твій день у спілкуванні?",
        ["🗣️ Було приємне спілкування", "🤐 Майже ні з ким не говорив(-ла)", "🚫 Було напружене спілкування"], Unanswered),
      SurveyQuestion("Чи відчував(-ла) ти втому протягом дня?",
        ["💪 Ні, енергії вистачало", "😴 Трохи втомлювався(-лася)", "💤 Був(-ла) виснажений(-на)"], Unanswered),
      SurveyQuestion("Що найбільше вплинуло на твій стан сьогодні?",
        ["🏫 Навчальні навантаження", "🤯 Особисті переживання", "🤩 Хороші моменти, які підняли настрій", "💤 Недосипання"], Unanswered),
      SurveyQuestion("Чи займався(-лася) ти сьогодні чимось для розслаблення?",
        ["🎶 Слухав(-ла) музику", "🏃‍♂️ Робив(-ла) фізичні вправи", "🎨 Займався(-лася) хобі", "❌ Нічого не робив(-ла)"], Unanswered)
    ]
  }

  /** A question whose answer is either missing or one of its options. */
  predicate AnswerInRange(q: SurveyQuestion) {
    q.selectedAnswer == Unanswered || 0 <= q.selectedAnswer < |q.options|
  }

  /** The condition under which the results button is shown. */
  function AllAnswered(qs: seq<SurveyQuestion>): (b: bool)
    ensures b <==> Count(qs, Unanswered) == 0
  {
    forall i :: 0 <= i < |qs| ==> qs[i].selectedAnswer != Unanswered
  }

  /** A survey that has just been opened is not ready for its results. */
  lemma InitialNotAllAnswered()
    ensures !AllAnswered(InitialQuestions())
  {
    var qs := InitialQuestions();
    assert qs[0].selectedAnswer == Unanswered;
  }

  /** The questions, answered or not, with their answers erased. */
  predicate SameQuestions(qs: seq<SurveyQuestion>, ps: seq<SurveyQuestion>) {
    |qs| == |ps| &&
    forall i :: 0 <= i < |qs| ==> qs[i].question == ps[i].question && qs[i].options == ps[i].options
  }

  /** `questions.map { it.copy(selectedAnswer = -1) }`. */
  function Cleared(qs: seq<SurveyQuestion>): (r: seq<SurveyQuestion>)
    ensures SameQuestions(r, qs)
    ensures Count(r, Unanswered) == |r|
  {
    var r := Map((q: SurveyQuestion) => q.(selectedAnswer := Unanswered), qs);
    CountAll(r, Unanswered);
    r
  }

  /** Clearing the answers of the survey's questions gives back the list
      the screen starts with. */
  lemma ClearedIsInitial(qs: seq<SurveyQuestion>)
    requires SameQuestions(qs, InitialQuestions())
    ensures Cleared(qs) == InitialQuestions()
  {
    var init := InitialQuestions();
    var c := Cleared(qs);
    forall i | 0 <= i < |c| ensures c[i] == init[i] {
      assert c[i].question == init[i].question && c[i].options == init[i].options;
    }
  }

  // ---------------------------------------------------------------------
  // Scoring in `ResultsCard`.
  // ---------------------------------------------------------------------

  /** `questions.count { it.selectedAnswer == answer }`. */
  function Count(qs: seq<SurveyQuestion>, answer: int): (n: nat)
    ensures n <= |qs|
    ensures n == 0 <==> forall i :: 0 <= i < |qs| ==> qs[i].selectedAnswer != answer
  {
    if qs == [] then 0
    else (if qs[0].selectedAnswer == answer then 1 else 0) + Count(qs[1..], answer)
  }

  /** The answers that none of the three counts sees: the fourth option of a
      four-option question, and missing answers. */
  function CountOthers(qs: seq<SurveyQuestion>): (n: nat)
    ensures n <= |qs|
  {
    if qs == [] then 0
    else (if 0 <= qs[0].selectedAnswer <= 2 then 0 else 1) + CountOthers(qs[1..])
  }

  /** A list where every question has the same answer counts all of them. */
  lemma {:induction false} CountAll(qs: seq<SurveyQuestion>, answer: int)
    requires forall i :: 0 <= i < |qs| ==> qs[i].selectedAnswer == answer
    ensures Count(qs, answer) == |qs|
  {
    if qs != [] {
      CountAll(qs[1..], answer);
    }
  }

  /** Every question lands in exactly one of good, medium, bad or neither. */
  lemma {:induction false} CountsPartition(qs: seq<SurveyQuestion>)
    ensures Count(qs, 0) + Count(qs, 1) + Count(qs, 2) + CountOthers(qs) == |qs|
  {
    if qs != [] {
      CountsPartition(qs[1..]);
    }
  }

  /** Hence the three counts never exceed the number of questions. */
  lemma CountsBounded(qs: seq<SurveyQuestion>)
    ensures Count(qs, 0) + Count(qs, 1) + Count(qs, 2) <= |qs|
  {
    CountsPartition(qs);
  }

  /** Changing one question's answer moves one unit from the old answer's
      count to the new one's. */
  lemma {:induction false} CountUpdate(qs: seq<SurveyQuestion>, index: nat, answer: int, a: int)
    requires index < |qs|
    ensures Count(qs[index := qs[index].(selectedAnswer := answer)], a) ==
            Count(qs, a) - (if qs[index].selectedAnswer == a then 1 else 0) + (if answer == a then 1 else 0)
  {
    var q := qs[index].(selectedAnswer := answer);
    if index > 0 {
      CountUpdate(qs[1..], index - 1, answer, a);
      assert qs[index := q][1..] == qs[1..][index - 1 := q];
    } else {
      assert qs[index := q][1..] == qs[1..];
    }
  }

  datatype Recommendation = Good | Medium | Bad

  function Max(a: int, b: int): int { if a >= b then a else b }

  /** The `when` that picks the recommendation: good wins every tie, medium
      wins a tie with bad, and bad only wins outright. */
  function Recommend(good: int, medium: int, bad: int): (r: Recommendation)
    ensures r == Good <==> good >= medium && good >= bad
    ensures r == Medium <==> medium > good && medium >= bad
    ensures r == Bad <==> bad > good && bad > medium
  {
    if good >= Max(medium, bad) then Good
    else if medium >= Max(good, bad) then Medium
    else Bad
  }

  /** The advice shown with the results.  The winning answer holds at least
      a third of the answers counted (the bad one strictly more), and a
      survey answered all with the first option gets the good advice. */
  function Result(qs: seq<SurveyQuestion>): (r: Recommendation)
    ensures r == Good ==> 3 * Count(qs, 0) >= |qs| - CountOthers(qs)
    ensures r == Medium ==> 3 * Count(qs, 1) >= |qs| - CountOthers(qs)
    ensures r == Bad ==> 3 * Count(qs, 2) > |qs| - CountOthers(qs)
    ensures (forall i :: 0 <= i < |qs| ==> qs[i].selectedAnswer == 0) ==> r == Good
  {
    CountsPartition(qs);
    Recommend(Count(qs, 0), Count(qs, 1), Count(qs, 2))
  }

  /** When every answer is the first option, the advice is the good one;
      only the third option can ever bring the bad one. */
  lemma ResultBadNeedsThirdOptions(qs: seq<SurveyQuestion>)
    requires Result(qs) == Bad
    ensures Count(qs, 2) > 0 && Count(qs, 2) > Count(qs, 0)
  {
  }

  // ---------------------------------------------------------------------
  // The remembered state of the screen.
  // ---------------------------------------------------------------------

  class SurveyScreen {
    var questions: seq<SurveyQuestion>
    var showResults: bool

    /** The question texts and options never change; each answer is missing
        or one of the offered options; the results are shown only for a
        fully answered survey. */
    ghost predicate Valid()
      reads this
    {
      && SameQuestions(questions, InitialQuestions())
      && (forall i :: 0 <= i < |questions| ==> AnswerInRange(questions[i]))
      && (showResults ==> AllAnswered(questions))
    }

    constructor ()
      ensures Valid() && questions == InitialQuestions() && !showResults
    {
      questions := InitialQuestions();
      showResults := false;
    }

    /** A radio button of question `index`: only that question's answer
        changes.  The question cards are shown only while the results are
        hidden, and a card offers one button per option. */
    method SelectAnswer(index: nat, answer: int)
      requires Valid() && !showResults
      requires index < |questions| && 0 <= answer < |questions[index].options|
      modifies this
      ensures Valid() && !showResults
      ensures questions == old(questions)[index := old(questions)[index].(selectedAnswer := answer)]
    {
      var updated := questions;
      updated := updated[index := questions[index].(selectedAnswer := answer)];
      questions := updated;
    }

    /** The results button, offered only once every question has an answer. */
    method ViewResults()
      requires Valid() && !showResults && AllAnswered(questions)
      modifies this
      ensures Valid() && showResults && questions == old(questions)
    {
      showResults := true;
    }

    /** The retake button under the results: every answer is cleared, which
        brings the survey back to exactly its initial list. */
    method Retake()
      requires Valid() && showResults
      modifies this
      ensures Valid() && !showResults
      ensures forall i :: 0 <= i < |questions| ==> questions[i].selectedAnswer == Unanswered
      ensures SameQuestions(questions, old(questions))
      ensures questions == InitialQuestions()
    {
      ClearedIsInitial(questions);
      questions := Cleared(questions);
      showResults := false;
    }
  }
}
