/**
 * The quiz session: one question at a time with a ten-second countdown, one
 * answer per question, a once-per-question hint that removes up to two wrong
 * choices, and a final result handed to the result screen.
 */
module QuizGame {

  import opened Common

  const TIME_LIMIT: int := 10
  const GAME_NAME: string := "Quiz Game"

  /**
   * The list the quiz runs on: `data.questions` when it is a non-empty
   * array; a missing, non-array or empty list, or a failed request, gives
   * the empty list (the "No questions available" state).
   */
  function NormalizeQuestions(payload: QuestionsPayload): (qs: seq<Question>)
    ensures |qs| > 0 <==> payload.QuestionList? && |payload.items| > 0
    ensures |qs| > 0 ==> qs == payload.items
  {
    if payload.QuestionList? && |payload.items| > 0 then payload.items else []
  }

  /** `current[key] !== current.correct_answer`. */
  function IsWrong(q: Question, key: ChoiceKey): (wrong: bool)
    ensures wrong <==> q.Choice(key) != q.correctAnswer
  {
    q.Choice(key) != q.correctAnswer
  }

  /** `keys.filter(key => current[key] !== current.correct_answer)`. */
  function FilterWrong(keys: seq<ChoiceKey>, q: Question): (r: seq<ChoiceKey>)
    ensures |r| <= |keys|
    ensures forall k :: k in r <==> k in keys && IsWrong(q, k)
    ensures Distinct(keys) ==> Distinct(r)
  {
    if keys == [] then []
    else
      var rest := FilterWrong(keys[1..], q);
      assert forall k :: k in keys <==> k == keys[0] || k in keys[1..];
      if IsWrong(q, keys[0]) then
        assert Distinct(keys) ==> keys[0] !in keys[1..] && Distinct(keys[1..]);
        [keys[0]] + rest
      else
        assert Distinct(keys) ==> Distinct(keys[1..]);
        rest
  }

  /** The wrong choice keys of a question, in the order A, B, C, D. */
  function WrongKeys(q: Question): (r: seq<ChoiceKey>)
    ensures forall k :: k in r <==> IsWrong(q, k)
    ensures Distinct(r) && |r| <= 4
  {
    FilterWrong(AllKeys, q)
  }

  /**
   * The keys the hint removes: the first two of the shuffled wrong keys
   * (`shuffled.slice(0, 2)`), `order` being the shuffle `Math.random` chose.
   * Only wrong keys go, none twice, and exactly min(2, number of wrong keys)
   * of them.
   */
  function HintPick(q: Question, order: seq<ChoiceKey>): (r: seq<ChoiceKey>)
    requires multiset(order) == multiset(WrongKeys(q))
    ensures forall k :: k in r ==> IsWrong(q, k)
    ensures |r| == Min(2, |WrongKeys(q)|)
    ensures Distinct(r)
    ensures r <= order
  {
    DistinctPermutation(order, WrongKeys(q));
    assert |order| == |multiset(order)| == |WrongKeys(q)|;
    var r := order[..Min(2, |order|)];
    assert forall k :: k in r ==> k in order && k in multiset(WrongKeys(q));
    assert Distinct(r) by {
      forall i, j | 0 <= i < j < |r| ensures r[i] != r[j] {
        assert r[i] == order[i] && r[j] == order[j];
      }
    }
    r
  }

  /**
   * The choice keys drawn as buttons: the eliminated ones are drawn as
   * placeholders instead.
   */
  function SelectableKeys(eliminated: seq<ChoiceKey>): (r: seq<ChoiceKey>)
    ensures forall k :: k in r <==> k !in eliminated
  {
    forall k: ChoiceKey ensures k in AllKeys {
      KeyListed(k);
    }
    FilterOut(AllKeys, eliminated)
  }

  /** Every key is one of the four the screen lists. */
  lemma KeyListed(k: ChoiceKey)
    ensures k in AllKeys
  {
    if k == ChoiceA { assert AllKeys[0] == k; }
    else if k == ChoiceB { assert AllKeys[1] == k; }
    else if k == ChoiceC { assert AllKeys[2] == k; }
    else { assert AllKeys[3] == k; }
  }

  function FilterOut(keys: seq<ChoiceKey>, eliminated: seq<ChoiceKey>): (r: seq<ChoiceKey>)
    ensures forall k :: k in r <==> k in keys && k !in eliminated
  {
    if keys == [] then []
    else
      assert forall k :: k in keys <==> k == keys[0] || k in keys[1..];
      (if keys[0] in eliminated then [] else [keys[0]]) + FilterOut(keys[1..], eliminated)
  }

  /**
   * Whatever shuffle the hint uses, every key holding the correct answer
   * stays selectable, and at least one choice stays selectable.
   */
  lemma HintKeepsCorrectChoice(q: Question, order: seq<ChoiceKey>)
    requires multiset(order) == multiset(WrongKeys(q))
    ensures forall k :: !IsWrong(q, k) ==> k in SelectableKeys(HintPick(q, order))
    ensures |SelectableKeys(HintPick(q, order))| >= 1
  {
    var gone := HintPick(q, order);
    ThreeNotInTwo(gone);
    var k := if ChoiceA !in gone then ChoiceA else if ChoiceB !in gone then ChoiceB else ChoiceC;
    assert k in SelectableKeys(gone);
  }

  /** A list of at most two keys misses one of A, B and C. */
  lemma ThreeNotInTwo(s: seq<ChoiceKey>)
    requires |s| <= 2
    ensures ChoiceA !in s || ChoiceB !in s || ChoiceC !in s
  {
    if |s| == 2 {
      assert s == [s[0], s[1]];
    } else if |s| == 1 {
      assert s == [s[0]];
    }
  }

  class QuizSession {
    /** None while loading; then the normalised list. */
    var questions: Option<seq<Question>>
    var index: int
    var correctCount: int
    /** The answer value last chosen (`selected`). */
    var selected: Option<string>
    var showAnswer: bool
    var timeLeft: int
    var showInstructions: bool
    var showHint: bool
    var hintUsed: bool
    var eliminated: seq<ChoiceKey>
    /** The session has handed its result on (`navigation.replace`) and is gone. */
    var finished: bool

    /** A non-empty question list has arrived: the quiz itself is on screen. */
    predicate Loaded()
      reads this
    {
      questions.Some? && |questions.value| > 0
    }

    /** The per-question state as a new question starts. */
    ghost predicate FreshQuestion()
      reads this
    {
      selected.None? && !showAnswer && timeLeft == TIME_LIMIT && !hintUsed && eliminated == []
    }

    ghost predicate Valid()
      reads this
    {
      && 0 <= correctCount && 0 <= timeLeft <= TIME_LIMIT
      && (!Loaded() ==>
            index == 0 && correctCount == 0 && FreshQuestion()
            && showInstructions && !showHint && !finished)
      && (Loaded() ==>
            && 0 <= index < |questions.value|
            && correctCount <= index + (if showAnswer then 1 else 0)
            && (selected.Some? <==> showAnswer)
            && (!hintUsed ==> eliminated == [])
            && Distinct(eliminated) && |eliminated| <= 2
            && (forall k :: k in eliminated ==> IsWrong(questions.value[index], k)))
    }

    constructor ()
      ensures Valid() && questions.None? && !finished
    {
      questions := None;
      index := 0;
      correctCount := 0;
      selected := None;
      showAnswer := false;
      timeLeft := TIME_LIMIT;
      showInstructions := true;
      showHint := false;
      hintUsed := false;
      eliminated := [];
      finished := false;
    }

    /** The question on screen. */
    function Current(): Question
      reads this
      requires Valid() && Loaded()
    {
      questions.value[index]
    }

    /** The fetch effect, run once on mount. */
    method Load(payload: QuestionsPayload)
      requires Valid() && questions.None?
      modifies this`questions
      ensures Valid()
      ensures questions == Some(NormalizeQuestions(payload))
    {
      questions := Some(NormalizeQuestions(payload));
    }

    /** "Let's Go!" on the instructions modal, shown over a loaded quiz. */
    method DismissInstructions()
      requires Valid()
      modifies this`showInstructions
      ensures Valid()
      ensures showInstructions == (old(showInstructions) && !(Loaded() && !finished))
    {
      if Loaded() && !finished {
        showInstructions := false;
      }
    }

    /**
     * `nextQuestion`: below the last question, move on and reset the
     * per-question state; on the last, hand on `{correct, total}`.
     */
    method NextQuestion() returns (fin: Option<Finalize>)
      requires Valid() && Loaded() && !finished
      modifies this`index, this`selected, this`showAnswer, this`timeLeft, this`hintUsed,
        this`eliminated, this`finished
      ensures Valid()
      ensures old(index) < |questions.value| - 1 ==>
        index == old(index) + 1 && FreshQuestion() && fin.None? && !finished
      ensures old(index) == |questions.value| - 1 ==>
        && fin == Some(Finalize(correctCount, |questions.value|, GAME_NAME))
        && finished && index == old(index) && showAnswer == old(showAnswer)
        && selected == old(selected) && timeLeft == old(timeLeft)
        && hintUsed == old(hintUsed) && eliminated == old(eliminated)
    {
      if index < |questions.value| - 1 {
        index := index + 1;
        selected := None;
        showAnswer := false;
        timeLeft := TIME_LIMIT;
        hintUsed := false;
        eliminated := [];
        fin := None;
      } else {
        fin := Some(Finalize(correctCount, |questions.value|, GAME_NAME));
        finished := true;
      }
    }

    /**
     * One pass of the timer effect: idle while the instructions are shown,
     * the answer is revealed or the questions are loading; at zero it moves
     * on with no credit; otherwise one second passes. The hint modal does
     * not stop it. The score, the questions and the modals never change.
     */
    method TimerStep() returns (fin: Option<Finalize>)
      requires Valid()
      modifies this`index, this`selected, this`showAnswer, this`timeLeft, this`hintUsed,
        this`eliminated, this`finished
      ensures Valid()
      ensures fin.Some? ==>
        questions.Some? && 0 <= fin.value.correct <= fin.value.total && fin.value.total == |questions.value|
      ensures old(finished) || old(showInstructions) || old(showAnswer) || old(questions).None? ==>
        fin.None? && unchanged(this)
      ensures !old(finished) && !old(showInstructions) && !old(showAnswer) && old(questions).Some? ==>
        && (old(timeLeft) > 0 ==>
              && fin.None? && timeLeft == old(timeLeft) - 1 && !finished
              && index == old(index) && selected == old(selected) && showAnswer == old(showAnswer)
              && hintUsed == old(hintUsed) && eliminated == old(eliminated))
        && (old(timeLeft) == 0 && old(index) < |questions.value| - 1 ==>
              index == old(index) + 1 && FreshQuestion() && fin.None? && !finished)
        && (old(timeLeft) == 0 && old(index) == |questions.value| - 1 ==>
              && fin == Some(Finalize(correctCount, |questions.value|, GAME_NAME)) && finished
              && index == old(index) && selected == old(selected) && showAnswer == old(showAnswer)
              && timeLeft == old(timeLeft) && hintUsed == old(hintUsed) && eliminated == old(eliminated))
    {
      if finished || showInstructions || showAnswer || questions.None? {
        return None;
      }
      if timeLeft == 0 {
        fin := NextQuestion();
      } else {
        timeLeft := timeLeft - 1;
        fin := None;
      }
    }

    /**
     * `selectAnswer` from the option button of `key`: reveal the answer and
     * count it exactly when the chosen value equals the correct answer. The
     * buttons are disabled once the answer is revealed, eliminated keys have
     * no button, and the modals cover them.
     */
    method SelectOption(key: ChoiceKey)
      requires Valid()
      modifies this`selected, this`showAnswer, this`correctCount
      ensures Valid()
      ensures
        var enabled := Loaded() && !finished && !showInstructions && !showHint && !old(showAnswer) && key !in eliminated;
        && (enabled ==>
              showAnswer && selected == Some(Current().Choice(key))
              && correctCount == old(correctCount) + (if Current().Choice(key) == Current().correctAnswer then 1 else 0))
        && (!enabled ==>
              showAnswer == old(showAnswer) && selected == old(selected) && correctCount == old(correctCount))
    {
      if !Loaded() || finished || showInstructions || showHint || showAnswer || key in eliminated {
        return;
      }
      var answer := questions.value[index].Choice(key);
      selected := Some(answer);
      showAnswer := true;
      if answer == questions.value[index].correctAnswer {
        correctCount := correctCount + 1;
      }
    }

    /**
     * The "Next Question" / "See Results" button, shown once the answer is
     * revealed; the modals cover it. The score and the modals never change.
     */
    method PressNext() returns (fin: Option<Finalize>)
      requires Valid()
      modifies this`index, this`selected, this`showAnswer, this`timeLeft, this`hintUsed,
        this`eliminated, this`finished
      ensures Valid()
      ensures fin.Some? ==>
        questions.Some? && 0 <= fin.value.correct <= fin.value.total && fin.value.total == |questions.value|
      ensures
        var enabled := Loaded() && !old(finished) && !showInstructions && !showHint && old(showAnswer);
        && (!enabled ==> fin.None? && unchanged(this))
        && (enabled && old(index) < |questions.value| - 1 ==>
              index == old(index) + 1 && FreshQuestion() && fin.None? && !finished)
        && (enabled && old(index) == |questions.value| - 1 ==>
              && fin == Some(Finalize(correctCount, |questions.value|, GAME_NAME)) && finished
              && index == old(index) && selected == old(selected) && showAnswer == old(showAnswer)
              && timeLeft == old(timeLeft) && hintUsed == old(hintUsed) && eliminated == old(eliminated))
    {
      if !Loaded() || finished || showInstructions || showHint || !showAnswer {
        return None;
      }
      fin := NextQuestion();
    }

    /** The bulb button; disabled once the hint was used for this question. */
    method OpenHint()
      requires Valid()
      modifies this`showHint
      ensures Valid()
      ensures showHint == (old(showHint) || (Loaded() && !finished && !showInstructions && !hintUsed))
    {
      if Loaded() && !finished && !showInstructions && !hintUsed {
        showHint := true;
      }
    }

    /** "Cancel" on the hint modal. */
    method CancelHint()
      requires Valid()
      modifies this`showHint
      ensures Valid() && !showHint
    {
      showHint := false;
    }

    /**
     * `useHint` from the "Use Hint" button of the open hint modal, with
     * `order` the shuffle of the current question's wrong keys: remove the
     * first two of them, mark the hint used and close the modal. Once the
     * hint is used it does nothing.
     */
    method UseHint(order: seq<ChoiceKey>)
      requires Valid()
      requires Loaded() ==> multiset(order) == multiset(WrongKeys(Current()))
      modifies this`eliminated, this`hintUsed, this`showHint
      ensures Valid()
      ensures
        var enabled := old(showHint) && !old(hintUsed) && Loaded() && !finished;
        && (!enabled ==> unchanged(this))
        && (enabled ==> eliminated == HintPick(Current(), order) && hintUsed && !showHint)
    {
      if !showHint || hintUsed || !Loaded() || finished {
        return;
      }
      eliminated := HintPick(questions.value[index], order);
      hintUsed := true;
      showHint := false;
    }
  }
}
