/**
 * The rock-paper-scissors session: five rounds against a random CPU hand,
 * a capped score, and in challenge mode a timed bonus question after each
 * round, drawn from the module's questions by a cursor that stops at the
 * last one.
 */
module RpsGame {

  import opened Common

  const TOTAL_ROUNDS: int := 5
  const QUESTION_TIME: int := 10

  datatype Hand = Rock | Paper | Scissors

  datatype Outcome = Tie | Win | Lose

  /** The round rule of `playRound`: equal hands tie; rock beats scissors, paper beats rock, scissors beat paper. */
  function Decide(player: Hand, cpu: Hand): (o: Outcome)
    ensures o == Tie <==> player == cpu
    ensures o != Tie ==> (o == Win <==> (Index(player) - Index(cpu)) % 3 == 1)
  {
    if player == cpu then Tie
    else if (player == Rock && cpu == Scissors)
         || (player == Paper && cpu == Rock)
         || (player == Scissors && cpu == Paper) then Win
    else Lose
  }

  /** A hand's place in the cycle rock, paper, scissors. */
  function Index(h: Hand): (i: int)
    ensures 0 <= i < 3
  {
    match h
    case Rock => 0
    case Paper => 1
    case Scissors => 2
  }

  /**
   * The rule is cyclic dominance: a hand wins exactly against the hand one
   * step before it in the cycle, loses against the one after it, and ties
   * with itself.
   */
  lemma DecideIsCyclic(player: Hand, cpu: Hand)
    ensures Decide(player, cpu) == Tie <==> (Index(player) - Index(cpu)) % 3 == 0
    ensures Decide(player, cpu) == Win <==> (Index(player) - Index(cpu)) % 3 == 1
    ensures Decide(player, cpu) == Lose <==> (Index(player) - Index(cpu)) % 3 == 2
  {
  }

  /** The outcome as the other side sees it. */
  function Flip(o: Outcome): Outcome
  {
    match o
    case Tie => Tie
    case Win => Lose
    case Lose => Win
  }

  /** Swapping the player and the CPU swaps win and lose. */
  lemma DecideAntisymmetric(player: Hand, cpu: Hand)
    ensures Decide(cpu, player) == Flip(Decide(player, cpu))
  {
  }

  /** Each hand beats exactly one hand and loses to exactly one. */
  lemma EachHandBeatsOne(h: Hand)
    ensures exists v :: Decide(h, v) == Win
    ensures exists v :: Decide(h, v) == Lose
    ensures forall v, w :: Decide(h, v) == Win && Decide(h, w) == Win ==> v == w
    ensures forall v, w :: Decide(h, v) == Lose && Decide(h, w) == Lose ==> v == w
  {
    match h
    case Rock => assert Decide(h, Scissors) == Win && Decide(h, Paper) == Lose;
    case Paper => assert Decide(h, Rock) == Win && Decide(h, Scissors) == Lose;
    case Scissors => assert Decide(h, Paper) == Win && Decide(h, Rock) == Lose;
  }

  /** `Array.isArray(questions) ? questions.length : 0`; a missing list defaults to []. */
  function TotalQuestions(questions: Option<seq<Question>>): (n: nat)
    ensures questions.Some? ==> n == |questions.value|
    ensures questions.None? ==> n == 0
  {
    if questions.Some? then |questions.value| else 0
  }

  /** `MAX_SCORE = TOTAL_ROUNDS + TOTAL_QUESTIONS`: one point per round and per question. */
  function MaxScore(questions: Option<seq<Question>>): (m: int)
    ensures m >= TOTAL_ROUNDS
  {
    TOTAL_ROUNDS + TotalQuestions(questions)
  }

  /** `Math.min(s + 1, MAX_SCORE)`: one point more, never above the maximum. */
  function AddPoint(s: int, maxScore: int): (r: int)
    requires 0 <= s <= maxScore
    ensures s <= r <= maxScore
    ensures r == s + 1 <==> s < maxScore
  {
    Min(s + 1, maxScore)
  }

  /**
   * The bonus-question cursor after an answer:
   * `if (currentQuestion < TOTAL_QUESTIONS - 1) currentQuestion + 1`.
   */
  function NextCursor(cursor: int, total: nat): (r: int)
    ensures 0 <= cursor < total ==> 0 <= r < total
    ensures r == cursor || r == cursor + 1
  {
    if cursor < total - 1 then cursor + 1 else cursor
  }

  /** The cursor after `answered` answers, starting from 0. */
  function CursorAfter(answered: nat, total: nat): int
  {
    if answered == 0 then 0 else NextCursor(CursorAfter(answered - 1, total), total)
  }

  /**
   * After k answers the cursor is at min(k, TOTAL_QUESTIONS - 1): each
   * question is asked once in order, then the last one again and again.
   */
  lemma {:induction false} CursorAfterAnswers(answered: nat, total: nat)
    requires total > 0
    ensures CursorAfter(answered, total) == Min(answered, total - 1)
  {
    if answered > 0 {
      CursorAfterAnswers(answered - 1, total);
    }
  }

  datatype Mode = Menu | Classic | Challenge

  /** The `game_name` the result screen gets: only classic mode is "RPS Classic". */
  function GameName(mode: Mode): (name: string)
    ensures name == "RPS Classic" <==> mode == Classic
    ensures name != "RPS Classic" ==> name == "RPS Challenge"
  {
    if mode == Classic then "RPS Classic" else "RPS Challenge"
  }

  class RpsSession {
    /** The `questions` route parameter; None when it is not an array. */
    const questions: Option<seq<Question>>
    var mode: Mode
    var round: int
    var playerChoice: Option<Hand>
    var cpuChoice: Option<Hand>
    /** The result text; None for "". */
    var result: Option<Outcome>
    var score: int
    var showQuestion: bool
    var currentQuestion: int
    var timeLeft: int
    /** The 600 ms timeout that opens the bonus question is pending. */
    var questionPending: bool
    var showInstructions: bool
    var showHint: bool
    /** The session has handed its result on (`navigation.replace`) and is gone. */
    var finished: bool

    ghost predicate Valid()
      reads this
    {
      && 1 <= round <= TOTAL_ROUNDS
      && 0 <= score <= MaxScore(questions)
      && 0 <= timeLeft <= QUESTION_TIME
      && 0 <= currentQuestion
      && (TotalQuestions(questions) > 0 ==> currentQuestion < TotalQuestions(questions))
      && (TotalQuestions(questions) == 0 ==> currentQuestion == 0)
      && (playerChoice.Some? <==> cpuChoice.Some?)
      && (playerChoice.Some? <==> result.Some?)
      && (result.Some? ==> result.value == Decide(playerChoice.value, cpuChoice.value))
      && (mode == Menu ==> round == 1 && score == 0 && playerChoice.None? && currentQuestion == 0)
      && (mode != Challenge ==> !showQuestion && !questionPending)
      && (showQuestion || questionPending ==> playerChoice.Some? && TotalQuestions(questions) > 0)
      && !(showQuestion && questionPending)
    }

    /** The per-game state `resetGame` sets. */
    ghost predicate FreshGame()
      reads this
    {
      && round == 1 && score == 0 && playerChoice.None? && cpuChoice.None? && result.None?
      && !showQuestion && currentQuestion == 0 && timeLeft == QUESTION_TIME
    }

    constructor (questions: Option<seq<Question>>)
      ensures Valid() && FreshGame()
      ensures this.questions == questions && mode == Menu && !questionPending
      ensures showInstructions && !showHint && !finished
    {
      this.questions := questions;
      mode := Menu;
      round := 1;
      playerChoice := None;
      cpuChoice := None;
      result := None;
      score := 0;
      showQuestion := false;
      currentQuestion := 0;
      timeLeft := QUESTION_TIME;
      questionPending := false;
      showInstructions := true;
      showHint := false;
      finished := false;
    }

    /** A menu button: pick the mode, show the instructions, and the mode effect resets the game. */
    method ChooseMode(m: Mode)
      requires Valid()
      modifies this`mode, this`showInstructions, this`round, this`score, this`playerChoice,
        this`cpuChoice, this`result, this`showQuestion, this`currentQuestion, this`timeLeft
      ensures Valid()
      ensures old(mode) == Menu && m != Menu ==>
        mode == m && showInstructions && FreshGame() && !questionPending
      ensures !(old(mode) == Menu && m != Menu) ==> unchanged(this)
    {
      if mode != Menu || m == Menu {
        return;
      }
      mode := m;
      showInstructions := true;
      round := 1;
      score := 0;
      playerChoice := None;
      cpuChoice := None;
      result := None;
      showQuestion := false;
      currentQuestion := 0;
      timeLeft := QUESTION_TIME;
    }

    /** "Start" on the instructions modal. */
    method DismissInstructions()
      modifies this`showInstructions
      ensures !showInstructions
    {
      showInstructions := false;
    }

    /** The bulb button and the hint modal's "Got it". */
    method SetHint(open: bool)
      modifies this`showHint
      ensures showHint == open
    {
      showHint := open;
    }

    /**
     * `nextRound`: below the last round, the next round starts with the
     * hands and result cleared; after the last, the result goes to the
     * result screen. `reported` is the score `finishGame` reads: the value
     * of the render the calling handler belongs to.
     */
    method NextRound(reported: int) returns (fin: Option<Finalize>)
      requires Valid() && mode != Menu && !finished && !showQuestion && !questionPending
      modifies this`round, this`playerChoice, this`cpuChoice, this`result, this`finished
      ensures Valid()
      ensures old(round) < TOTAL_ROUNDS ==>
        && round == old(round) + 1 && playerChoice.None? && cpuChoice.None? && result.None?
        && fin.None? && !finished
      ensures old(round) == TOTAL_ROUNDS ==>
        && fin == Some(Finalize(reported, MaxScore(questions), GameName(mode))) && finished
        && round == old(round) && playerChoice == old(playerChoice) && cpuChoice == old(cpuChoice)
        && result == old(result)
    {
      if round < TOTAL_ROUNDS {
        round := round + 1;
        playerChoice := None;
        cpuChoice := None;
        result := None;
        fin := None;
      } else {
        fin := Some(Finalize(reported, MaxScore(questions), GameName(mode)));
        finished := true;
      }
    }

    /**
     * `playRound` with the hand the player chose and the hand `Math.random`
     * gave the CPU. The buttons are disabled once a hand is played, so a
     * round is played at most once. A win adds a point up to the maximum;
     * a tie or a loss leaves the score alone. In challenge mode, with
     * questions and the cursor in range, the bonus question is scheduled;
     * otherwise the round advances at once. A game ending here reports the
     * score from before this round's point.
     */
    method PlayRound(choice: Hand, cpu: Hand) returns (fin: Option<Finalize>)
      requires Valid()
      modifies this`round, this`playerChoice, this`cpuChoice, this`result, this`score,
        this`questionPending, this`finished
      ensures Valid()
      ensures fin.Some? ==> 0 <= fin.value.correct <= fin.value.total == MaxScore(questions)
      ensures
        var enabled := mode != Menu && !old(finished) && !showInstructions && !showHint
                       && old(playerChoice).None? && !old(questionPending) && !showQuestion;
        var outcome := Decide(choice, cpu);
        var bonus := mode == Challenge && TotalQuestions(questions) > 0
                     && currentQuestion < TotalQuestions(questions);
        && (!enabled ==> fin.None? && unchanged(this))
        && (enabled ==> score == if outcome == Win then AddPoint(old(score), MaxScore(questions)) else old(score))
        && (enabled && bonus ==>
              && questionPending && fin.None? && round == old(round) && !finished
              && playerChoice == Some(choice) && cpuChoice == Some(cpu) && result == Some(outcome))
        && (enabled && !bonus && old(round) < TOTAL_ROUNDS ==>
              && round == old(round) + 1 && playerChoice.None? && cpuChoice.None? && result.None?
              && fin.None? && !questionPending && !finished)
        && (enabled && !bonus && old(round) == TOTAL_ROUNDS ==>
              && fin == Some(Finalize(old(score), MaxScore(questions), GameName(mode))) && finished
              && round == old(round) && !questionPending
              && playerChoice == Some(choice) && cpuChoice == Some(cpu) && result == Some(outcome))
    {
      fin := None;
      if mode == Menu || finished || showInstructions || showHint || playerChoice.Some?
        || questionPending || showQuestion
      {
        return;
      }
      var before := score;
      RecordPlay(choice, cpu);
      if mode == Challenge && TotalQuestions(questions) > 0 && currentQuestion < TotalQuestions(questions) {
        questionPending := true;
      } else {
        assert 0 <= before <= MaxScore(questions);
        fin := NextRound(before);
      }
    }

    /** The first half of `playRound`: both hands, the result, and a point for a win. */
    method RecordPlay(choice: Hand, cpu: Hand)
      requires Valid() && mode != Menu && playerChoice.None? && !showQuestion && !questionPending
      modifies this`playerChoice, this`cpuChoice, this`result, this`score
      ensures Valid()
      ensures playerChoice == Some(choice) && cpuChoice == Some(cpu) && result == Some(Decide(choice, cpu))
      ensures score == if Decide(choice, cpu) == Win then AddPoint(old(score), MaxScore(questions)) else old(score)
    {
      playerChoice := Some(choice);
      cpuChoice := Some(cpu);
      result := Some(Decide(choice, cpu));
      if Decide(choice, cpu) == Win {
        score := AddPoint(score, MaxScore(questions));
      }
    }

    /** The 600 ms timeout: the bonus question opens with a full countdown. */
    method QuestionDelayElapsed()
      requires Valid()
      modifies this`showQuestion, this`timeLeft, this`questionPending
      ensures Valid()
      ensures old(questionPending) && !finished ==> showQuestion && timeLeft == QUESTION_TIME && !questionPending
      ensures !(old(questionPending) && !finished) ==>
        showQuestion == old(showQuestion) && timeLeft == old(timeLeft) && questionPending == old(questionPending)
    {
      if questionPending && !finished {
        showQuestion := true;
        timeLeft := QUESTION_TIME;
        questionPending := false;
      }
    }

    /**
     * One pass of the question timer: idle while no question is shown; at
     * zero the question closes and the round advances, with the score and
     * the question cursor untouched; otherwise one second passes.
     */
    method TimerStep() returns (fin: Option<Finalize>)
      requires Valid()
      modifies this`round, this`playerChoice, this`cpuChoice, this`result, this`finished,
        this`showQuestion, this`timeLeft
      ensures Valid()
      ensures fin.Some? ==> 0 <= fin.value.correct <= fin.value.total == MaxScore(questions)
      ensures !old(showQuestion) || old(finished) ==> fin.None? && unchanged(this)
      ensures old(showQuestion) && !old(finished) && old(timeLeft) > 0 ==>
        && fin.None? && showQuestion && timeLeft == old(timeLeft) - 1 && !finished
        && round == old(round) && playerChoice == old(playerChoice) && cpuChoice == old(cpuChoice)
        && result == old(result)
      ensures old(showQuestion) && !old(finished) && old(timeLeft) == 0 ==>
        && !showQuestion && timeLeft == old(timeLeft)
        && (old(round) < TOTAL_ROUNDS ==>
              && round == old(round) + 1 && playerChoice.None? && cpuChoice.None? && result.None?
              && fin.None? && !finished)
        && (old(round) == TOTAL_ROUNDS ==>
              && fin == Some(Finalize(score, MaxScore(questions), GameName(mode))) && finished
              && round == old(round) && playerChoice == old(playerChoice) && cpuChoice == old(cpuChoice)
              && result == old(result))
    {
      if !showQuestion || finished {
        return None;
      }
      if timeLeft == 0 {
        showQuestion := false;
        fin := NextRound(score);
      } else {
        timeLeft := timeLeft - 1;
        fin := None;
      }
    }

    /**
     * `answerQuestion` from the button of `key` on the question modal. With
     * no question at the cursor it does nothing. A correct answer adds a
     * point up to the maximum; the question closes; the cursor moves on
     * only while it is before the last question, so the last question is
     * asked again; the round advances. A game ending here reports the score
     * from before this answer's point.
     */
    method AnswerQuestion(key: ChoiceKey) returns (fin: Option<Finalize>)
      requires Valid()
      modifies this`round, this`playerChoice, this`cpuChoice, this`result, this`finished,
        this`showQuestion, this`score, this`currentQuestion
      ensures Valid()
      ensures fin.Some? ==> 0 <= fin.value.correct <= fin.value.total == MaxScore(questions)
      ensures
        var enabled := !old(finished) && old(showQuestion) && questions.Some?
                       && old(currentQuestion) < |questions.value|;
        && (!enabled ==> fin.None? && unchanged(this))
        && (enabled ==>
              var q := questions.value[old(currentQuestion)];
              && !showQuestion
              && score == (if q.Choice(key) == q.correctAnswer then AddPoint(old(score), MaxScore(questions))
                           else old(score))
              && currentQuestion == NextCursor(old(currentQuestion), TotalQuestions(questions))
              && (old(round) < TOTAL_ROUNDS ==>
                    && round == old(round) + 1 && playerChoice.None? && cpuChoice.None? && result.None?
                    && fin.None? && !finished)
              && (old(round) == TOTAL_ROUNDS ==>
                    && fin == Some(Finalize(old(score), MaxScore(questions), GameName(mode))) && finished
                    && round == old(round) && playerChoice == old(playerChoice)
                    && cpuChoice == old(cpuChoice) && result == old(result)))
    {
      if finished || !showQuestion || questions.None? || currentQuestion >= |questions.value| {
        return None;
      }
      var before := score;
      var q := questions.value[currentQuestion];
      if q.Choice(key) == q.correctAnswer {
        score := AddPoint(score, MaxScore(questions));
      }
      showQuestion := false;
      currentQuestion := NextCursor(currentQuestion, TotalQuestions(questions));
      fin := NextRound(before);
    }
  }
}
