/**
 * The result screen every game ends on: it normalises the reported score,
 * shows a rounded percentage, submits the score once, adds the XP the
 * server grants to the stored user record, and offers a retry.
 */
module FinalResult {

  import opened Common

  /**
   * The route parameters as the screen receives them. A count is None when
   * it is missing or not a number (`Number(x)` is NaN).
   */
  datatype ResultParams = ResultParams(correct: Option<int>, total: Option<int>, gameName: string)

  /** The route parameters a finished game passes. */
  function ParamsOf(f: Finalize): ResultParams
  {
    ResultParams(Some(f.correct), Some(f.total), f.gameName)
  }

  /** `Number(correct) || 0`. */
  function SafeCorrect(correct: Option<int>): (c: int)
    ensures correct.Some? ==> c == correct.value
    ensures correct.None? ==> c == 0
  {
    if correct.Some? then correct.value else 0
  }

  /**
   * `Number(total) || 1`: a missing, non-numeric or zero total reads as 1;
   * any other number, negative ones included, is kept.
   */
  function SafeTotal(total: Option<int>): (t: int)
    ensures t != 0
    ensures total.Some? && total.value != 0 ==> t == total.value
    ensures total.None? || total.value >= 0 ==> t >= 1
  {
    if total.Some? && total.value != 0 then total.value else 1
  }

  /** `Math.round(safeCorrect / safeTotal * 100)`. */
  function Percentage(p: ResultParams): (percent: int)
    ensures SafeTotal(p.total) > 0 ==>
      2 * 100 * SafeCorrect(p.correct) - SafeTotal(p.total)
        < 2 * SafeTotal(p.total) * percent
        <= 2 * 100 * SafeCorrect(p.correct) + SafeTotal(p.total)
  {
    RoundDiv(100 * SafeCorrect(p.correct), SafeTotal(p.total))
  }

  /**
   * A result whose correct count lies between 0 and its positive total shows
   * a percentage in [0, 100], and a full score shows exactly 100.
   */
  lemma PercentageOfFinalize(f: Finalize)
    requires 0 <= f.correct <= f.total && f.total >= 1
    ensures 0 <= Percentage(ParamsOf(f)) <= 100
    ensures f.correct == f.total ==> Percentage(ParamsOf(f)) == 100
  {
    PercentInRange(f.correct, f.total);
  }

  /** A result whose total is missing or zero is shown out of 1. */
  lemma MissingTotalReadsAsOne(p: ResultParams)
    requires p.total.None? || p.total == Some(0)
    ensures SafeTotal(p.total) == 1
    ensures Percentage(p) == 100 * SafeCorrect(p.correct)
  {
    RoundDivExact(100 * SafeCorrect(p.correct), 1);
    DivUnique(100 * SafeCorrect(p.correct), 1, 100 * SafeCorrect(p.correct), 0);
  }

  /** The reply of the save-score request. */
  datatype SaveReply =
    | Ok(xpEarned: Option<int>)   // `res.ok`, with `data.xp_earned`
    | NotOk                       // a non-2xx status
    | RequestFailed               // the request or the JSON parse threw

  /** The body the screen posts to the save-score endpoint (ids left out). */
  datatype SaveRequest = SaveRequest(gameName: string, correct: int, total: int)

  function OrZero(x: Option<int>): int
  {
    if x.Some? then x.value else 0
  }

  /**
   * `{ ...u, xp: (u.xp || 0) + (data.xp_earned || 0) }`: the XP total grows
   * by what the server granted and no other field changes.
   */
  function MergeXp(u: StoredUser, earned: Option<int>): (r: StoredUser)
    ensures r.xp.Some? && r.xp.value - OrZero(u.xp) == OrZero(earned)
    ensures r.(xp := u.xp) == u
  {
    u.(xp := Some(OrZero(u.xp) + OrZero(earned)))
  }

  /** Two merges add up: the XP is additive, never overwritten. */
  lemma MergeXpAdditive(u: StoredUser, e1: Option<int>, e2: Option<int>)
    ensures MergeXp(MergeXp(u, e1), e2) == MergeXp(u, Some(OrZero(e1) + OrZero(e2)))
  {
  }

  /** `game_name === "Quiz Game" ? "QuizGame" : "RPSGame"`: where Retry goes. */
  function RetryRoute(gameName: string): (route: string)
    ensures route == "QuizGame" <==> gameName == "Quiz Game"
    ensures route == "QuizGame" || route == "RPSGame"
  {
    if gameName == "Quiz Game" then "QuizGame" else "RPSGame"
  }

  class ResultScreen {
    const params: ResultParams
    var xpEarned: int
    var loading: bool
    /** The save-score effect has run; its dependency list is empty, so it runs once per mount. */
    var submitted: bool

    constructor (params: ResultParams)
      ensures this.params == params
      ensures xpEarned == 0 && loading && !submitted
    {
      this.params := params;
      xpEarned := 0;
      loading := true;
      submitted := false;
    }

    /**
     * `saveScore`: posts the normalised score and, on an ok reply, records
     * the granted XP and adds it to the stored user, if there is one. A
     * reply that is not ok, or a request that throws, changes neither. A
     * second run in the same mount does nothing.
     */
    method SaveScore(store: UserStore, reply: SaveReply) returns (request: Option<SaveRequest>)
      modifies this, store
      ensures old(submitted) ==>
        request.None? && xpEarned == old(xpEarned) && loading == old(loading) && store.user == old(store.user)
      ensures !old(submitted) ==>
        request == Some(SaveRequest(params.gameName, SafeCorrect(params.correct), SafeTotal(params.total)))
      ensures !old(submitted) ==> !loading
      ensures submitted
      ensures !old(submitted) && reply.Ok? ==> xpEarned == OrZero(reply.xpEarned)
      ensures !old(submitted) && reply.Ok? && old(store.user).Some? ==>
        store.user == Some(MergeXp(old(store.user).value, reply.xpEarned))
      ensures !old(submitted) && reply.Ok? && old(store.user).None? ==> store.user == None
      ensures !reply.Ok? ==> xpEarned == old(xpEarned) && store.user == old(store.user)
    {
      if submitted {
        return None;
      }
      submitted := true;
      request := Some(SaveRequest(params.gameName, SafeCorrect(params.correct), SafeTotal(params.total)));
      if reply.Ok? {
        xpEarned := OrZero(reply.xpEarned);
        if store.user.Some? {
          store.user := Some(MergeXp(store.user.value, reply.xpEarned));
        }
      }
      loading := false;
    }
  }
}
