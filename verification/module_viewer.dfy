/**
 * The module reader: four pages read one after another, a scroll position
 * within the page, the progress reports sent as pages are turned, the XP
 * reward for finishing the module, and the question load that unlocks the
 * games offered at the end.
 */
module ModuleViewer {

  import opened Common

  const TOTAL_PAGES: int := 4
  const XP_ON_COMPLETE: int := 30

  /** A request the reader sends to the server. */
  datatype Request =
    | SaveProgress(progress: int, completed: bool)   // POST /progress/save
    | AddXp(amount: int)                             // POST /students/{id}/add-xp

  /** The reply of the add-xp request: `data.ok` and `data.newXp`, or a failure. */
  datatype AddXpReply = AddXpReply(ok: bool, newXp: Option<int>) | AddXpFailed

  /** The game screens the end card can open. */
  datatype GameScreen = QuizGameScreen | RpsGameScreen

  /** `navigation.navigate(screen, { questions, … })`. */
  datatype GameLaunch = GameLaunch(screen: GameScreen, questions: seq<Question>)

  /**
   * `handleScroll`: when the content is taller than the view, the scroll
   * position as a rounded percentage clamped to [0, 100]; otherwise the
   * current value stays.
   */
  function ScrollPercent(offsetY: int, contentHeight: int, layoutHeight: int, current: int): (r: int)
    ensures contentHeight - layoutHeight <= 0 ==> r == current
    ensures contentHeight - layoutHeight > 0 ==> 0 <= r <= 100
    ensures contentHeight - layoutHeight > 0 && 0 <= offsetY <= contentHeight - layoutHeight ==>
      2 * 100 * offsetY - (contentHeight - layoutHeight)
        < 2 * (contentHeight - layoutHeight) * r
        <= 2 * 100 * offsetY + (contentHeight - layoutHeight)
  {
    var totalHeight := contentHeight - layoutHeight;
    if totalHeight > 0 then
      PercentInRange(offsetY, totalHeight);
      Clamp(0, 100, RoundDiv(100 * offsetY, totalHeight))
    else current
  }

  /** `Math.min(100, Math.round((pageNum - 1 + scrollPercent / 100) / TOTAL_PAGES * 100))`. */
  function EffectiveProgress(pageNum: int, scrollPercent: int): (p: int)
    ensures p <= 100
  {
    Min(100, RoundDiv(100 * (pageNum - 1) + scrollPercent, TOTAL_PAGES))
  }

  /**
   * On a page in range with a scroll position in range the progress lies in
   * [0, 100] without the `Math.min` clamp having to act, and it grows with
   * the page and with the scroll position.
   */
  lemma EffectiveProgressInRange(pageNum: int, scroll: int, pageNum': int, scroll': int)
    requires 1 <= pageNum <= TOTAL_PAGES && 0 <= scroll <= 100
    requires pageNum <= pageNum' <= TOTAL_PAGES && 0 <= scroll' <= 100
    requires pageNum == pageNum' ==> scroll <= scroll'
    ensures 0 <= EffectiveProgress(pageNum, scroll) <= 100
    ensures EffectiveProgress(pageNum, scroll) == RoundDiv(100 * (pageNum - 1) + scroll, TOTAL_PAGES)
    ensures EffectiveProgress(pageNum, scroll) <= EffectiveProgress(pageNum', scroll')
  {
    var n := 100 * (pageNum - 1) + scroll;
    var n' := 100 * (pageNum' - 1) + scroll';
    assert 0 <= n <= n' <= 400;
    RoundDivMonotone(0, n, TOTAL_PAGES);
    RoundDivMonotone(n, n', TOTAL_PAGES);
    RoundDivMonotone(n', 400, TOTAL_PAGES);
  }

  /** The progress saved on turning to page `next`: `Math.round(next / TOTAL_PAGES * 100)`. */
  function PageProgress(next: int): (progress: int)
    ensures progress == 25 * next
  {
    DivUnique(2 * (100 * next) + TOTAL_PAGES, 2 * TOTAL_PAGES, 25 * next, TOTAL_PAGES);
    RoundDiv(100 * next, TOTAL_PAGES)
  }

  /**
   * The add-xp reward as it reaches local storage: on `data.ok` with a
   * stored user, the XP total is REPLACED by the server's `newXp`; in every
   * other case storage is untouched.
   */
  function ApplyAddXp(stored: Option<StoredUser>, reply: AddXpReply): (r: Option<StoredUser>)
    ensures reply.AddXpReply? && reply.ok && stored.Some? ==>
      r.Some? && r.value.xp == reply.newXp && r.value.(xp := stored.value.xp) == stored.value
    ensures !(reply.AddXpReply? && reply.ok) || stored.None? ==> r == stored
  {
    if reply.AddXpReply? && reply.ok && stored.Some? then Some(stored.value.(xp := reply.newXp))
    else stored
  }

  /** The reward overwrites: the XP held before has no bearing on the XP after. */
  lemma AddXpOverwrites(u1: StoredUser, u2: StoredUser, newXp: Option<int>)
    requires u1.(xp := u2.xp) == u2
    ensures ApplyAddXp(Some(u1), AddXpReply(true, newXp)) == ApplyAddXp(Some(u2), AddXpReply(true, newXp))
  {
  }

  class Viewer {
    /** The stored user's id, read at mount; `!userId` also holds for id 0. */
    var userId: Option<int>
    var pageNum: int
    var scrollPercent: int
    var showEnd: bool
    var loadingQuestions: bool
    var loadedQuestions: seq<Question>

    ghost predicate Valid()
      reads this
    {
      1 <= pageNum <= TOTAL_PAGES && 0 <= scrollPercent <= 100
    }

    /** `!userId` is false: the requests that need a user are sent. */
    function HasUser(): (present: bool)
      reads this
      ensures userId.None? || userId == Some(0) ==> !present
      ensures userId.Some? && userId.value != 0 ==> present
    {
      userId.Some? && userId.value != 0
    }

    constructor (userId: Option<int>)
      ensures Valid()
      ensures this.userId == userId && pageNum == 1 && scrollPercent == 0
      ensures !showEnd && !loadingQuestions && loadedQuestions == []
    {
      this.userId := userId;
      pageNum := 1;
      scrollPercent := 0;
      showEnd := false;
      loadingQuestions := false;
      loadedQuestions := [];
    }

    /** The progress bar's value for the current page and scroll position. */
    function Progress(): (p: int)
      reads this
      requires Valid()
      ensures 0 <= p <= 100
    {
      EffectiveProgress(pageNum, scrollPercent)
    }

    method HandleScroll(offsetY: int, contentHeight: int, layoutHeight: int)
      requires Valid()
      modifies this`scrollPercent
      ensures Valid()
      ensures scrollPercent == ScrollPercent(offsetY, contentHeight, layoutHeight, old(scrollPercent))
    {
      scrollPercent := ScrollPercent(offsetY, contentHeight, layoutHeight, scrollPercent);
    }

    /**
     * `handleNextPage`. Below the last page: turn the page, scroll to the
     * top and report the new page's progress as not completed. On the last
     * page: report 100 as completed, request the XP reward, show the end
     * card and, the first time it appears with no questions loaded, start
     * loading them. The requests are only sent when there is a user.
     */
    method NextPage(store: UserStore, reply: AddXpReply) returns (requests: seq<Request>, loadStarted: bool)
      requires Valid()
      modifies this, store
      ensures Valid()
      ensures userId == old(userId) && loadedQuestions == old(loadedQuestions)
      ensures old(pageNum) < TOTAL_PAGES ==>
        && pageNum == old(pageNum) + 1 && scrollPercent == 0
        && showEnd == old(showEnd) && !loadStarted && loadingQuestions == old(loadingQuestions)
        && store.user == old(store.user)
        && requests == (if HasUser() then [SaveProgress(PageProgress(pageNum), false)] else [])
      ensures old(pageNum) == TOTAL_PAGES ==>
        && pageNum == TOTAL_PAGES && scrollPercent == old(scrollPercent) && showEnd
        && requests == (if HasUser() then [SaveProgress(100, true), AddXp(XP_ON_COMPLETE)] else [])
        && store.user == (if HasUser() then ApplyAddXp(old(store.user), reply) else old(store.user))
        && loadStarted == (!old(showEnd) && old(loadedQuestions) == [] && !old(loadingQuestions))
        && loadingQuestions == (old(loadingQuestions) || loadStarted)
    {
      loadStarted := false;
      if pageNum < TOTAL_PAGES {
        var next := pageNum + 1;
        pageNum := next;
        scrollPercent := 0;
        requests := if HasUser() then [SaveProgress(PageProgress(next), false)] else [];
        return;
      }
      requests := if HasUser() then [SaveProgress(100, true), AddXp(XP_ON_COMPLETE)] else [];
      if HasUser() {
        store.user := ApplyAddXp(store.user, reply);
      }
      var wasShown := showEnd;
      showEnd := true;
      if !wasShown && |loadedQuestions| == 0 {
        loadStarted := BeginLoadQuestions();
      }
    }

    /** `handlePrevPage`: on page 1 nothing happens. */
    method PrevPage()
      requires Valid()
      modifies this`pageNum, this`scrollPercent
      ensures Valid()
      ensures old(pageNum) > 1 ==> pageNum == old(pageNum) - 1 && scrollPercent == 0
      ensures old(pageNum) == 1 ==> pageNum == 1 && scrollPercent == old(scrollPercent)
    {
      if pageNum > 1 {
        pageNum := pageNum - 1;
        scrollPercent := 0;
      }
    }

    /** `loadQuestions`, up to its request: a call while a load is running is ignored. */
    method BeginLoadQuestions() returns (started: bool)
      modifies this`loadingQuestions
      ensures started <==> !old(loadingQuestions)
      ensures loadingQuestions
    {
      if loadingQuestions {
        return false;
      }
      loadingQuestions := true;
      started := true;
    }

    /** `loadQuestions`, after its request: keep a non-empty list, then clear the busy flag. */
    method FinishLoadQuestions(payload: QuestionsPayload)
      requires loadingQuestions
      modifies this`loadingQuestions, this`loadedQuestions
      ensures !loadingQuestions
      ensures payload.QuestionList? && |payload.items| > 0 ==> loadedQuestions == payload.items
      ensures !(payload.QuestionList? && |payload.items| > 0) ==> loadedQuestions == old(loadedQuestions)
    {
      if payload.QuestionList? && |payload.items| > 0 {
        loadedQuestions := payload.items;
      }
      loadingQuestions := false;
    }

    /** `startGame(screen)`: no navigation while no questions are loaded. */
    method StartGame(screen: GameScreen) returns (launch: Option<GameLaunch>)
      ensures launch.None? <==> loadedQuestions == []
      ensures launch.Some? ==> launch.value.screen == screen && launch.value.questions == loadedQuestions
    {
      if |loadedQuestions| == 0 {
        return None;
      }
      launch := Some(GameLaunch(screen, loadedQuestions));
    }
  }
}
