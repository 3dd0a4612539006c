/**
 * The home screen's experience arithmetic: a level every 100 XP, the XP
 * needed for the next level, the progress bar percentage, and the user
 * record the screen builds from the stored one.
 */
module Home {

  import opened Common

  const XP_PER_LEVEL: int := 100

  /** `computeLevel(xp) = Math.floor(xp / 100) + 1`. */
  function ComputeLevel(xp: int): (level: int)
    ensures XP_PER_LEVEL * (level - 1) <= xp < XP_PER_LEVEL * level
    ensures xp >= 0 ==> level >= 1
  {
    xp / XP_PER_LEVEL + 1
  }

  /** More XP never means a lower level. */
  lemma LevelMonotone(xp1: int, xp2: int)
    requires xp1 <= xp2
    ensures ComputeLevel(xp1) <= ComputeLevel(xp2)
  {
    var l1, l2 := ComputeLevel(xp1), ComputeLevel(xp2);
    assert XP_PER_LEVEL * (l1 - 1) <= xp1 <= xp2 < XP_PER_LEVEL * l2;
    assert l1 - 1 < l2 by { MulAtLeast(XP_PER_LEVEL, (l1 - 1) - l2 + 1); }
  }

  /**
   * One more XP point raises the level exactly when the new total is a
   * multiple of 100, and by one level.
   */
  lemma LevelStepsAtHundreds(xp: int)
    ensures ComputeLevel(xp + 1) == ComputeLevel(xp) + (if (xp + 1) % XP_PER_LEVEL == 0 then 1 else 0)
  {
    var l, l' := ComputeLevel(xp), ComputeLevel(xp + 1);
    if (xp + 1) % XP_PER_LEVEL == 0 {
      DivUnique(xp + 1, XP_PER_LEVEL, l, 0);
      assert l' == l + 1;
    } else {
      DivUnique(xp + 1, XP_PER_LEVEL, l - 1, xp + 1 - XP_PER_LEVEL * (l - 1));
    }
  }

  /** `xpForNext = level * 100`: a multiple of 100, at least 100 from level 1 on. */
  function XpForNext(level: int): (target: int)
    ensures target % XP_PER_LEVEL == 0
    ensures level >= 1 ==> target >= XP_PER_LEVEL
    ensures target == 0 <==> level == 0
  {
    level * XP_PER_LEVEL
  }

  /** The XP target of the current level is always ahead of the XP held. */
  lemma NextLevelAhead(xp: int)
    ensures XpForNext(ComputeLevel(xp)) > xp
  {
  }

  /**
   * `Math.min(100, Math.round(xp / xpForNext * 100))`. With a zero target
   * the quotient is Infinity for a positive XP total, which the clamp turns
   * into 100; it is NaN for 0 and -Infinity for a negative total, and None
   * stands for those two values, which are not numbers the bar can show.
   */
  function XpPercent(xp: int, level: int): (percent: Option<int>)
    ensures percent.None? <==> XpForNext(level) == 0 && xp <= 0
    ensures XpForNext(level) == 0 && xp > 0 ==> percent == Some(100)
    ensures percent.Some? ==> percent.value <= 100
  {
    if XpForNext(level) == 0 then (if xp > 0 then Some(100) else None)
    else Some(Min(100, RoundDiv(100 * xp, XpForNext(level))))
  }

  /**
   * With the level computed from a non-negative XP total, the percentage is
   * a finite number in [0, 100] and the `Math.min` clamp never changes it.
   */
  lemma XpPercentInRange(xp: int)
    requires xp >= 0
    ensures XpPercent(xp, ComputeLevel(xp)).Some?
    ensures 0 <= XpPercent(xp, ComputeLevel(xp)).value <= 100
    ensures XpPercent(xp, ComputeLevel(xp)).value == RoundDiv(100 * xp, XpForNext(ComputeLevel(xp)))
  {
    PercentInRange(xp, XpForNext(ComputeLevel(xp)));
  }

  /** The user record the home screen displays. */
  datatype HomeUser = HomeUser(
    id: int,
    fullname: string,
    avatar: string,
    xp: Option<int>,
    streak: int,
    level: Option<int>)
  {
    /** The shown level is the one the XP total earns. */
    predicate LevelMatchesXp()
    {
      xp.Some? && level == Some(ComputeLevel(xp.value))
    }
  }

  /** The record the screen starts with, before storage is read. */
  const InitialUser: HomeUser := HomeUser(0, "", "", Some(0), 0, Some(1))

  /**
   * `loadUser`: no stored user leaves the shown record alone; otherwise the
   * stored fields are copied, a non-empty avatar becomes a URL under `base`
   * (an empty one stays ""), and the level is recomputed from the XP (a
   * missing XP total gives a level that is not a number, None).
   */
  function LoadUser(stored: Option<StoredUser>, base: string, shown: HomeUser): (r: HomeUser)
    ensures stored.None? ==> r == shown
    ensures stored.Some? ==>
      && r.id == stored.value.id && r.fullname == stored.value.fullname
      && r.xp == stored.value.xp && r.streak == stored.value.streak
      && (stored.value.avatar == "" <==> r.avatar == "")
      && (stored.value.avatar != "" ==> r.avatar == base + "/" + stored.value.avatar)
    ensures stored.Some? ==>
      r.level == if stored.value.xp.Some? then Some(ComputeLevel(stored.value.xp.value)) else None
  {
    match stored
    case None => shown
    case Some(u) =>
      HomeUser(
        u.id, u.fullname,
        if u.avatar != "" then base + "/" + u.avatar else "",
        u.xp, u.streak,
        if u.xp.Some? then Some(ComputeLevel(u.xp.value)) else None)
  }

  /**
   * The shown level always matches the shown XP: at the start, after any
   * load of a stored user that has an XP total, and after a load that finds
   * no stored user when it matched before.
   */
  lemma LoadUserKeepsLevel(stored: Option<StoredUser>, base: string, shown: HomeUser)
    requires stored.None? ==> shown.LevelMatchesXp()
    requires stored.Some? ==> stored.value.xp.Some?
    ensures LoadUser(stored, base, shown).LevelMatchesXp()
    ensures InitialUser.LevelMatchesXp()
  {
  }
}
