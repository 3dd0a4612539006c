/**
 * Values shared by the game screens: an optional value (for JavaScript's
 * `undefined`/`null`), a trivia question, the result a finished game hands to
 * the result screen, the user record kept in local storage, and the integer
 * form of `Math.round(n / d)`.
 */
module Common {

  datatype Option<+T> = None | Some(value: T)

  /** The four answer keys of a question, in the order the screens list them. */
  datatype ChoiceKey = ChoiceA | ChoiceB | ChoiceC | ChoiceD

  const AllKeys: seq<ChoiceKey> := [ChoiceA, ChoiceB, ChoiceC, ChoiceD]

  /** One trivia item as the questions endpoint returns it. */
  datatype Question = Question(
    question: string,
    choiceA: string,
    choiceB: string,
    choiceC: string,
    choiceD: string,
    correctAnswer: string)
  {
    /** `current[key]` for one of the four choice keys. */
    function Choice(key: ChoiceKey): string
    {
      match key
      case ChoiceA => choiceA
      case ChoiceB => choiceB
      case ChoiceC => choiceC
      case ChoiceD => choiceD
    }
  }

  /**
   * The parsed body of the questions request: `data.questions` is an array,
   * is something else (missing, null or not an array), or the request threw.
   */
  datatype QuestionsPayload = QuestionList(items: seq<Question>) | NotAList | FetchFailed

  /**
   * What a game passes to the result screen when it ends (the
   * `navigation.replace("FinalResult", …)` call); the student and module
   * ids are passed through unchanged and are not modelled.
   */
  datatype Finalize = Finalize(correct: int, total: int, gameName: string)

  /** The user record kept under the storage key "user". */
  datatype StoredUser = StoredUser(
    id: int,
    fullname: string,
    avatar: string,
    xp: Option<int>,
    streak: int)

  /** The device's local storage, reduced to its "user" entry. */
  class UserStore {
    var user: Option<StoredUser>

    constructor (initial: Option<StoredUser>)
      ensures user == initial
    {
      user := initial;
    }
  }

  function Min(a: int, b: int): int { if a <= b then a else b }

  function Max(a: int, b: int): int { if a <= b then b else a }

  /** `Math.max(lo, Math.min(hi, x))`. */
  function Clamp(lo: int, hi: int, x: int): (r: int)
    requires lo <= hi
    ensures lo <= r <= hi
    ensures lo <= x <= hi ==> r == x
  {
    Max(lo, Min(hi, x))
  }

  /**
   * `Math.round(n / d)` computed exactly on the rationals: the nearest
   * integer to n/d, halves rounded towards +infinity.
   */
  function RoundDiv(n: int, d: int): (r: int)
    requires d != 0
    ensures d > 0 ==> 2 * n - d < 2 * d * r <= 2 * n + d
  {
    RoundDivBounds(n, d);
    if d > 0 then (2 * n + d) / (2 * d) else (-2 * n - d) / (-2 * d)
  }

  lemma RoundDivBounds(n: int, d: int)
    requires d != 0
    ensures d > 0 ==> 2 * n - d < 2 * d * ((2 * n + d) / (2 * d)) <= 2 * n + d
  {
    if d > 0 {
      var q := (2 * n + d) / (2 * d);
      var m := (2 * n + d) % (2 * d);
      assert 2 * n + d == 2 * d * q + m && 0 <= m < 2 * d;
    }
  }

  /** RoundDiv is exact when d divides n. */
  lemma RoundDivExact(n: int, d: int)
    requires d > 0 && n % d == 0
    ensures RoundDiv(n, d) == n / d
  {
    var k := n / d;
    assert n == d * k;
    assert 2 * n + d == 2 * d * k + d;
    DivUnique(2 * n + d, 2 * d, k, d);
  }

  /**
   * `Math.round(part / whole * 100)` with 0 <= part <= whole lies in
   * [0, 100], and the whole gives exactly 100.
   */
  lemma PercentInRange(part: int, whole: int)
    ensures whole > 0 && 0 <= part <= whole ==> 0 <= RoundDiv(100 * part, whole) <= 100
    ensures whole > 0 && part == whole ==> RoundDiv(100 * part, whole) == 100
  {
    if whole > 0 && 0 <= part <= whole {
      RoundDivMonotone(0, 100 * part, whole);
      RoundDivMonotone(100 * part, 100 * whole, whole);
      RoundDivExact(0, whole);
      assert (100 * whole) % whole == 0 && (100 * whole) / whole == 100 by {
        DivUnique(100 * whole, whole, 100, 0);
      }
      RoundDivExact(100 * whole, whole);
    }
  }

  /** The quotient of Euclidean division is determined by the remainder bounds. */
  lemma DivUnique(a: int, b: int, q: int, m: int)
    requires b > 0 && a == b * q + m && 0 <= m < b
    ensures a / b == q
  {
    var q' := a / b;
    var m' := a % b;
    assert b * (q - q') == m' - m;
    assert q - q' < 1 by { MulAtLeast(b, q - q'); }
    assert q' - q < 1 by { MulAtLeast(b, q' - q); }
  }

  /** RoundDiv is monotone in the numerator. */
  lemma RoundDivMonotone(n1: int, n2: int, d: int)
    requires d > 0 && n1 <= n2
    ensures RoundDiv(n1, d) <= RoundDiv(n2, d)
  {
    DivMonotone(2 * n1 + d, 2 * n2 + d, 2 * d);
  }

  lemma DivMonotone(a: int, b: int, d: int)
    requires d > 0 && a <= b
    ensures a / d <= b / d
  {
    var qa, ma := a / d, a % d;
    var qb, mb := b / d, b % d;
    assert d * (qa - qb) == (a - b) + (mb - ma) < d;
    MulAtLeast(d, qa - qb);
  }

  /** A positive multiple of a positive number is at least that number. */
  lemma MulAtLeast(b: int, k: int)
    requires b > 0
    ensures k >= 1 ==> b * k >= b
  {
    if k >= 1 {
      assert b * k == b + b * (k - 1);
    }
  }

  /** A sequence with no element twice. */
  predicate Distinct<T(==)>(s: seq<T>)
  {
    forall i, j :: 0 <= i < j < |s| ==> s[i] != s[j]
  }

  /** Rearranging a sequence keeps it free of duplicates. */
  lemma {:induction false} DistinctPermutation<T>(a: seq<T>, b: seq<T>)
    requires multiset(a) == multiset(b) && Distinct(b)
    ensures Distinct(a)
  {
    forall i, j | 0 <= i < j < |a| ensures a[i] != a[j] {
      if a[i] == a[j] {
        var x := a[i];
        assert a == a[..i] + [x] + a[i + 1..j] + [x] + a[j + 1..];
        assert multiset(a)[x] >= 2;
        DistinctCount(b, x);
      }
    }
  }

  /** In a sequence without duplicates every element occurs at most once. */
  lemma {:induction false} DistinctCount<T>(s: seq<T>, x: T)
    requires Distinct(s)
    ensures multiset(s)[x] <= 1
  {
    if s != [] {
      assert s == [s[0]] + s[1..];
      assert Distinct(s[1..]) by {
        forall i, j | 0 <= i < j < |s[1..]| ensures s[1..][i] != s[1..][j] {
          assert s[1..][i] == s[i + 1] && s[1..][j] == s[j + 1];
        }
      }
      DistinctCount(s[1..], x);
      assert forall k :: 0 <= k < |s[1..]| ==> s[1..][k] == s[k + 1] != s[0];
      assert s[0] !in s[1..];
    }
  }
}
