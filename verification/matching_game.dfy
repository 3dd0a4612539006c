/**
 * The matching session: a deck of question cards and answer cards built from
 * at most three questions and shuffled, a selection of at most two face-up
 * cards, the list of matched card ids and the score, and the final result
 * handed on once every card is matched.
 */
module MatchingGame {

  import opened Common

  const MAX_PAIRS: nat := 3
  const GAME_NAME: string := "Matching Game"

  /** The `type` of a card: "q" or "a". */
  datatype CardKind = QuestionHalf | AnswerHalf

  datatype Card = Card(id: string, kind: CardKind, pair: nat, text: string)

  /** `Q${i}` or `A${i}`, for a single-digit pair index. */
  function CardId(kind: CardKind, pair: nat): (id: string)
    requires pair < 10
    ensures |id| == 2
  {
    [if kind == QuestionHalf then 'Q' else 'A', ('0' as int + pair) as char]
  }

  /** Different cards of a deck never share an id. */
  lemma CardIdInjective(k1: CardKind, p1: nat, k2: CardKind, p2: nat)
    requires p1 < 10 && p2 < 10
    ensures CardId(k1, p1) == CardId(k2, p2) <==> k1 == k2 && p1 == p2
  {
    if CardId(k1, p1) == CardId(k2, p2) {
      assert CardId(k1, p1)[0] == CardId(k2, p2)[0];
      assert CardId(k1, p1)[1] == CardId(k2, p2)[1];
    }
  }

  /** The question card of pair i. */
  function QCard(i: nat, q: Question): Card
    requires i < MAX_PAIRS
  {
    Card(CardId(QuestionHalf, i), QuestionHalf, i, q.question)
  }

  /** The answer card of pair i. */
  function ACard(i: nat, q: Question): Card
    requires i < MAX_PAIRS
  {
    Card(CardId(AnswerHalf, i), AnswerHalf, i, q.correctAnswer)
  }

  /** `questions.slice(0, MAX_PAIRS)`. */
  function Limited(qs: seq<Question>): (r: seq<Question>)
    ensures |r| == Min(|qs|, MAX_PAIRS) && r <= qs
  {
    if |qs| <= MAX_PAIRS then qs else qs[..MAX_PAIRS]
  }

  /**
   * The unshuffled deck the `forEach` pushes: for each question in turn,
   * its question card and then its answer card.
   */
  function PairCards(limited: seq<Question>): (cards: seq<Card>)
    requires |limited| <= MAX_PAIRS
    ensures |cards| == 2 * |limited|
    ensures forall c :: c in cards ==> c.pair < |limited|
  {
    if limited == [] then []
    else
      var i := |limited| - 1;
      PairCards(limited[..i]) + [QCard(i, limited[i]), ACard(i, limited[i])]
  }

  /** The position a card takes in the unshuffled deck: 2i for Q{i}, 2i+1 for A{i}. */
  function Slot(c: Card): int
  {
    2 * c.pair + (if c.kind == QuestionHalf then 0 else 1)
  }

  /**
   * Card k of the unshuffled deck sits at its own slot, belongs to one of
   * the questions, carries the id its kind and pair give, and shows that
   * question's text or correct answer.
   */
  lemma {:induction false} PairCardsAt(limited: seq<Question>)
    requires |limited| <= MAX_PAIRS
    ensures |PairCards(limited)| == 2 * |limited|
    ensures forall k :: 0 <= k < |PairCards(limited)| ==>
      var c := PairCards(limited)[k];
      && c.pair < |limited| && Slot(c) == k && c.id == CardId(c.kind, c.pair)
      && c.text == (if c.kind == QuestionHalf then limited[c.pair].question else limited[c.pair].correctAnswer)
  {
    if limited != [] {
      var n := |limited| - 1;
      var pre := limited[..n];
      PairCardsAt(pre);
      var deck := PairCards(limited);
      assert deck == PairCards(pre) + [QCard(n, limited[n]), ACard(n, limited[n])];
      forall k | 0 <= k < |deck|
        ensures
          var c := deck[k];
          && c.pair < |limited| && Slot(c) == k && c.id == CardId(c.kind, c.pair)
          && c.text == (if c.kind == QuestionHalf then limited[c.pair].question else limited[c.pair].correctAnswer)
      {
        if k < 2 * n {
          assert deck[k] == PairCards(pre)[k];
          assert pre[deck[k].pair] == limited[deck[k].pair];
        }
      }
    }
  }

  /** Both halves of every question are in the unshuffled deck. */
  lemma {:induction false} PairCardsHoldBothHalves(limited: seq<Question>, i: nat)
    requires |limited| <= MAX_PAIRS && i < |limited|
    ensures QCard(i, limited[i]) in PairCards(limited) && ACard(i, limited[i]) in PairCards(limited)
  {
    var n := |limited| - 1;
    if i < n {
      PairCardsHoldBothHalves(limited[..n], i);
      assert limited[..n][i] == limited[i];
    }
  }

  /** The ids of a deck, in deck order. */
  function Ids(cards: seq<Card>): (ids: seq<string>)
    ensures |ids| == |cards| && forall i :: 0 <= i < |cards| ==> ids[i] == cards[i].id
  {
    seq(|cards|, i requires 0 <= i < |cards| => cards[i].id)
  }

  /**
   * A deck of n pairs: 2n cards, each carrying the id its kind and pair
   * give, with a pair index below n, and no id twice.
   */
  predicate WellFormedDeck(cards: seq<Card>, n: nat)
  {
    && n <= MAX_PAIRS
    && |cards| == 2 * n
    && (forall c :: c in cards ==> c.pair < n && c.id == CardId(c.kind, c.pair))
    && Distinct(Ids(cards))
  }

  /**
   * The unshuffled deck of `limited` is well formed: one question card and
   * one answer card per question, all ids distinct.
   */
  lemma PairCardsWellFormed(limited: seq<Question>)
    requires |limited| <= MAX_PAIRS
    ensures WellFormedDeck(PairCards(limited), |limited|)
  {
    var deck := PairCards(limited);
    PairCardsAt(limited);
    forall c | c in deck ensures c.pair < |limited| && c.id == CardId(c.kind, c.pair) {
      var k :| 0 <= k < |deck| && deck[k] == c;
    }
    forall a, b | 0 <= a < b < |deck| ensures Ids(deck)[a] != Ids(deck)[b] {
      assert Slot(deck[a]) == a && Slot(deck[b]) == b;
      CardIdInjective(deck[a].kind, deck[a].pair, deck[b].kind, deck[b].pair);
    }
  }

  /** A rearranged well-formed deck whose ids stay distinct is well formed. */
  lemma PermutedDeckWellFormed(deck: seq<Card>, shuffled: seq<Card>, n: nat)
    requires WellFormedDeck(deck, n) && multiset(shuffled) == multiset(deck)
    requires Distinct(Ids(shuffled))
    ensures WellFormedDeck(shuffled, n)
  {
    assert |shuffled| == |multiset(shuffled)| == |deck|;
    forall c | c in shuffled ensures c in deck {
      assert c in multiset(shuffled);
    }
  }

  /** One step of the shuffle: the cards at i and j change places. */
  datatype Swap = Swap(i: nat, j: nat)

  function Swapped(cards: seq<Card>, i: nat, j: nat): (r: seq<Card>)
    requires i < |cards| && j < |cards|
    ensures |r| == |cards| && r[i] == cards[j] && r[j] == cards[i]
    ensures forall k :: 0 <= k < |cards| && k != i && k != j ==> r[k] == cards[k]
  {
    cards[i := cards[j]][j := cards[i]]
  }

  /** A swap rearranges the deck: the same cards, each as often as before. */
  lemma SwapPermutes(cards: seq<Card>, i: nat, j: nat)
    requires i < |cards| && j < |cards|
    ensures multiset(Swapped(cards, i, j)) == multiset(cards)
  {
    var mid := cards[i := cards[j]];
    assert multiset(mid) == multiset(cards) - multiset{cards[i]} + multiset{cards[j]};
    assert multiset(mid[j := cards[i]]) == multiset(mid) - multiset{mid[j]} + multiset{cards[i]};
  }

  /** A swap keeps the ids of a deck distinct. */
  lemma SwapKeepsIdsDistinct(cards: seq<Card>, i: nat, j: nat)
    requires i < |cards| && j < |cards| && Distinct(Ids(cards))
    ensures Distinct(Ids(Swapped(cards, i, j)))
  {
    var r := Swapped(cards, i, j);
    forall a, b | 0 <= a < b < |r| ensures Ids(r)[a] != Ids(r)[b] {
      var a' := if a == i then j else if a == j then i else a;
      var b' := if b == i then j else if b == j then i else b;
      assert r[a] == cards[a'] && r[b] == cards[b'] && a' != b';
      if a' < b' {
        assert Ids(cards)[a'] != Ids(cards)[b'];
      } else {
        assert Ids(cards)[b'] != Ids(cards)[a'];
      }
    }
  }

  /**
   * `pairs.sort(() => Math.random() - 0.5)`: the random order is given as
   * the sequence of swaps it amounts to. The result holds the same cards,
   * and a deck with distinct ids keeps them distinct.
   */
  method Shuffle(deck: seq<Card>, swaps: seq<Swap>) returns (shuffled: seq<Card>)
    requires forall s :: s in swaps ==> s.i < |deck| && s.j < |deck|
    ensures multiset(shuffled) == multiset(deck)
    ensures Distinct(Ids(deck)) ==> Distinct(Ids(shuffled))
  {
    shuffled := deck;
    var k := 0;
    while k < |swaps|
      invariant 0 <= k <= |swaps|
      invariant |shuffled| == |deck| && multiset(shuffled) == multiset(deck)
      invariant Distinct(Ids(deck)) ==> Distinct(Ids(shuffled))
    {
      var s := swaps[k];
      SwapPermutes(shuffled, s.i, s.j);
      if Distinct(Ids(shuffled)) {
        SwapKeepsIdsDistinct(shuffled, s.i, s.j);
      }
      shuffled := Swapped(shuffled, s.i, s.j);
      k := k + 1;
    }
  }

  /** The `forEach` that pushes a question card and an answer card per question. */
  method BuildPairs(limited: seq<Question>) returns (pairs: seq<Card>)
    requires |limited| <= MAX_PAIRS
    ensures pairs == PairCards(limited)
  {
    pairs := [];
    var i := 0;
    while i < |limited|
      invariant 0 <= i <= |limited|
      invariant pairs == PairCards(limited[..i])
    {
      assert limited[..i + 1][..i] == limited[..i];
      pairs := pairs + [QCard(i, limited[i]), ACard(i, limited[i])];
      i := i + 1;
    }
    assert limited[..i] == limited;
  }

  /**
   * The deck-building effect. A question list that is not an array builds
   * no deck. Otherwise the deck holds, for each of the first
   * min(len, MAX_PAIRS) questions, its question card and its answer card,
   * shuffled, with no id twice.
   */
  method BuildDeck(questions: Option<seq<Question>>, swaps: seq<Swap>) returns (deck: seq<Card>)
    requires questions.Some? ==>
      forall s :: s in swaps ==> s.i < 2 * |Limited(questions.value)| && s.j < 2 * |Limited(questions.value)|
    ensures questions.None? ==> deck == []
    ensures questions.Some? ==>
      && WellFormedDeck(deck, |Limited(questions.value)|)
      && multiset(deck) == multiset(PairCards(Limited(questions.value)))
      && forall i :: 0 <= i < |Limited(questions.value)| ==>
           QCard(i, questions.value[i]) in deck && ACard(i, questions.value[i]) in deck
  {
    if questions.None? {
      return [];
    }
    var limited := Limited(questions.value);
    var pairs := BuildPairs(limited);
    PairCardsWellFormed(limited);
    deck := Shuffle(pairs, swaps);
    PermutedDeckWellFormed(pairs, deck, |limited|);
    forall i | 0 <= i < |limited|
      ensures QCard(i, questions.value[i]) in deck && ACard(i, questions.value[i]) in deck
    {
      PairCardsHoldBothHalves(limited, i);
      assert limited[i] == questions.value[i];
      assert QCard(i, limited[i]) in multiset(deck) && ACard(i, limited[i]) in multiset(deck);
    }
  }

  /** `a.pair === b.pair && a.type !== b.type`. */
  function IsMatch(a: Card, b: Card): (m: bool)
    ensures m ==> a != b
    ensures m ==> {a.kind, b.kind} == {QuestionHalf, AnswerHalf}
  {
    a.pair == b.pair && a.kind != b.kind
  }

  /** Tapping the same card twice is never a match. */
  lemma SameCardNeverMatches(c: Card)
    ensures !IsMatch(c, c)
  {
  }

  /** Two cards of a well-formed deck that match have different ids. */
  lemma MatchedCardsDiffer(cards: seq<Card>, n: nat, a: Card, b: Card)
    requires WellFormedDeck(cards, n) && a in cards && b in cards && IsMatch(a, b)
    ensures a.id != b.id
  {
    CardIdInjective(a.kind, a.pair, b.kind, b.pair);
  }

  /** A sequence without duplicates has as many distinct elements as it is long. */
  lemma {:induction false} DistinctCardinality<T>(s: seq<T>)
    requires Distinct(s)
    ensures |set x | x in s| == |s|
  {
    if s != [] {
      var rest := s[1..];
      assert Distinct(rest) by {
        forall i, j | 0 <= i < j < |rest| ensures rest[i] != rest[j] {
          assert rest[i] == s[i + 1] && rest[j] == s[j + 1];
        }
      }
      DistinctCardinality(rest);
      assert s[0] !in rest by {
        forall k | 0 <= k < |rest| ensures rest[k] != s[0] {
          assert rest[k] == s[k + 1];
        }
      }
      assert (set x | x in s) == (set x | x in rest) + {s[0]};
    }
  }

  /**
   * Once as many distinct ids are matched as the deck has cards, every card
   * of the deck is matched and the score is the deck's number of pairs.
   */
  lemma AllCardsMatched(cards: seq<Card>, n: nat, matched: seq<string>, score: int)
    requires WellFormedDeck(cards, n)
    requires Distinct(matched) && (forall id :: id in matched ==> id in Ids(cards))
    requires |matched| == 2 * score && |matched| == |cards|
    ensures forall c :: c in cards ==> c.id in matched
    ensures score == n
  {
    var ms := set x | x in matched;
    var ids := set x | x in Ids(cards);
    DistinctCardinality(matched);
    DistinctCardinality(Ids(cards));
    assert ms <= ids;
    assert |ids - ms| == |ids| - |ms|;
    assert ids - ms == {};
    forall c | c in cards ensures c.id in matched {
      var k :| 0 <= k < |cards| && cards[k] == c;
      assert Ids(cards)[k] == c.id;
      assert c.id in ids;
    }
  }

  /** A card's id is among the deck's ids. */
  lemma IdsListed(cards: seq<Card>, c: Card)
    requires c in cards
    ensures c.id in Ids(cards)
  {
    var k :| 0 <= k < |cards| && cards[k] == c;
    assert Ids(cards)[k] == c.id;
  }

  class MatchingSession {
    var cards: seq<Card>
    /** The face-up cards (`selected`); the same card can be in it twice. */
    var selected: seq<Card>
    var matched: seq<string>
    var score: int
    var showInstructions: bool
    var showHint: bool
    /** The session has handed its result on (`navigation.replace`) and is gone. */
    var finished: bool
    /** The number of pairs the deck was built from. */
    ghost var pairCount: nat

    ghost predicate Valid()
      reads this
    {
      && WellFormedDeck(cards, pairCount)
      && |selected| <= 2
      && (forall c :: c in selected ==> c in cards)
      && (|selected| < 2 ==> forall c :: c in selected ==> c.id !in matched)
      && Distinct(matched)
      && (forall id :: id in matched ==> id in Ids(cards))
      && |matched| == 2 * score
    }

    constructor ()
      ensures Valid()
      ensures cards == [] && selected == [] && matched == [] && score == 0
      ensures showInstructions && !showHint && !finished
    {
      cards := [];
      selected := [];
      matched := [];
      score := 0;
      showInstructions := true;
      showHint := false;
      finished := false;
      pairCount := 0;
    }

    /** The deck-building effect, run on mount before any card can be tapped. */
    method Build(questions: Option<seq<Question>>, swaps: seq<Swap>)
      requires Valid() && cards == [] && selected == [] && matched == []
      requires questions.Some? ==>
        forall s :: s in swaps ==> s.i < 2 * |Limited(questions.value)| && s.j < 2 * |Limited(questions.value)|
      modifies this`cards, this`pairCount
      ensures Valid()
      ensures questions.None? ==> cards == []
      ensures questions.Some? ==>
        && pairCount == |Limited(questions.value)|
        && multiset(cards) == multiset(PairCards(Limited(questions.value)))
    {
      cards := BuildDeck(questions, swaps);
      pairCount := if questions.Some? then |Limited(questions.value)| else 0;
    }

    /** "Start Game" on the instructions modal. */
    method DismissInstructions()
      modifies this`showInstructions
      ensures !showInstructions
    {
      showInstructions := false;
    }

    /** The bulb button and the hint modal's "Close". */
    method SetHint(open: bool)
      modifies this`showHint
      ensures showHint == open
    {
      showHint := open;
    }

    /**
     * `tapCard`, then the completion effect. Ignored while two cards are
     * face up or when the card is already matched (and while a modal covers
     * the grid). The first tap turns a card up; the second turns up another
     * (or the same one again) and, when the two are halves of one pair, adds
     * both ids to the matched list and one point. When that match completes
     * the deck, the result goes to the result screen with the constant total
     * MAX_PAIRS.
     */
    method TapCard(card: Card) returns (fin: Option<Finalize>)
      requires Valid() && card in cards
      modifies this`selected, this`matched, this`score, this`finished
      ensures Valid()
      ensures
        var accepted := !old(finished) && !showInstructions && !showHint
                        && |old(selected)| < 2 && card.id !in old(matched);
        && (!accepted ==>
              selected == old(selected) && matched == old(matched) && score == old(score)
              && finished == old(finished) && fin.None?)
        && (accepted ==> selected == old(selected) + [card])
        && (accepted && |old(selected)| == 0 ==>
              matched == old(matched) && score == old(score) && fin.None? && finished == old(finished))
        && (accepted && |old(selected)| == 1 && IsMatch(old(selected)[0], card) ==>
              matched == old(matched) + [old(selected)[0].id, card.id] && score == old(score) + 1)
        && (accepted && |old(selected)| == 1 && !IsMatch(old(selected)[0], card) ==>
              matched == old(matched) && score == old(score) && fin.None? && finished == old(finished))
        && (accepted && |old(selected)| == 1 && IsMatch(old(selected)[0], card) ==>
              (fin.Some? <==> |matched| == |cards|) && finished == fin.Some?)
      ensures fin.Some? ==>
        && fin.value == Finalize(score, MAX_PAIRS, GAME_NAME)
        && score == pairCount <= MAX_PAIRS
        && (forall c :: c in cards ==> c.id in matched)
    {
      fin := None;
      if finished || showInstructions || showHint || |selected| == 2 || card.id in matched {
        return;
      }
      var next := selected + [card];
      selected := next;
      if |next| == 2 {
        var a, b := next[0], next[1];
        if IsMatch(a, b) {
          RecordMatch(a, b);
          if |cards| > 0 && |matched| == |cards| {
            AllCardsMatched(cards, pairCount, matched, score);
            fin := Some(Finalize(score, MAX_PAIRS, GAME_NAME));
            finished := true;
          }
        }
      }
    }

    /** A match: both ids join the matched list and the score grows by one. */
    method RecordMatch(a: Card, b: Card)
      requires Valid() && selected == [a, b] && IsMatch(a, b)
      requires a.id !in matched && b.id !in matched
      modifies this`matched, this`score
      ensures Valid()
      ensures matched == old(matched) + [a.id, b.id] && score == old(score) + 1
    {
      assert a in cards && b in cards;
      MatchedCardsDiffer(cards, pairCount, a, b);
      IdsListed(cards, a);
      IdsListed(cards, b);
      matched := matched + [a.id, b.id];
      score := score + 1;
      assert Distinct(matched) by {
        assert forall x :: x in old(matched) ==> x != a.id && x != b.id;
      }
    }

    /** The 700 ms timeout after a second card: both cards turn face down. */
    method ClearSelection()
      requires Valid()
      modifies this`selected
      ensures Valid()
      ensures selected == if |old(selected)| == 2 then [] else old(selected)
    {
      if |selected| == 2 {
        selected := [];
      }
    }
  }
}
