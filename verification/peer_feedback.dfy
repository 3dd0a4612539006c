/**
 * The peer-feedback search: the list shown is the feedback list filtered by
 * a case-insensitive substring match of the search term against each item's
 * title or text.
 */
module PeerFeedback {

  import opened Common

  /** One feedback entry; only the two searched fields are modelled. */
  datatype FeedbackItem = FeedbackItem(title: string, text: string)

  /** The reply of the feedback request: `data.feedback`, or a failure. */
  datatype FeedbackReply = Reply(feedback: Option<seq<FeedbackItem>>) | LoadFailed

  /** `toLowerCase` on one character, for the letters A to Z. */
  function LowerChar(c: char): char
  {
    if 'A' <= c <= 'Z' then (c as int - 'A' as int + 'a' as int) as char else c
  }

  /** `s.toLowerCase()`. */
  function Lower(s: string): (r: string)
    ensures |r| == |s|
    ensures forall i :: 0 <= i < |s| ==> r[i] == LowerChar(s[i])
  {
    seq(|s|, i requires 0 <= i < |s| => LowerChar(s[i]))
  }

  /** Lower-casing twice is lower-casing once. */
  lemma LowerIdempotent(s: string)
    ensures Lower(Lower(s)) == Lower(s)
  {
    assert forall i :: 0 <= i < |s| ==> LowerChar(LowerChar(s[i])) == LowerChar(s[i]);
  }

  /**
   * `hay.includes(needle)`: needle occurs in hay at some position. The empty
   * string occurs in every string, every string in itself, and nothing
   * longer than hay occurs in it.
   */
  function Includes(hay: string, needle: string): (found: bool)
    ensures needle <= hay ==> found
    ensures |needle| > |hay| ==> !found
  {
    assert hay[0..] == hay;
    exists i :: 0 <= i <= |hay| && needle <= hay[i..]
  }

  /**
   * The filter's test for one item: the empty term matches every item, and
   * a term longer than both the title and the text matches none.
   */
  function Matches(item: FeedbackItem, term: string): (m: bool)
    ensures term == "" ==> m
    ensures m ==> |term| <= |item.title| || |term| <= |item.text|
  {
    Includes(Lower(item.title), Lower(term)) || Includes(Lower(item.text), Lower(term))
  }

  /**
   * `filtered`: the items that match the term, in their original order.
   * An item is kept exactly when it matches.
   */
  function Filtered(feedback: seq<FeedbackItem>, term: string): (r: seq<FeedbackItem>)
    ensures |r| <= |feedback|
    ensures forall x :: x in r <==> x in feedback && Matches(x, term)
  {
    if feedback == [] then []
    else
      var rest := Filtered(feedback[1..], term);
      assert forall x :: x in feedback <==> x == feedback[0] || x in feedback[1..];
      if Matches(feedback[0], term) then [feedback[0]] + rest else rest
  }

  /** a occurs in b with its elements in the same order (gaps allowed). */
  predicate IsSubsequence<T(==)>(a: seq<T>, b: seq<T>)
    decreases |b|
  {
    if a == [] then true
    else if b == [] then false
    else (a[0] == b[0] && IsSubsequence(a[1..], b[1..])) || IsSubsequence(a, b[1..])
  }

  /** The filtered list is an order-preserving sub-list of the feedback. */
  lemma {:induction false} FilteredIsSubsequence(feedback: seq<FeedbackItem>, term: string)
    ensures IsSubsequence(Filtered(feedback, term), feedback)
  {
    if feedback != [] {
      FilteredIsSubsequence(feedback[1..], term);
      var rest := Filtered(feedback[1..], term);
      if Matches(feedback[0], term) {
        assert ([feedback[0]] + rest)[1..] == rest;
      }
    }
  }

  /** Each item is kept as many times as it occurs, if it matches, and never otherwise. */
  lemma {:induction false} FilteredCounts(feedback: seq<FeedbackItem>, term: string, x: FeedbackItem)
    ensures multiset(Filtered(feedback, term))[x] == if Matches(x, term) then multiset(feedback)[x] else 0
  {
    if feedback != [] {
      FilteredCounts(feedback[1..], term, x);
      assert feedback == [feedback[0]] + feedback[1..];
    }
  }

  /** An empty search term keeps every item. */
  lemma {:induction false} EmptyTermKeepsAll(feedback: seq<FeedbackItem>)
    ensures Filtered(feedback, "") == feedback
  {
    if feedback != [] {
      var t := Lower(feedback[0].title);
      assert Lower("") <= t[0..];
      EmptyTermKeepsAll(feedback[1..]);
    }
  }

  /** Search terms that differ only in letter case give the same result. */
  lemma {:induction false} CaseOfTermIrrelevant(feedback: seq<FeedbackItem>, t1: string, t2: string)
    requires Lower(t1) == Lower(t2)
    ensures Filtered(feedback, t1) == Filtered(feedback, t2)
  {
    if feedback != [] {
      CaseOfTermIrrelevant(feedback[1..], t1, t2);
    }
  }

  /** In particular, lower-casing the term first changes nothing. */
  lemma LowerTermSameResult(feedback: seq<FeedbackItem>, term: string)
    ensures Filtered(feedback, Lower(term)) == Filtered(feedback, term)
  {
    LowerIdempotent(term);
    CaseOfTermIrrelevant(feedback, Lower(term), term);
  }

  /**
   * The load: `data.feedback || []` on a reply; on a failure the list the
   * screen already holds stays.
   */
  function LoadedFeedback(reply: FeedbackReply, current: seq<FeedbackItem>): (r: seq<FeedbackItem>)
    ensures reply.LoadFailed? ==> r == current
    ensures reply.Reply? && reply.feedback.None? ==> r == []
    ensures reply.Reply? && reply.feedback.Some? ==> r == reply.feedback.value
  {
    match reply
    case LoadFailed => current
    case Reply(feedback) => if feedback.Some? then feedback.value else []
  }
}
