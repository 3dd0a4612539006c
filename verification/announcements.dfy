/**
 * The announcement board: the list parsed from the announcements endpoint,
 * shown four to a page, and the page selector that only accepts pages that
 * exist.
 */
module Announcements {

  import opened Common
  import opened Pagination

  /** One announcement as the endpoint returns it. */
  datatype RawAnnouncement = RawAnnouncement(
    id: int,
    title: string,
    body: string,
    category: string,
    isNew: Option<int>,
    createdAt: string)

  /** One announcement as the screen keeps it (the formatted date is left out). */
  datatype Announcement = Announcement(
    id: int,
    title: string,
    body: string,
    category: string,
    isNew: bool)

  /** The reply of the announcements request: `data.announcements`, or a failure. */
  datatype AnnouncementsReply = Reply(announcements: Option<seq<RawAnnouncement>>) | LoadFailed

  /** Parses one record: the text fields are copied and `isNew` is `is_new === 1`. */
  function ParseAnnouncement(a: RawAnnouncement): (p: Announcement)
    ensures p.id == a.id && p.title == a.title && p.body == a.body && p.category == a.category
    ensures p.isNew <==> a.isNew.Some? && a.isNew.value == 1
  {
    Announcement(a.id, a.title, a.body, a.category, a.isNew == Some(1))
  }

  /** `(data.announcements || []).map(…)`. */
  function ParseAll(raw: Option<seq<RawAnnouncement>>): (parsed: seq<Announcement>)
    ensures raw.None? ==> parsed == []
    ensures raw.Some? ==> |parsed| == |raw.value|
    ensures raw.Some? ==> forall i :: 0 <= i < |parsed| ==>
      && parsed[i].id == raw.value[i].id
      && parsed[i].title == raw.value[i].title
      && parsed[i].body == raw.value[i].body
      && parsed[i].category == raw.value[i].category
      && (parsed[i].isNew <==> raw.value[i].isNew == Some(1))
  {
    match raw
    case None => []
    case Some(list) => seq(|list|, i requires 0 <= i < |list| => ParseAnnouncement(list[i]))
  }

  class AnnouncementBoard {
    var announcements: seq<Announcement>
    var currentPage: nat

    /** The page shown is one of the pages that exist. */
    ghost predicate Valid()
      reads this
    {
      1 <= currentPage <= TotalPages(|announcements|)
    }

    constructor ()
      ensures Valid()
      ensures announcements == [] && currentPage == 1
    {
      announcements := [];
      currentPage := 1;
    }

    /** `totalPages`. */
    function PageCount(): (pages: nat)
      reads this
      ensures pages >= 1
    {
      TotalPages(|announcements|)
    }

    /** `pageItems`: the announcements of the current page. */
    function ShownItems(): (items: seq<Announcement>)
      reads this
      requires Valid()
      ensures |items| <= PER_PAGE
      ensures |items| == 0 <==> |announcements| == 0
    {
      InRangePageNonEmpty(announcements, currentPage);
      PageItems(announcements, currentPage)
    }

    /**
     * The mount-time load: a successful reply replaces the list (a missing
     * array reads as empty), a failed one leaves it alone. The page number
     * is not reset; the load runs while it is still 1.
     */
    method Load(reply: AnnouncementsReply)
      requires Valid() && currentPage == 1
      modifies this
      ensures Valid()
      ensures currentPage == 1
      ensures reply.Reply? ==> announcements == ParseAll(reply.announcements)
      ensures reply.LoadFailed? ==> announcements == old(announcements)
    {
      if reply.Reply? {
        announcements := ParseAll(reply.announcements);
      }
    }

    /** `goToPage(n)`: only a page between 1 and totalPages is accepted. */
    method GoToPage(n: int)
      requires Valid()
      modifies this`currentPage
      ensures Valid()
      ensures 1 <= n <= PageCount() ==> currentPage == n
      ensures !(1 <= n <= PageCount()) ==> currentPage == old(currentPage)
    {
      if n >= 1 && n <= TotalPages(|announcements|) {
        currentPage := n;
      }
    }
  }
}
