/**
 * The module catalogue: the list of learning modules taken from whatever
 * shape the modules endpoint replies with, shown four to a page with Prev
 * and Next buttons that never leave the range of existing pages.
 */
module ModuleList {

  import opened Common
  import opened Pagination

  /** One learning module as the catalogue shows it. */
  datatype ModuleInfo = ModuleInfo(id: int, title: string, description: string)

  /**
   * The parsed body of the modules request: an object with optional
   * `modules` and `data` arrays, a bare array, `null`, or a failed request.
   */
  datatype ModulesReply =
    | ObjectReply(modules: Option<seq<ModuleInfo>>, data: Option<seq<ModuleInfo>>)
    | ArrayReply(items: seq<ModuleInfo>)
    | NullReply
    | LoadFailed

  /**
   * `data.modules || data.data || data || []`, with a thrown request giving
   * `[]`. An array is truthy even when empty, so a present `modules` array
   * wins over `data`. None stands for the one case where the chain lands on
   * a value that is not a list: an object with neither field.
   */
  function ModulesFromReply(reply: ModulesReply): (r: Option<seq<ModuleInfo>>)
    ensures reply.ObjectReply? && reply.modules.Some? ==> r == reply.modules
    ensures reply.ObjectReply? && reply.modules.None? ==> r == reply.data
    ensures reply.ArrayReply? ==> r == Some(reply.items)
    ensures reply.NullReply? || reply.LoadFailed? ==> r == Some([])
    ensures r.None? <==> reply.ObjectReply? && reply.modules.None? && reply.data.None?
  {
    match reply
    case ObjectReply(modules, data) =>
      if modules.Some? then modules else data
    case ArrayReply(items) => Some(items)
    case NullReply => Some([])  // `null.modules` throws, and the catch sets []
    case LoadFailed => Some([])
  }

  class ModuleCatalog {
    var modules: seq<ModuleInfo>
    var page: nat

    /** The page shown is one of the pages that exist. */
    ghost predicate Valid()
      reads this
    {
      1 <= page <= TotalPages(|modules|)
    }

    constructor ()
      ensures Valid()
      ensures modules == [] && page == 1
    {
      modules := [];
      page := 1;
    }

    /** `paginated`: the modules of the current page. */
    function Paginated(): (items: seq<ModuleInfo>)
      reads this
      requires Valid()
      ensures |items| <= PER_PAGE
      ensures |items| == 0 <==> |modules| == 0
      ensures forall k :: 0 <= k < |items| ==>
        (page - 1) * PER_PAGE + k < |modules| && items[k] == modules[(page - 1) * PER_PAGE + k]
    {
      InRangePageNonEmpty(modules, page);
      PageItems(modules, page)
    }

    /** The mount-time load, run while the page is still 1. */
    method Load(reply: ModulesReply)
      requires Valid() && page == 1
      modifies this
      ensures Valid() && page == 1
      ensures ModulesFromReply(reply).Some? ==> modules == ModulesFromReply(reply).value
      ensures ModulesFromReply(reply).None? ==> modules == old(modules)
    {
      var r := ModulesFromReply(reply);
      if r.Some? {
        modules := r.value;
      }
    }

    /** The Prev button: `page > 1 && setPage(page - 1)`. */
    method Prev()
      requires Valid()
      modifies this`page
      ensures Valid()
      ensures page == if old(page) > 1 then old(page) - 1 else old(page)
    {
      if page > 1 {
        page := page - 1;
      }
    }

    /** The Next button: `page < totalPages && setPage(page + 1)`. */
    method Next()
      requires Valid()
      modifies this`page
      ensures Valid()
      ensures page == if old(page) < TotalPages(|modules|) then old(page) + 1 else old(page)
    {
      if page < TotalPages(|modules|) {
        page := page + 1;
      }
    }
  }
}
