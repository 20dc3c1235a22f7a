/**
 * The CSR dashboard (app/csr/csr-dashboard/page.js): the co-workers the
 * API lists, their total, and a search over name, purpose and reference.
 */
module CsrDashboard {
  import opened Wrappers
  import opened Text
  import opened Lists
  import opened Api
  import opened CoWorkersRoute

  /** `field && field.toLowerCase().includes(term.toLowerCase())` for an optional field. */
  predicate OptionalHit(field: Option<string>, term: string) {
    Truthy(field) && Contains(Lower(field.value), Lower(term))
  }

  /** The search: the name always takes part, purpose and reference only when present and non-empty. */
  predicate Matches(w: CoWorkerRecord, term: string) {
    Contains(Lower(w.fullName), Lower(term)) || OptionalHit(w.purpose, term) || OptionalHit(w.reference, term)
  }

  function FilterCoWorkers(coWorkers: seq<CoWorkerRecord>, term: string): (r: seq<CoWorkerRecord>)
    ensures forall w :: w in r <==> w in coWorkers && Matches(w, term)
    ensures IsSublist(r, coWorkers)
  {
    Filter(coWorkers, (w: CoWorkerRecord) => Matches(w, term))
  }

  /** The empty term keeps every co-worker, since every name contains the empty string. */
  lemma EmptyTermKeepsAll(coWorkers: seq<CoWorkerRecord>)
    ensures FilterCoWorkers(coWorkers, "") == coWorkers
  {
    forall i | 0 <= i < |coWorkers|
      ensures Matches(coWorkers[i], "")
    {
      ContainsEmpty(Lower(coWorkers[i].fullName));
    }
  }

  /** The search ignores case in the term. */
  lemma TermCaseIgnored(coWorkers: seq<CoWorkerRecord>, term: string)
    ensures FilterCoWorkers(coWorkers, term) == FilterCoWorkers(coWorkers, Lower(term))
  {
    LowerIdempotent(term);
    FilterAgree(coWorkers, (w: CoWorkerRecord) => Matches(w, term), (w: CoWorkerRecord) => Matches(w, Lower(term)));
  }

  class Page {
    var coWorkers: seq<CoWorkerRecord>
    var loading: bool
    var searchTerm: string

    constructor ()
      ensures coWorkers == [] && loading && searchTerm == ""
    {
      coWorkers := [];
      loading := true;
      searchTerm := "";
    }

    /** "Total Co-workers": the whole list, whatever the search. */
    function Total(): (n: nat)
      reads this
      ensures n == |coWorkers| && |Shown()| <= n
    {
      |coWorkers|
    }

    /** The rows the table renders. */
    function Shown(): (r: seq<CoWorkerRecord>)
      reads this
      ensures IsSublist(r, coWorkers) && |r| <= |coWorkers|
      ensures forall w :: w in r <==> w in coWorkers && Matches(w, searchTerm)
    {
      FilterCoWorkers(coWorkers, searchTerm)
    }

    /** The mount effect: a successful reply replaces the list; anything else leaves it. */
    method FetchCoWorkers(reply: Fetched<CoWorkerRecord>)
      modifies this
      ensures !loading && searchTerm == old(searchTerm)
      ensures reply.FetchAnswered? && reply.success && reply.items.Some? ==> coWorkers == reply.items.value
      ensures !(reply.FetchAnswered? && reply.success) ==> coWorkers == old(coWorkers)
    {
      if reply.FetchAnswered? && reply.success && reply.items.Some? {
        coWorkers := reply.items.value;
      }
      loading := false;
    }

    method SetSearchTerm(term: string)
      modifies this
      ensures searchTerm == term && coWorkers == old(coWorkers) && loading == old(loading)
    {
      searchTerm := term;
    }
  }

  /** The page as first shown: a failed fetch leaves an empty list and the spinner gone. */
  method Mount(reply: Fetched<CoWorkerRecord>) returns (p: Page)
    ensures !p.loading && p.searchTerm == ""
    ensures !(reply.FetchAnswered? && reply.success) ==> p.coWorkers == [] && p.Total() == 0
    ensures reply.FetchAnswered? && reply.success && reply.items.Some? ==> p.coWorkers == reply.items.value
  {
    p := new Page();
    p.FetchCoWorkers(reply);
  }
}
