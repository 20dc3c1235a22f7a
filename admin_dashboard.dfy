/**
 * The admin dashboard (app/admin/dashboard/page.js): four counts built
 * from three listings fetched one after the other.
 */
module AdminDashboard {
  import opened Wrappers
  import opened Lists
  import opened Api
  import CsrRoute
  import CoWorkersRoute
  import StudentsRoute

  datatype Stats = Stats(totalCSRs: nat, activeCSRs: nat, totalCoWorkers: nat, totalStudents: nat)

  const ZeroStats := Stats(0, 0, 0, 0)

  /** `csrs.filter(csr => csr.isActive).length`. */
  function ActiveCount(csrs: seq<CsrRoute.CsrView>): (n: nat)
    ensures n <= |csrs|
    ensures n == |csrs| <==> forall i :: 0 <= i < |csrs| ==> csrs[i].isActive
  {
    FilterFull(csrs, (c: CsrRoute.CsrView) => c.isActive);
    |Filter(csrs, (c: CsrRoute.CsrView) => c.isActive)|
  }

  /** Active CSRs are counted one by one: an appended CSR adds one exactly when it is active. */
  lemma ActiveCountAppend(csrs: seq<CsrRoute.CsrView>, c: CsrRoute.CsrView)
    ensures ActiveCount(csrs + [c]) == ActiveCount(csrs) + (if c.isActive then 1 else 0)
  {
    FilterAppend(csrs, c, (v: CsrRoute.CsrView) => v.isActive);
  }

  /**
   * What the effect computes from the three replies: `None` when it keeps
   * the initial zeros, either because a request or a JSON read threw, a
   * listing it dereferences is missing, or the CSR or co-worker fetch did
   * not succeed.
   */
  function StatsOf(csr: Fetched<CsrRoute.CsrView>, coWorkers: Fetched<CoWorkersRoute.CoWorkerRecord>,
                   students: Fetched<StudentsRoute.StudentRecord>): (r: Option<Stats>)
    ensures r.Some? <==>
              && csr.FetchAnswered? && coWorkers.FetchAnswered? && students.FetchAnswered?
              && csr.success && coWorkers.success && csr.items.Some? && coWorkers.items.Some?
              && (students.success ==> students.items.Some?)
    ensures r.Some? ==>
              && r.value.totalCSRs == |csr.items.value|
              && r.value.activeCSRs == ActiveCount(csr.items.value)
              && r.value.activeCSRs <= r.value.totalCSRs
              && r.value.totalCoWorkers == |coWorkers.items.value|
              && r.value.totalStudents == (if students.success then |students.items.value| else 0)
  {
    if csr.FetchThrew? || coWorkers.FetchThrew? || students.FetchThrew? then None
    else if !(csr.success && coWorkers.success) then None
    else if csr.items.None? || coWorkers.items.None? || (students.success && students.items.None?) then None
    else
      var cs := csr.items.value;
      Some(Stats(|cs|, ActiveCount(cs), |coWorkers.items.value|,
                 if students.success then |students.items.value| else 0))
  }

  class Page {
    var stats: Stats
    var loading: bool

    constructor ()
      ensures stats == ZeroStats && loading
    {
      stats := ZeroStats;
      loading := true;
    }

    /** The mount effect: the stats are replaced only when all of it went through; the spinner always stops. */
    method FetchStats(csr: Fetched<CsrRoute.CsrView>, coWorkers: Fetched<CoWorkersRoute.CoWorkerRecord>,
                      students: Fetched<StudentsRoute.StudentRecord>)
      modifies this
      ensures !loading
      ensures stats == StatsOf(csr, coWorkers, students).GetOr(old(stats))
    {
      var computed := StatsOf(csr, coWorkers, students);
      if computed.Some? {
        stats := computed.value;
      }
      loading := false;
    }
  }

  /** The dashboard as first shown: the computed counts, or zeros when the effect kept them. */
  method Mount(csr: Fetched<CsrRoute.CsrView>, coWorkers: Fetched<CoWorkersRoute.CoWorkerRecord>,
               students: Fetched<StudentsRoute.StudentRecord>) returns (p: Page)
    ensures !p.loading
    ensures !(csr.FetchAnswered? && csr.success && coWorkers.FetchAnswered? && coWorkers.success) ==>
              p.stats == ZeroStats
    ensures p.stats.activeCSRs <= p.stats.totalCSRs
    ensures p.stats == StatsOf(csr, coWorkers, students).GetOr(ZeroStats)
  {
    p := new Page();
    p.FetchStats(csr, coWorkers, students);
  }

  /** The active count read off the stored CSRs' listing: an inactive CSR is counted in the total only. */
  lemma InactiveNotCounted(csrs: seq<CsrRoute.CsrView>, c: CsrRoute.CsrView)
    requires !c.isActive
    ensures ActiveCount(csrs + [c]) == ActiveCount(csrs)
    ensures ActiveCount(csrs + [c]) < |csrs + [c]|
  {
    ActiveCountAppend(csrs, c);
  }
}
