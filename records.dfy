/**
 * The enrollment records list: the search and status filter, the headline counts and the
 * header count. The list itself is never replaced, so it is a parameter here.
 */
module Records {
  import opened Seqs
  import opened Text

  datatype EnrollmentRecord = EnrollmentRecord(
    id: string,
    name: string,
    dateOfBirth: string,
    enrollmentDate: string,
    status: string,
    biometrics: seq<string>,
    quality: string,
    officer: string)

  /** Name or id contains the search term ignoring case, and the status filter is 'all' or the status. */
  predicate MatchesRecord(r: EnrollmentRecord, searchTerm: string, statusFilter: string) {
    && (ContainsIgnoreCase(r.name, searchTerm) || ContainsIgnoreCase(r.id, searchTerm))
    && (statusFilter == "all" || r.status == statusFilter)
  }

  function FilteredRecords(records: seq<EnrollmentRecord>, searchTerm: string, statusFilter: string): seq<EnrollmentRecord> {
    Filter((r: EnrollmentRecord) => MatchesRecord(r, searchTerm, statusFilter), records)
  }

  /** The listed records are exactly the matching ones, each as often as it occurs, in list order. */
  lemma {:induction false} FilteredRecordsSpec(records: seq<EnrollmentRecord>, searchTerm: string, statusFilter: string,
                                               r: EnrollmentRecord)
    ensures r in FilteredRecords(records, searchTerm, statusFilter) <==> r in records && MatchesRecord(r, searchTerm, statusFilter)
    ensures multiset(FilteredRecords(records, searchTerm, statusFilter))[r] ==
              if MatchesRecord(r, searchTerm, statusFilter) then multiset(records)[r] else 0
    ensures IsSubseq(FilteredRecords(records, searchTerm, statusFilter), records)
  {
    var p := (x: EnrollmentRecord) => MatchesRecord(x, searchTerm, statusFilter);
    FilterMembership(p, records, r);
    FilterMultiset(p, records, r);
    FilterIsSubseq(p, records);
  }

  /** An empty search with the 'all' status lists every record in its original order. */
  lemma {:induction false} DefaultFiltersListAll(records: seq<EnrollmentRecord>)
    ensures FilteredRecords(records, "", "all") == records
  {
    forall i | 0 <= i < |records| ensures MatchesRecord(records[i], "", "all") {
      EmptyTermMatches(records[i].name);
    }
    FilterKeepsAll((x: EnrollmentRecord) => MatchesRecord(x, "", "all"), records);
  }

  /** The four headline cards. */
  datatype RecordCounts = RecordCounts(total: nat, active: nat, pending: nat, review: nat)

  predicate IsActive(r: EnrollmentRecord) { r.status == "active" }
  predicate IsPending(r: EnrollmentRecord) { r.status == "pending" }
  predicate IsUnderReview(r: EnrollmentRecord) { r.status == "review" }

  /**
   * The counts, taken over all records whatever the filters; a record with any other status
   * is in the total only, so the three status cards never add up to more than it.
   */
  function CountRecords(records: seq<EnrollmentRecord>): (c: RecordCounts)
    ensures c.total == |records|
    ensures c.active + c.pending + c.review <= c.total
    ensures (forall i :: 0 <= i < |records| ==> records[i].status in {"active", "pending", "review"}) ==>
              c.active + c.pending + c.review == c.total
  {
    CountThree(IsActive, IsPending, IsUnderReview, records);
    RecordCounts(|records|, Count(IsActive, records), Count(IsPending, records), Count(IsUnderReview, records))
  }

  /** The table header's count: the number of listed records, never more than there are records. */
  function HeaderCount(records: seq<EnrollmentRecord>, searchTerm: string, statusFilter: string): (n: nat)
    ensures n <= CountRecords(records).total
    ensures n == |FilteredRecords(records, searchTerm, statusFilter)|
  {
    |FilteredRecords(records, searchTerm, statusFilter)|
  }
}
