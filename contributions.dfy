/**
 * The contributions view (src/pages/Contributions.tsx): the records of one calendar day, narrowed
 * by status and by a search on the member's name, and that day's summary. The page does not
 * require a current group, so the group is optional throughout.
 */
module Contributions {
  import opened Wrappers
  import opened Types
  import opened Clock
  import Seqs
  import Text
  import Numbers

  /** `let isSearchMatch`: an empty term admits everything, otherwise the record's member must exist and its name contain the term, both lower-cased. */
  predicate SearchMatch(group: Option<ChamaGroup>, c: Contribution, searchTerm: string)
    ensures searchTerm == "" ==> SearchMatch(group, c, searchTerm)
    ensures SearchMatch(group, c, searchTerm) && searchTerm != "" ==>
      group.Some? && FindMember(group.value.members, c.userId).Some?
  {
    if searchTerm == "" then true
    else
      var user := if group.None? then None else FindMember(group.value.members, c.userId);
      user.Some? && Text.Contains(Text.ToLower(user.value.name), Text.ToLower(searchTerm))
  }

  /** `filterStatus === 'all' || contribution.status === filterStatus`. */
  predicate StatusMatch(c: Contribution, filterStatus: string)
    ensures filterStatus == "all" ==> StatusMatch(c, filterStatus)
    ensures filterStatus == "paid" ==> (StatusMatch(c, filterStatus) <==> c.status == Paid)
    ensures filterStatus == "late" ==> (StatusMatch(c, filterStatus) <==> c.status == Late)
  {
    filterStatus == "all" || StatusName(c.status) == filterStatus
  }

  /** The filter predicate of the listing. */
  predicate Listed(c: Contribution, group: Option<ChamaGroup>, selectedDate: int, filterStatus: string, searchTerm: string)
    ensures Listed(c, group, selectedDate, filterStatus, searchTerm) ==>
      group.Some? && c.groupId == group.value.id && DayOf(c.date) == DayOf(selectedDate)
    ensures filterStatus == "all" && searchTerm == "" ==>
      (Listed(c, group, selectedDate, filterStatus, searchTerm) <==>
        group.Some? && c.groupId == group.value.id && DayOf(c.date) == DayOf(selectedDate))
  {
    && DayOf(c.date) == DayOf(selectedDate)
    && StatusMatch(c, filterStatus)
    && SearchMatch(group, c, searchTerm)
    && group.Some? && c.groupId == group.value.id
  }

  function ListedBy(group: Option<ChamaGroup>, selectedDate: int, filterStatus: string, searchTerm: string): Contribution -> bool {
    (c: Contribution) => Listed(c, group, selectedDate, filterStatus, searchTerm)
  }

  /** `filteredContributions`. */
  function ListedContributions(cs: seq<Contribution>, group: Option<ChamaGroup>, selectedDate: int,
                               filterStatus: string, searchTerm: string): (r: seq<Contribution>)
    ensures |r| <= |cs|
    ensures forall c :: c in r <==> c in cs && Listed(c, group, selectedDate, filterStatus, searchTerm)
  {
    Seqs.FilterMembers(cs, ListedBy(group, selectedDate, filterStatus, searchTerm));
    Seqs.Filter(cs, ListedBy(group, selectedDate, filterStatus, searchTerm))
  }

  /**
   * Every listed record belongs to the current group and is dated on the selected calendar day;
   * with no current group nothing is listed; the listing keeps the stored order, so the records
   * of an earlier stretch of the log come before those of a later one.
   */
  lemma ListingFacts(cs: seq<Contribution>, more: seq<Contribution>, group: Option<ChamaGroup>, selectedDate: int,
                     filterStatus: string, searchTerm: string)
    ensures forall c :: c in ListedContributions(cs, group, selectedDate, filterStatus, searchTerm) ==>
      group.Some? && c.groupId == group.value.id && DayOf(c.date) == DayOf(selectedDate)
    ensures group.None? ==> ListedContributions(cs, group, selectedDate, filterStatus, searchTerm) == []
    ensures ListedContributions(cs + more, group, selectedDate, filterStatus, searchTerm) ==
      ListedContributions(cs, group, selectedDate, filterStatus, searchTerm) + ListedContributions(more, group, selectedDate, filterStatus, searchTerm)
  {
    if group.None? {
      Seqs.FilterNone(cs, ListedBy(group, selectedDate, filterStatus, searchTerm));
    }
    Seqs.FilterConcat(cs, more, ListedBy(group, selectedDate, filterStatus, searchTerm));
  }

  /**
   * The status filter "all" admits every status; a status name admits exactly that status; any
   * other value admits nothing.
   */
  lemma StatusFilter(c: Contribution, filterStatus: string)
    ensures StatusMatch(c, "all")
    ensures forall st :: StatusMatch(c, StatusName(st)) <==> c.status == st
    ensures filterStatus != "all" && (forall st :: StatusName(st) != filterStatus) ==> !StatusMatch(c, filterStatus)
  {
    forall st
      ensures StatusMatch(c, StatusName(st)) <==> c.status == st
    {
      StatusNameInjective(c.status, st);
    }
  }

  /**
   * An empty search admits every record; a non-empty one admits a record exactly when its user
   * is a member of the current group whose lower-cased name contains the lower-cased term.
   */
  lemma SearchFilter(group: Option<ChamaGroup>, c: Contribution, searchTerm: string)
    ensures SearchMatch(group, c, "")
    ensures searchTerm != "" ==>
      (SearchMatch(group, c, searchTerm) <==>
        group.Some? &&
        exists m :: m in group.value.members && m.id == c.userId && m == FindMember(group.value.members, c.userId).value
          && Text.Contains(Text.ToLower(m.name), Text.ToLower(searchTerm)))
  {
  }

  /** Searching for a member's own full name finds that member's records. */
  lemma SearchByOwnName(group: Option<ChamaGroup>, c: Contribution, u: User)
    requires group.Some? && FindMember(group.value.members, c.userId) == Some(u)
    ensures SearchMatch(group, c, u.name)
  {
    Text.ContainsTrivial(Text.ToLower(u.name));
  }

  datatype DaySummary = DaySummary(totalCollected: int, expectedTotal: int, paidCount: nat, pendingCount: int)

  /** The summary cards for the selected day. */
  function Summarize(listed: seq<Contribution>, group: Option<ChamaGroup>): (s: DaySummary)
    ensures s.paidCount == |listed|
    ensures s.paidCount + s.pendingCount == (if group.None? then 0 else |group.value.members|)
    ensures s.totalCollected == Seqs.SumOf(listed, Amount())
    ensures s.expectedTotal == if group.None? then 0 else |group.value.members| * group.value.dailyAmount
  {
    var members := if group.None? then 0 else |group.value.members|;
    var daily := if group.None? then 0 else group.value.dailyAmount;
    DaySummary(Seqs.SumOf(listed, Amount()), members * daily, |listed|, members - |listed|)
  }

  /** The "Collection Rate" card: 0 unless something is expected, otherwise the rounded percentage, at most 100 when no more than expected was collected. */
  function CollectionRate(s: DaySummary): (r: int)
    ensures s.expectedTotal <= 0 ==> r == 0
    ensures 0 <= s.totalCollected <= s.expectedTotal && s.expectedTotal > 0 ==> 0 <= r <= 100
    ensures s.expectedTotal > 0 && s.totalCollected == s.expectedTotal ==> r == 100
    ensures s.expectedTotal > 0 ==>
      2 * s.expectedTotal * r <= 200 * s.totalCollected + s.expectedTotal < 2 * s.expectedTotal * (r + 1)
  {
    if s.expectedTotal > 0 then
      if 0 <= s.totalCollected <= s.expectedTotal then
        Numbers.RoundPercentBounds(s.totalCollected, s.expectedTotal);
        Numbers.RoundPercent(s.totalCollected, s.expectedTotal)
      else Numbers.RoundPercent(s.totalCollected, s.expectedTotal)
    else 0
  }
}
