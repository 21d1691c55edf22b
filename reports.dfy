/**
 * The reports view (src/pages/Reports.tsx): the chosen date range, the group's contributions in
 * it, the totals and on-time rate, and per-member performance. The current instant and the
 * bounds of the current month (date-fns `startOfMonth`/`endOfMonth`) are parameters.
 */
module Reports {
  import opened Types
  import opened Clock
  import Seqs
  import Numbers

  // ---------------------------------------------------------------- date range

  datatype DateRange = DateRange(start: int, end: int)

  predicate Contains(r: DateRange, t: int) {
    r.start <= t <= r.end
  }

  /** `getDateRange()` as written: "today" is the single instant `now`. */
  function GetDateRange(key: string, now: int, monthStart: int, monthEnd: int): (r: DateRange)
    ensures key in {"today", "thisWeek", "last30Days"} ==> r.start <= r.end == now
    ensures key == "today" ==> r.start == now
    ensures key !in {"today", "thisWeek", "last30Days"} ==> r == DateRange(monthStart, monthEnd)
  {
    match key
    case "today" => DateRange(now, now)
    case "thisWeek" => DateRange(AddDays(now, -7), now)
    case "last30Days" => DateRange(AddDays(now, -30), now)
    case _ => DateRange(monthStart, monthEnd)
  }

  /**
   * The date range with "today" meaning the whole calendar day of `now`; every other key as
   * `getDateRange()` has it.
   */
  function DateRangeFor(key: string, now: int, monthStart: int, monthEnd: int): (r: DateRange)
    ensures key == "today" ==> r.start <= now <= r.end && r.end - r.start == DayMs - 1
    ensures key != "today" ==> r == GetDateRange(key, now, monthStart, monthEnd)
  {
    if key == "today" then DateRange(StartOfDay(now), StartOfDay(now) + DayMs - 1)
    else GetDateRange(key, now, monthStart, monthEnd)
  }

  /**
   * Every range contains `now` (the month range when `now` lies in the month given), the
   * week and thirty-day ranges reach back exactly seven and thirty days, and an unknown key
   * falls back to the month.
   */
  lemma DateRangeShape(key: string, now: int, monthStart: int, monthEnd: int)
    ensures monthStart <= now <= monthEnd ==> Contains(GetDateRange(key, now, monthStart, monthEnd), now)
    ensures monthStart <= now <= monthEnd ==> Contains(DateRangeFor(key, now, monthStart, monthEnd), now)
    ensures key == "thisWeek" ==> GetDateRange(key, now, monthStart, monthEnd) == DateRange(now - 7 * DayMs, now)
    ensures key == "last30Days" ==> GetDateRange(key, now, monthStart, monthEnd) == DateRange(now - 30 * DayMs, now)
    ensures key !in {"today", "thisWeek", "last30Days"} ==>
      GetDateRange(key, now, monthStart, monthEnd) == DateRange(monthStart, monthEnd)
  {
  }

  /** As written, the "today" range admits only an instant equal to `now`: a payment made one millisecond earlier is left out. */
  lemma TodayRangeIsOneInstant(now: int, monthStart: int, monthEnd: int, t: int)
    ensures Contains(GetDateRange("today", now, monthStart, monthEnd), t) <==> t == now
    ensures !Contains(GetDateRange("today", now, monthStart, monthEnd), now - 1)
  {
  }

  /** The corrected "today" range admits exactly the instants on the calendar day of `now`. */
  lemma {:induction false} TodayRangeIsToday(now: int, monthStart: int, monthEnd: int, t: int)
    ensures Contains(DateRangeFor("today", now, monthStart, monthEnd), t) <==> DayOf(t) == DayOf(now)
  {
    var s := StartOfDay(now);
    assert DayOf(s) == DayOf(now);
    if s <= t < s + DayMs {
      assert (t - s) / DayMs == 0;
    }
  }

  // ---------------------------------------------------------------- filtered records

  function InRangeFor(range: DateRange, g: ChamaGroup): Contribution -> bool {
    (c: Contribution) => Contains(range, c.date) && c.groupId == g.id
  }

  /** `filteredContributions`: the group's records dated inside the range, both ends included, in their stored order. */
  function FilteredContributions(cs: seq<Contribution>, g: ChamaGroup, range: DateRange): (r: seq<Contribution>)
    ensures |r| <= |cs|
    ensures forall c :: c in r <==> c in cs && range.start <= c.date <= range.end && c.groupId == g.id
  {
    Seqs.FilterMembers(cs, InRangeFor(range, g));
    Seqs.Filter(cs, InRangeFor(range, g))
  }

  // ---------------------------------------------------------------- totals

  /** `Math.round((part / whole) * 100)`, 0 when there is nothing to divide by. */
  function RateOf(part: nat, whole: nat): (r: int)
    requires part <= whole
    ensures 0 <= r <= 100
    ensures whole == 0 ==> r == 0
    ensures whole > 0 && part == whole ==> r == 100
    ensures part == 0 ==> r == 0
    ensures whole > 0 ==> 2 * whole * r <= 200 * part + whole < 2 * whole * (r + 1)
  {
    if whole > 0 then Numbers.RoundPercentBounds(part, whole); Numbers.RoundPercent(part, whole) else 0
  }

  datatype Summary = Summary(
    totalCollected: int, totalPenalties: int,
    paidContributions: nat, lateContributions: nat, totalContributions: nat, onTimeRate: int)

  /** The report's totals over the filtered records. */
  function Summarize(fs: seq<Contribution>): (s: Summary)
    ensures s.totalContributions == |fs|
    ensures s.paidContributions == |Seqs.Filter(fs, StatusIs(Paid))|
    ensures s.lateContributions == |Seqs.Filter(fs, StatusIs(Late))|
    ensures s.paidContributions + s.lateContributions <= s.totalContributions
    ensures s.onTimeRate == RateOf(s.paidContributions, s.totalContributions)
    ensures 0 <= s.onTimeRate <= 100
    ensures s.totalContributions == 0 ==> s.onTimeRate == 0
    ensures s.totalCollected == Seqs.SumOf(fs, Amount()) && s.totalPenalties == Seqs.SumOf(fs, PenaltyOrZero())
  {
    var paid := |Seqs.Filter(fs, StatusIs(Paid))|;
    var late := |Seqs.Filter(fs, StatusIs(Late))|;
    Seqs.FilterDisjointLength(fs, StatusIs(Paid), StatusIs(Late));
    Summary(Seqs.SumOf(fs, Amount()), Seqs.SumOf(fs, PenaltyOrZero()), paid, late, |fs|, RateOf(paid, |fs|))
  }

  /**
   * The on-time rate is 100 when every record in range is paid on time (and there is one), and 0
   * when none is. The converse fails because of rounding: 199 paid out of 200 also shows 100.
   */
  lemma {:induction false} OnTimeRateExtremes(fs: seq<Contribution>)
    ensures |fs| > 0 && (forall c :: c in fs ==> c.status == Paid) ==> Summarize(fs).onTimeRate == 100
    ensures (forall c :: c in fs ==> c.status != Paid) ==> Summarize(fs).onTimeRate == 0
  {
    Seqs.FilterLengthFull(fs, StatusIs(Paid));
    Seqs.FilterMembers(fs, StatusIs(Paid));
    var paid := Seqs.Filter(fs, StatusIs(Paid));
    if forall c :: c in fs ==> c.status != Paid {
      if paid != [] {
        assert paid[0] in paid;
      }
    }
  }

  // ---------------------------------------------------------------- per member

  datatype MemberStat = MemberStat(
    member: User, totalPaid: int, onTimePayments: nat, latePayments: nat, penalties: int,
    totalContributions: nat, onTimeRate: int)

  /** One member's performance over the filtered records. */
  function StatFor(fs: seq<Contribution>, m: User): (s: MemberStat)
    ensures s.member == m
    ensures s.totalContributions == |Seqs.Filter(fs, UserIs(m.id))|
    ensures s.onTimePayments == |Seqs.Filter(Seqs.Filter(fs, UserIs(m.id)), StatusIs(Paid))|
    ensures s.latePayments == |Seqs.Filter(Seqs.Filter(fs, UserIs(m.id)), StatusIs(Late))|
    ensures s.totalPaid == Seqs.SumOf(Seqs.Filter(fs, UserIs(m.id)), Amount())
    ensures s.penalties == Seqs.SumOf(Seqs.Filter(fs, UserIs(m.id)), PenaltyOrZero())
    ensures s.onTimePayments + s.latePayments <= s.totalContributions
    ensures s.onTimeRate == RateOf(s.onTimePayments, s.totalContributions)
    ensures 0 <= s.onTimeRate <= 100
    ensures s.totalContributions == 0 ==> s.onTimeRate == 0 && s.totalPaid == 0 && s.penalties == 0
  {
    var mine := Seqs.Filter(fs, UserIs(m.id));
    var onTime := |Seqs.Filter(mine, StatusIs(Paid))|;
    var late := |Seqs.Filter(mine, StatusIs(Late))|;
    Seqs.FilterDisjointLength(mine, StatusIs(Paid), StatusIs(Late));
    MemberStat(m, Seqs.SumOf(mine, Amount()), onTime, late, Seqs.SumOf(mine, PenaltyOrZero()), |mine|, RateOf(onTime, |mine|))
  }

  /** `memberStats`: one entry per member, in member order. */
  function MemberStats(fs: seq<Contribution>, members: seq<User>): (r: seq<MemberStat>)
    ensures |r| == |members|
    ensures forall i :: 0 <= i < |members| ==> r[i] == StatFor(fs, members[i]) && r[i].member == members[i]
    decreases |members|
  {
    if members == [] then [] else [StatFor(fs, members[0])] + MemberStats(fs, members[1..])
  }

  function TotalPaid(): MemberStat -> int {
    (s: MemberStat) => s.totalPaid
  }

  function UserIn(ids: seq<string>): Contribution -> bool {
    (c: Contribution) => c.userId in ids
  }

  /** With distinct member ids, the members' totals add up to the total of the records of those members. */
  lemma {:induction false} MemberTotalsCover(fs: seq<Contribution>, members: seq<User>)
    requires DistinctIds(members)
    ensures Seqs.SumOf(MemberStats(fs, members), TotalPaid()) == Seqs.SumOf(Seqs.Filter(fs, UserIn(MemberIds(members))), Amount())
    decreases |members|
  {
    if members == [] {
      var none := Seqs.Filter(fs, UserIn([]));
      Seqs.FilterMembers(fs, UserIn([]));
      if none != [] {
        assert none[0] in none;
      }
    } else {
      var m, rest := members[0], members[1..];
      assert DistinctIds(rest) by {
        forall i, j | 0 <= i < j < |rest| ensures rest[i].id != rest[j].id {
          assert rest[i] == members[i + 1] && rest[j] == members[j + 1];
        }
      }
      MemberTotalsCover(fs, rest);
      assert MemberIds(members) == [m.id] + MemberIds(rest);
      assert m.id !in MemberIds(rest) by {
        forall j | 0 <= j < |rest| ensures MemberIds(rest)[j] != m.id {
          assert rest[j] == members[j + 1];
        }
      }
      Seqs.SumOfFilterUnion(fs, Amount(), UserIs(m.id), UserIn(MemberIds(rest)), UserIn(MemberIds(members)));
      var stats := MemberStats(fs, members);
      assert stats[1..] == MemberStats(fs, rest);
    }
  }

  /**
   * When member ids are distinct and every filtered record belongs to a member, the members'
   * `totalPaid` values add up to the report's `totalCollected`.
   */
  lemma MemberTotalsSum(fs: seq<Contribution>, members: seq<User>)
    requires DistinctIds(members)
    requires forall c :: c in fs ==> exists m :: m in members && m.id == c.userId
    ensures Seqs.SumOf(MemberStats(fs, members), TotalPaid()) == Summarize(fs).totalCollected
  {
    MemberTotalsCover(fs, members);
    forall c | c in fs
      ensures UserIn(MemberIds(members))(c)
    {
      var m :| m in members && m.id == c.userId;
      var i :| 0 <= i < |members| && members[i] == m;
      assert MemberIds(members)[i] == c.userId;
    }
    Seqs.FilterAll(fs, UserIn(MemberIds(members)));
  }
}
