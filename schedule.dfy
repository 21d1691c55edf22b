/**
 * The payout schedule (src/pages/Schedule.tsx): for each of the next thirty days, the member
 * the rotation puts on that day, with the day's flags and the amount expected to be paid out.
 */
module Schedule {
  import opened Wrappers
  import opened Types
  import opened Clock
  import Numbers
  import Seqs
  import Store

  const ScheduleDays: nat := 30

  datatype ScheduleEntry = ScheduleEntry(
    date: int, recipient: User, isToday: bool, isPast: bool, isFuture: bool, expectedAmount: int)

  /**
   * The member on day `i` of the schedule: the id at `(currentRecipientIndex + i) % rotationOrder.length`
   * (JavaScript's remainder; NaN for an empty rotation) looked up among the members.
   */
  function RecipientAt(g: ChamaGroup, i: int): (r: Option<User>)
    ensures |g.rotationOrder| == 0 ==> r.None?
    ensures r.Some? ==> r.value in g.members && r.value.id in g.rotationOrder
  {
    if |g.rotationOrder| == 0 then None
    else
      match RotationId(g.rotationOrder, Numbers.JsRem(g.currentRecipientIndex + i, |g.rotationOrder|))
      case None => None
      case Some(id) => FindMember(g.members, id)
  }

  /** The entry for day `i`, `i` days after `now`, with the flags `isToday`, `isPast && !isToday`, `isFuture` taken at `now`. */
  function EntryFor(g: ChamaGroup, now: int, i: nat, recipient: User): (e: ScheduleEntry)
    ensures e.date == AddDays(now, i) && e.recipient == recipient
    ensures e.isToday <==> i == 0
    ensures e.isFuture <==> i > 0
    ensures !e.isPast
    ensures e.expectedAmount == g.dailyAmount * |g.members|
  {
    var date := AddDays(now, i);
    DayOfAddDays(now, i);
    ScheduleEntry(
      date, recipient, DayOf(date) == DayOf(now), date < now && DayOf(date) != DayOf(now), date > now,
      g.dailyAmount * |g.members|)
  }

  function HasRecipient(g: ChamaGroup): nat -> bool {
    (i: nat) => RecipientAt(g, i).Some?
  }

  /** The days among the first `n` whose recipient is found, in increasing order. */
  function ScheduledDays(g: ChamaGroup, n: nat): (ds: seq<nat>)
    ensures |ds| <= n
    ensures forall k :: 0 <= k < |ds| ==> ds[k] < n && RecipientAt(g, ds[k]).Some?
  {
    Seqs.IndicesBelow(n, HasRecipient(g))
  }

  /** The schedule over the first `n` days: the entry of each day whose recipient is found, in day order. */
  function ScheduleUpTo(g: ChamaGroup, now: int, n: nat): (r: seq<ScheduleEntry>)
    ensures |r| == |ScheduledDays(g, n)| <= n
  {
    var ds := ScheduledDays(g, n);
    seq(|ds|, k requires 0 <= k < |ds| => EntryFor(g, now, ds[k], RecipientAt(g, ds[k]).value))
  }

  /** One more day appends that day's entry when its recipient is found, and nothing otherwise. */
  lemma ScheduleStep(g: ChamaGroup, now: int, n: nat)
    ensures ScheduleUpTo(g, now, n + 1) ==
      ScheduleUpTo(g, now, n) + (if RecipientAt(g, n).Some? then [EntryFor(g, now, n, RecipientAt(g, n).value)] else [])
  {
    assert HasRecipient(g)(n) == RecipientAt(g, n).Some?;
    var before := ScheduledDays(g, n);
    assert ScheduledDays(g, n + 1) == before + (if RecipientAt(g, n).Some? then [n] else []);
  }

  /** The loop body's lookup of day `i`'s recipient: the rotation slot, its id, and the member with that id. */
  method LookUpRecipient(g: ChamaGroup, i: int) returns (recipient: Option<User>)
    ensures recipient == RecipientAt(g, i)
  {
    recipient := None;
    if |g.rotationOrder| > 0 {
      var recipientIndex := Numbers.JsRem(g.currentRecipientIndex + i, |g.rotationOrder|);
      var recipientId := RotationId(g.rotationOrder, recipientIndex);
      if recipientId.Some? {
        recipient := FindMember(g.members, recipientId.value);
      }
    }
  }

  /** `generateSchedule()` for a group at `now`. */
  method GenerateSchedule(g: ChamaGroup, now: int) returns (schedule: seq<ScheduleEntry>)
    ensures schedule == ScheduleUpTo(g, now, ScheduleDays)
  {
    schedule := [];
    for i := 0 to ScheduleDays
      invariant schedule == ScheduleUpTo(g, now, i)
    {
      var date := AddDays(now, i);
      var recipient := LookUpRecipient(g, i);
      if recipient.Some? {
        var entry := ScheduleEntry(
          date, recipient.value, DayOf(date) == DayOf(now), date < now && DayOf(date) != DayOf(now),
          date > now, g.dailyAmount * |g.members|);
        assert entry == EntryFor(g, now, i, recipient.value);
        schedule := schedule + [entry];
      }
      ScheduleStep(g, now, i);
    }
  }

  /** The scheduled days are exactly the days whose recipient is found, and they strictly increase. */
  lemma ScheduledDaysFacts(g: ChamaGroup, n: nat)
    ensures var ds := ScheduledDays(g, n);
      forall i: nat :: i < n ==> (i in ds <==> RecipientAt(g, i).Some?)
    ensures var ds := ScheduledDays(g, n);
      forall j, k :: 0 <= j < k < |ds| ==> ds[j] < ds[k]
  {
    Seqs.IndicesBelowFacts(n, HasRecipient(g));
    assert ScheduledDays(g, n) == Seqs.IndicesBelow(n, HasRecipient(g));
    assert forall i: nat :: HasRecipient(g)(i) == RecipientAt(g, i).Some?;
  }

  /**
   * The schedule holds one entry for each day whose recipient is found and nothing else: an
   * entry for day `i` is in it exactly when day `i`'s recipient is found, and every entry is
   * such a day's.
   */
  lemma ScheduleContents(g: ChamaGroup, now: int, n: nat)
    ensures forall i: nat :: i < n && RecipientAt(g, i).Some? ==>
      EntryFor(g, now, i, RecipientAt(g, i).value) in ScheduleUpTo(g, now, n)
    ensures var r, ds := ScheduleUpTo(g, now, n), ScheduledDays(g, n);
      forall k :: 0 <= k < |r| ==> ds[k] < n && RecipientAt(g, ds[k]) == Some(r[k].recipient) && r[k].date == AddDays(now, ds[k])
  {
    ScheduledDaysFacts(g, n);
    var r, ds := ScheduleUpTo(g, now, n), ScheduledDays(g, n);
    forall i: nat | i < n && RecipientAt(g, i).Some?
      ensures EntryFor(g, now, i, RecipientAt(g, i).value) in r
    {
      var k :| 0 <= k < |ds| && ds[k] == i;
      assert r[k] == EntryFor(g, now, i, RecipientAt(g, i).value);
    }
  }

  /** The dates of the schedule strictly increase. */
  lemma ScheduleOrdered(g: ChamaGroup, now: int, n: nat)
    ensures var r := ScheduleUpTo(g, now, n);
      forall j, k :: 0 <= j < k < |r| ==> r[j].date < r[k].date
  {
    ScheduledDaysFacts(g, n);
  }

  /** The schedule has an entry for every day exactly when every day's recipient is found; then entry `i` is day `i`'s. */
  lemma {:induction false} ScheduleFull(g: ChamaGroup, now: int, n: nat)
    ensures |ScheduleUpTo(g, now, n)| == n <==> forall i: nat :: i < n ==> RecipientAt(g, i).Some?
    ensures (forall i: nat :: i < n ==> RecipientAt(g, i).Some?) ==>
      forall i: nat :: i < n ==> ScheduleUpTo(g, now, n)[i] == EntryFor(g, now, i, RecipientAt(g, i).value)
  {
    AllDaysScheduled(g, n);
  }

  /** Helper: the scheduled days are all `n` days exactly when every recipient is found, and then day `k` is the `k`-th. */
  lemma AllDaysScheduled(g: ChamaGroup, n: nat)
    ensures |ScheduledDays(g, n)| == n <==> forall i: nat :: i < n ==> RecipientAt(g, i).Some?
    ensures (forall i: nat :: i < n ==> RecipientAt(g, i).Some?) ==> forall k :: 0 <= k < n ==> ScheduledDays(g, n)[k] == k
  {
    Seqs.IndicesBelowAll(n, HasRecipient(g));
    assert forall i: nat :: HasRecipient(g)(i) == RecipientAt(g, i).Some?;
  }

  /** For a non-negative starting index the rotation repeats every `rotationOrder.length` days. */
  lemma RotationPeriodic(g: ChamaGroup, i: nat)
    requires g.currentRecipientIndex >= 0
    ensures RecipientAt(g, i + |g.rotationOrder|) == RecipientAt(g, i)
  {
    if |g.rotationOrder| > 0 {
      Numbers.JsRemPeriod(g.currentRecipientIndex + i, |g.rotationOrder|);
    }
  }

  /** A day's recipient is a member whose id is in the rotation slot that day lands on. */
  lemma RecipientIsMember(g: ChamaGroup, i: int)
    ensures var r := RecipientAt(g, i);
      r.Some? ==>
        && |g.rotationOrder| > 0 && r.value in g.members
        && RotationId(g.rotationOrder, Numbers.JsRem(g.currentRecipientIndex + i, |g.rotationOrder|)) == Some(r.value.id)
  {
  }

  /** Helper: day `i` lands on slot `k` of the rotation. */
  lemma RecipientAtSlot(g: ChamaGroup, i: int, k: nat)
    requires |g.rotationOrder| > 0 && k < |g.rotationOrder|
    requires Numbers.JsRem(g.currentRecipientIndex + i, |g.rotationOrder|) == k
    ensures RecipientAt(g, i) == FindMember(g.members, g.rotationOrder[k])
  {
  }

  /**
   * When the rotation lists the members' ids in member order, ids are distinct and the
   * starting index is non-negative, day `i` goes to member `(currentRecipientIndex + i) % members.length`
   * (JavaScript's remainder, which for these non-negative operands is the ordinary one).
   */
  lemma RecipientOfMemberOrder(g: ChamaGroup, i: nat)
    requires g.rotationOrder == MemberIds(g.members) && DistinctIds(g.members)
    requires g.currentRecipientIndex >= 0 && |g.members| > 0
    ensures RecipientAt(g, i) == Some(g.members[Numbers.JsRem(g.currentRecipientIndex + i, |g.members|)])
  {
    var k := Numbers.JsRem(g.currentRecipientIndex + i, |g.members|);
    RecipientAtSlot(g, i, k);
    FindMemberDistinct(g.members, g.members[k]);
  }

  /** No entry is past, an entry is today's exactly when it is dated `now`, every other one is in the future, and only the first can be today's. */
  lemma ScheduleFlags(g: ChamaGroup, now: int, n: nat)
    ensures var r := ScheduleUpTo(g, now, n);
      forall k :: 0 <= k < |r| ==>
        && !r[k].isPast && (r[k].isToday <==> r[k].date == now) && (r[k].isFuture <==> !r[k].isToday)
        && (k > 0 ==> !r[k].isToday)
  {
    ScheduledDaysFacts(g, n);
    var r, ds := ScheduleUpTo(g, now, n), ScheduledDays(g, n);
    forall k | 0 <= k < |r|
      ensures !r[k].isPast && (r[k].isToday <==> r[k].date == now) && (r[k].isFuture <==> !r[k].isToday)
      ensures k > 0 ==> !r[k].isToday
    {
      assert r[k] == EntryFor(g, now, ds[k], RecipientAt(g, ds[k]).value);
      if k > 0 {
        assert ds[0] < ds[k];
      }
    }
  }

  /**
   * When the rotation lists the members' ids in member order (ids distinct, starting index
   * non-negative), every one of the `n` days has an entry, day `i` goes to member
   * `(currentRecipientIndex + i) % members.length`, and every day expects the daily amount
   * from every member.
   */
  lemma MemberOrderSchedule(g: ChamaGroup, now: int, n: nat)
    requires g.rotationOrder == MemberIds(g.members) && DistinctIds(g.members)
    requires g.currentRecipientIndex >= 0 && |g.members| > 0
    ensures var r := ScheduleUpTo(g, now, n);
      |r| == n && forall i: nat :: i < n ==> r[i].recipient == g.members[Numbers.JsRem(g.currentRecipientIndex + i, |g.members|)]
    ensures var r := ScheduleUpTo(g, now, n);
      forall k :: 0 <= k < |r| ==> r[k].expectedAmount == g.dailyAmount * |g.members|
  {
    forall i: nat
      ensures RecipientAt(g, i) == Some(g.members[Numbers.JsRem(g.currentRecipientIndex + i, |g.members|)])
    {
      RecipientOfMemberOrder(g, i);
    }
    ScheduleFull(g, now, n);
  }

  /** A rotation in member order that starts at the first member gives day `i` to member `i % members.length`. */
  lemma ScheduleFromFirstMember(g: ChamaGroup, now: int, n: nat)
    requires g.rotationOrder == MemberIds(g.members) && DistinctIds(g.members)
    requires g.currentRecipientIndex == 0 && |g.members| > 0
    ensures var r := ScheduleUpTo(g, now, n);
      |r| == n && forall i: nat :: i < n ==> r[i].recipient == g.members[i % |g.members|]
    ensures var r := ScheduleUpTo(g, now, n);
      forall k :: 0 <= k < |r| ==> r[k].expectedAmount == g.dailyAmount * |g.members|
  {
    forall i: nat
      ensures RecipientAt(g, i) == Some(g.members[i % |g.members|])
    {
      FirstMemberRecipient(g, i);
    }
    ScheduleFull(g, now, n);
  }

  /** Helper: from index 0, day `i` goes to member `i % members.length`. */
  lemma FirstMemberRecipient(g: ChamaGroup, i: nat)
    requires g.rotationOrder == MemberIds(g.members) && DistinctIds(g.members)
    requires g.currentRecipientIndex == 0 && |g.members| > 0
    ensures RecipientAt(g, i) == Some(g.members[i % |g.members|])
  {
    RecipientOfMemberOrder(g, i);
    Numbers.JsRemNonNegative(i, |g.members|);
    assert g.currentRecipientIndex + i == i;
  }

  /** For the seed group, every one of the thirty days has an entry, day `i` goes to the `(i % 5)`-th seed member, and each expects KES 500. */
  lemma MockGroupSchedule(now: int)
    ensures |ScheduleUpTo(Store.MockGroup, now, ScheduleDays)| == ScheduleDays
    ensures var r := ScheduleUpTo(Store.MockGroup, now, ScheduleDays);
      forall i: nat :: i < |r| ==> r[i].recipient == Store.MockUsers[i % 5]
    ensures var r := ScheduleUpTo(Store.MockGroup, now, ScheduleDays);
      forall i: nat :: i < |r| ==> r[i].expectedAmount == 500
  {
    Store.MockGroupWellFormed();
    ScheduleFromFirstMember(Store.MockGroup, now, ScheduleDays);
  }
}
