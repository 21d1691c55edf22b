/**
 * The dashboard view (src/pages/Dashboard.tsx): today's recipient and collection figures,
 * the per-minute deadline countdown with its one-hour reminder, recording a payment as paid
 * or late, and the admin's pause/resume switch. The current instant `now` is a parameter.
 */
module Dashboard {
  import opened Wrappers
  import opened Types
  import opened Clock
  import Seqs
  import Text
  import Numbers
  import Store

  // ---------------------------------------------------------------- today's recipient

  /** `getTodaysRecipient()`: the member whose id sits at `rotationOrder[currentRecipientIndex]`. */
  function TodaysRecipient(group: Option<ChamaGroup>): (r: Option<User>)
    ensures group.None? ==> r.None?
    ensures r.Some? ==>
      && r.value in group.value.members
      && RotationId(group.value.rotationOrder, group.value.currentRecipientIndex) == Some(r.value.id)
    ensures group.Some? && r.None? ==>
      forall m :: m in group.value.members ==>
        RotationId(group.value.rotationOrder, group.value.currentRecipientIndex) != Some(m.id)
  {
    if group.None? then None
    else
      var g := group.value;
      match RotationId(g.rotationOrder, g.currentRecipientIndex)
      case None => None
      case Some(id) => FindMember(g.members, id)
  }

  // ---------------------------------------------------------------- today's figures

  function TodayFor(group: Option<ChamaGroup>, now: int): Contribution -> bool {
    (c: Contribution) => DayOf(c.date) == DayOf(now) && group.Some? && c.groupId == group.value.id
  }

  /** `contributions.filter(c => isToday(c.date) && c.groupId === currentGroup?.id)`. */
  function TodaysContributions(cs: seq<Contribution>, group: Option<ChamaGroup>, now: int): (r: seq<Contribution>)
    ensures |r| <= |cs|
    ensures forall c :: c in r <==> c in cs && DayOf(c.date) == DayOf(now) && group.Some? && c.groupId == group.value.id
  {
    Seqs.FilterMembers(cs, TodayFor(group, now));
    Seqs.Filter(cs, TodayFor(group, now))
  }

  /** `todaysContributions.find(c => c.userId === currentUser?.id)`: the signed-in member's payment today. */
  function MyTodayContribution(todays: seq<Contribution>, user: Option<User>): (r: Option<Contribution>)
    ensures r.None? <==> user.None? || forall c :: c in todays ==> c.userId != user.value.id
    ensures r.Some? ==> r.value in todays && r.value.userId == user.value.id
  {
    if user.None? then None else Seqs.Find(todays, UserIs(user.value.id))
  }

  /** The member's payment is the first of today's records that is theirs. */
  lemma MyTodayContributionFirst(todays: seq<Contribution>, u: User)
    ensures forall k :: 0 <= k < |todays| && todays[k].userId == u.id && (forall i :: 0 <= i < k ==> todays[i].userId != u.id) ==>
      MyTodayContribution(todays, Some(u)) == Some(todays[k])
  {
    Seqs.FindFirst(todays, UserIs(u.id));
  }

  /** `currentGroup?.members.length || 0`. */
  function MemberCount(group: Option<ChamaGroup>): nat {
    if group.None? then 0 else |group.value.members|
  }

  datatype DayStats = DayStats(totalCollected: int, expectedTotal: int, paidMembers: int, pendingMembers: int)

  /** The four headline figures of the dashboard, for the day of `now`. */
  function TodayStats(cs: seq<Contribution>, group: Option<ChamaGroup>, now: int): (s: DayStats)
    ensures s.paidMembers + s.pendingMembers == MemberCount(group)
    ensures s.expectedTotal == if group.None? then 0 else |group.value.members| * group.value.dailyAmount
    ensures 0 <= s.paidMembers <= |cs|
    ensures s.paidMembers == |TodaysContributions(cs, group, now)|
    ensures s.totalCollected == Seqs.SumOf(TodaysContributions(cs, group, now), Amount())
    ensures group.None? ==> s == DayStats(0, 0, 0, 0)
  {
    var todays := TodaysContributions(cs, group, now);
    if group.None? then
      Seqs.FilterNone(cs, TodayFor(group, now));
      DayStats(0, 0, 0, 0)
    else
      var members := |group.value.members|;
      DayStats(Seqs.SumOf(todays, Amount()), members * group.value.dailyAmount, |todays|, members - |todays|)
  }

  /**
   * When every payment recorded today is the daily amount plus, for a late one, the penalty,
   * the total collected is the paid records times the daily amount plus the late ones times
   * the penalty; so a day on which every member paid on time collects exactly the expected total.
   */
  lemma {:induction false} CollectedFromPayments(cs: seq<Contribution>, g: ChamaGroup, now: int)
    requires forall c :: c in TodaysContributions(cs, Some(g), now) ==>
      c.amount == g.dailyAmount + (if c.status == Late then g.penaltyAmount else 0)
    ensures var s := TodayStats(cs, Some(g), now);
      s.totalCollected == s.paidMembers * g.dailyAmount + |Seqs.Filter(TodaysContributions(cs, Some(g), now), StatusIs(Late))| * g.penaltyAmount
    ensures var s := TodayStats(cs, Some(g), now);
      s.pendingMembers == 0 && (forall c :: c in TodaysContributions(cs, Some(g), now) ==> c.status != Late) ==>
      s.totalCollected == s.expectedTotal
  {
    var todays := TodaysContributions(cs, Some(g), now);
    Seqs.SumOfSurcharge(todays, Amount(), g.dailyAmount, StatusIs(Late), g.penaltyAmount);
    if forall c :: c in todays ==> c.status != Late {
      Seqs.FilterNone(todays, StatusIs(Late));
    }
  }

  /**
   * `Math.round((totalCollected / expectedTotal) * 100)`. The source divides without checking
   * for zero, so with nothing expected it shows NaN or Infinity: None here.
   */
  function ProgressPercent(s: DayStats): (r: Option<int>)
    ensures r.None? <==> s.expectedTotal == 0
    ensures s.expectedTotal > 0 ==>
      2 * s.expectedTotal * r.value <= 200 * s.totalCollected + s.expectedTotal < 2 * s.expectedTotal * (r.value + 1)
    ensures s.expectedTotal < 0 ==>
      2 * -s.expectedTotal * r.value <= 200 * -s.totalCollected - s.expectedTotal < 2 * -s.expectedTotal * (r.value + 1)
    ensures 0 <= s.totalCollected <= s.expectedTotal && s.expectedTotal > 0 ==> 0 <= r.value <= 100
    ensures s.totalCollected == s.expectedTotal && s.expectedTotal > 0 ==> r == Some(100)
  {
    if s.expectedTotal == 0 then None
    else if s.expectedTotal < 0 then Some(Numbers.RoundPercent(-s.totalCollected, -s.expectedTotal))
    else if 0 <= s.totalCollected <= s.expectedTotal then
      Numbers.RoundPercentBounds(s.totalCollected, s.expectedTotal);
      Some(Numbers.RoundPercent(s.totalCollected, s.expectedTotal))
    else Some(Numbers.RoundPercent(s.totalCollected, s.expectedTotal))
  }

  // ---------------------------------------------------------------- countdown

  datatype Countdown = Countdown(diff: int, hoursLeft: int, minutesLeft: int)

  /**
   * What one tick of `updateTimer` computes: the time left until the next deadline, whole
   * hours, and the whole minutes left over. None when the deadline text does not parse (the
   * source then computes NaN).
   */
  function CountdownAt(deadlineTime: string, now: int): (r: Option<Countdown>)
    ensures r.Some? <==> ParseDeadlineTime(deadlineTime).Some?
    ensures r.Some? ==>
      var t := ParseDeadlineTime(deadlineTime).value;
      var d := r.value;
      && d.diff >= 0
      && (DeadlineOn(now, t) >= now ==> d.diff == DeadlineOn(now, t) - now)
      && (DeadlineOn(now, t) < now ==> d.diff == AddDays(DeadlineOn(now, t), 1) - now)
      && 0 <= d.hoursLeft && 0 <= d.minutesLeft < 60
      && d.hoursLeft * HourMs + d.minutesLeft * MinuteMs <= d.diff < d.hoursLeft * HourMs + d.minutesLeft * MinuteMs + MinuteMs
      && (IsClockTime(t) ==> d.diff < DayMs && d.hoursLeft < 24)
  {
    match ParseDeadlineTime(deadlineTime)
    case None => None
    case Some(t) =>
      var today := DeadlineOn(now, t);
      var deadline := if today < now then AddDays(today, 1) else today;
      var diff := deadline - now;
      Some(Countdown(diff, diff / HourMs, (diff % HourMs) / MinuteMs))
  }

  /** The `now`/`deadline` steps of `updateTimer`, as the source takes them. */
  method ComputeCountdown(deadlineTime: string, now: int) returns (r: Option<Countdown>)
    ensures r == CountdownAt(deadlineTime, now)
  {
    var parsed := ParseDeadlineTime(deadlineTime);
    if parsed.None? {
      return None;
    }
    var deadline := DeadlineOn(now, parsed.value);
    if deadline < now {
      deadline := AddDays(deadline, 1);
    }
    var diff := deadline - now;
    var hoursLeft := diff / HourMs;
    var minutesLeft := (diff % HourMs) / MinuteMs;
    r := Some(Countdown(diff, hoursLeft, minutesLeft));
  }

  /** The exact-match test of the reminder is "between one hour and one hour and a minute are left". */
  lemma {:induction false} ReminderWindow(deadlineTime: string, now: int)
    requires CountdownAt(deadlineTime, now).Some?
    ensures var d := CountdownAt(deadlineTime, now).value;
      d.hoursLeft == 1 && d.minutesLeft == 0 <==> HourMs <= d.diff < HourMs + MinuteMs
  {
  }

  /** `${hoursLeft}h ${minutesLeft}m`, "NaNh NaNm" when the deadline does not parse. */
  function CountdownText(r: Option<Countdown>): (t: string)
    ensures r.None? ==> t == "NaNh NaNm"
    ensures r.Some? ==>
      Text.Split(t, ' ') == [Text.IntToDecimal(r.value.hoursLeft) + "h", Text.IntToDecimal(r.value.minutesLeft) + "m"]
    ensures r.Some? ==>
      && Text.Contains(t, Text.IntToDecimal(r.value.hoursLeft) + "h ")
      && Text.Contains(t, Text.IntToDecimal(r.value.minutesLeft) + "m")
    ensures |t| >= 5 && t[|t| - 1] == 'm'
  {
    match r
    case None => "NaNh NaNm"
    case Some(d) =>
      var hours := Text.IntToDecimal(d.hoursLeft) + "h ";
      var minutes := Text.IntToDecimal(d.minutesLeft) + "m";
      Text.ContainsTrivial(hours);
      Text.ContainsExtend(hours, hours, minutes);
      Text.ContainsEnd(hours, minutes);
      CountdownSplit(Text.IntToDecimal(d.hoursLeft), Text.IntToDecimal(d.minutesLeft));
      hours + minutes
  }

  /** The countdown text splits at its one space into the hours piece and the minutes piece. */
  lemma CountdownSplit(h: string, m: string)
    requires ' ' !in h && ' ' !in m
    ensures Text.Split((h + "h ") + (m + "m"), ' ') == [h + "h", m + "m"]
  {
    assert ' ' !in h + "h";
    assert ' ' !in m + "m";
    Text.SplitCons(h + "h", ' ', m + "m");
    Text.SplitNone(m + "m", ' ');
    assert (h + "h ") + (m + "m") == (h + "h") + [' '] + (m + "m");
  }

  /** The reminder fires when exactly one hour and no minutes are left and the member has not paid today. */
  predicate ReminderDue(r: Option<Countdown>, mine: Option<Contribution>)
    ensures ReminderDue(r, mine) ==>
      r.Some? && mine.None? && r.value.hoursLeft * HourMs + r.value.minutesLeft * MinuteMs == HourMs
  {
    r.Some? && r.value.hoursLeft == 1 && r.value.minutesLeft == 0 && mine.None?
  }

  /** The reminder `updateTimer` sends: it names the daily amount and the deadline. */
  function ReminderNotification(user: Option<User>, g: ChamaGroup, now: int): (n: Notification)
    ensures n.kind == Reminder && !n.isRead && n.groupId == g.id && n.createdAt == now
    ensures n.title == "Contribution Reminder"
    ensures n.userId == if user.Some? then user.value.id else ""
    ensures Text.Contains(n.message, Text.IntToDecimal(g.dailyAmount)) && Text.Contains(n.message, g.deadlineTime)
  {
    var lead := "Don't forget to make your daily contribution of KES ";
    var amount := Text.IntToDecimal(g.dailyAmount);
    var middle := ". Deadline is at ";
    Text.ContainsEnd(lead, amount);
    Text.ContainsExtend(lead + amount, amount, middle);
    Text.ContainsExtend(lead + amount + middle, amount, g.deadlineTime);
    Text.ContainsExtend(lead + amount + middle + g.deadlineTime, amount, ".");
    Text.ContainsEnd(lead + amount + middle, g.deadlineTime);
    Text.ContainsExtend(lead + amount + middle + g.deadlineTime, g.deadlineTime, ".");
    Notification(
      "", if user.Some? then user.value.id else "", g.id, Reminder, "Contribution Reminder",
      lead + amount + middle + g.deadlineTime + ".",
      false, now)
  }

  /**
   * One tick of `updateTimer` at `now`: with a current group, compute the countdown text and,
   * when the reminder is due, add the reminder notification under `notificationId`.
   */
  method UpdateTimer(store: Store.AppStore, now: int, notificationId: string) returns (timeUntilDeadline: Option<string>)
    requires store.Valid()
    modifies store
    ensures store.Valid()
    ensures old(store.currentGroup).None? ==> timeUntilDeadline.None? && unchanged(store)
    ensures old(store.currentGroup).Some? ==>
      var g := old(store.currentGroup).value;
      var cd := CountdownAt(g.deadlineTime, now);
      var mine := MyTodayContribution(TodaysContributions(old(store.contributions), Some(g), now), old(store.currentUser));
      && timeUntilDeadline == Some(CountdownText(cd))
      && (ReminderDue(cd, mine) ==>
          && store.notifications == [ReminderNotification(old(store.currentUser), g, now).(id := notificationId)] + old(store.notifications)
          && store.unreadCount == old(store.unreadCount) + 1
          && store.currentUser == old(store.currentUser) && store.isAuthenticated == old(store.isAuthenticated)
          && store.currentGroup == old(store.currentGroup) && store.groups == old(store.groups)
          && store.contributions == old(store.contributions) && store.todayContributions == old(store.todayContributions)
          && store.paymentMethods == old(store.paymentMethods)
          && store.isLoading == old(store.isLoading) && store.error == old(store.error))
      && (!ReminderDue(cd, mine) ==> unchanged(store))
  {
    if store.currentGroup.None? {
      return None;
    }
    var g := store.currentGroup.value;
    var cd := ComputeCountdown(g.deadlineTime, now);
    timeUntilDeadline := Some(CountdownText(cd));
    var mine := MyTodayContribution(TodaysContributions(store.contributions, Some(g), now), store.currentUser);
    if cd.Some? && cd.value.hoursLeft == 1 && cd.value.minutesLeft == 0 && mine.None? {
      store.AddNotification(ReminderNotification(store.currentUser, g, now), notificationId);
    }
  }

  // ---------------------------------------------------------------- payment

  /** `now > deadline` for today's deadline. False when the deadline does not parse (a comparison with NaN). */
  predicate IsLate(deadlineTime: string, now: int)
    ensures IsLate(deadlineTime, now) ==> ParseDeadlineTime(deadlineTime).Some?
  {
    match ParseDeadlineTime(deadlineTime)
    case None => false
    case Some(t) => now > DeadlineOn(now, t)
  }

  /** A payment is late exactly when the time of day of `now` is after the deadline's; one at the deadline instant is on time. */
  lemma PaymentLateIffAfterDeadline(deadlineTime: string, now: int)
    ensures IsLate(deadlineTime, now) <==>
      ParseDeadlineTime(deadlineTime).Some? && now % DayMs > OffsetMs(ParseDeadlineTime(deadlineTime).value)
  {
    if ParseDeadlineTime(deadlineTime).Some? {
      PastDeadlineIffLaterTimeOfDay(now, ParseDeadlineTime(deadlineTime).value);
    }
  }

  /** The penalty `handlePayment` charges. */
  function PenaltyFor(g: ChamaGroup, now: int): (p: int)
    ensures p == g.penaltyAmount <==> IsLate(g.deadlineTime, now) || g.penaltyAmount == 0
    ensures !IsLate(g.deadlineTime, now) ==> p == 0
  {
    if IsLate(g.deadlineTime, now) then g.penaltyAmount else 0
  }

  /** The contribution `handlePayment` records (before the store gives it an id). */
  function PaymentRecord(user: User, g: ChamaGroup, now: int, paymentMethod: string, transactionId: string): (c: Contribution)
    ensures c.status == Paid || c.status == Late
    ensures c.paymentMethod == Some(paymentMethod) && c.transactionId == Some(transactionId)
    ensures c.id == "" && c.userId == user.id && c.groupId == g.id
  {
    var penalty := PenaltyFor(g, now);
    Contribution(
      "", user.id, g.id, g.dailyAmount + penalty, now,
      if IsLate(g.deadlineTime, now) then Late else Paid,
      Some(paymentMethod), Some(transactionId), Some(now),
      if penalty > 0 then Some(penalty) else None)
  }

  /**
   * A recorded payment is late exactly when it came after today's deadline, it is then charged
   * the group's penalty, its amount is the daily amount plus that penalty, and the penalty is
   * stored exactly when it is positive.
   */
  lemma PaymentRecordFacts(user: User, g: ChamaGroup, now: int, paymentMethod: string, transactionId: string)
    ensures var c := PaymentRecord(user, g, now, paymentMethod, transactionId);
      && (c.status == Late <==> IsLate(g.deadlineTime, now))
      && (c.status == Paid <==> !IsLate(g.deadlineTime, now))
      && c.amount == g.dailyAmount + (if c.status == Late then g.penaltyAmount else 0)
      && (c.penaltyAmount.Some? <==> c.status == Late && g.penaltyAmount > 0)
      && (g.penaltyAmount >= 0 ==> c.amount == g.dailyAmount + c.penaltyAmount.GetOr(0))
      && c.userId == user.id && c.groupId == g.id && c.date == now && c.paidAt == Some(now)
      && c.paymentMethod == Some(paymentMethod) && c.transactionId == Some(transactionId)
  {
  }

  /**
   * For the seed group (deadline "20:00", daily 100, penalty 20): a payment is late exactly
   * when it is made after 20:00, and a late one records 120 with a penalty of 20.
   */
  lemma MockGroupPayment(user: User, now: int, paymentMethod: string, transactionId: string)
    ensures var c := PaymentRecord(user, Store.MockGroup, now, paymentMethod, transactionId);
      && (c.status == Late <==> now % DayMs > 20 * HourMs)
      && (c.status == Late ==> c.amount == 120 && c.penaltyAmount == Some(20))
      && (c.status != Late ==> c.status == Paid && c.amount == 100 && c.penaltyAmount == None)
  {
    ParseTwentyHundred();
    PaymentLateIffAfterDeadline(Store.MockGroup.deadlineTime, now);
  }

  /** The confirmation `handlePayment` sends: it names the daily amount and, when one was charged, the penalty. */
  function ConfirmationNotification(user: User, g: ChamaGroup, now: int): (n: Notification)
    ensures n.kind == System && !n.isRead && n.userId == user.id && n.groupId == g.id && n.createdAt == now
    ensures n.title == "Payment Confirmed"
    ensures Text.Contains(n.message, Text.IntToDecimal(g.dailyAmount))
    ensures PenaltyFor(g, now) > 0 ==> Text.Contains(n.message, " + KES " + Text.IntToDecimal(PenaltyFor(g, now)) + " penalty")
    ensures PenaltyFor(g, now) <= 0 ==>
      n.message == "Your contribution of KES " + Text.IntToDecimal(g.dailyAmount) + " has been recorded."
  {
    var penalty := PenaltyFor(g, now);
    var lead := "Your contribution of KES ";
    var amount := Text.IntToDecimal(g.dailyAmount);
    var charged := if penalty > 0 then " + KES " + Text.IntToDecimal(penalty) + " penalty" else "";
    var tail := " has been recorded.";
    Text.ContainsEnd(lead, amount);
    Text.ContainsExtend(lead + amount, amount, charged);
    Text.ContainsExtend(lead + amount + charged, amount, tail);
    Text.ContainsEnd(lead + amount, charged);
    Text.ContainsExtend(lead + amount + charged, charged, tail);
    assert penalty <= 0 ==> lead + amount + charged == lead + amount;
    Notification("", user.id, g.id, System, "Payment Confirmed", lead + amount + charged + tail, false, now)
  }

  /**
   * `handlePayment(paymentMethod, transactionId)` at `now`: with a signed-in user and a group,
   * record one contribution (paid, or late with the penalty) and one confirmation; otherwise
   * do nothing.
   */
  method HandlePayment(store: Store.AppStore, now: int, paymentMethod: string, transactionId: string,
                       contributionId: string, notificationId: string)
    requires store.Valid()
    modifies store
    ensures store.Valid()
    ensures old(store.currentUser).None? || old(store.currentGroup).None? ==> unchanged(store)
    ensures old(store.currentUser).Some? && old(store.currentGroup).Some? ==>
      var user, g := old(store.currentUser).value, old(store.currentGroup).value;
      var c := PaymentRecord(user, g, now, paymentMethod, transactionId).(id := contributionId);
      && store.contributions == old(store.contributions) + [c]
      && store.todayContributions == old(store.todayContributions) + [c]
      && store.notifications == [ConfirmationNotification(user, g, now).(id := notificationId)] + old(store.notifications)
      && store.unreadCount == old(store.unreadCount) + 1
      && store.currentUser == old(store.currentUser) && store.isAuthenticated == old(store.isAuthenticated)
      && store.currentGroup == old(store.currentGroup) && store.groups == old(store.groups)
      && store.paymentMethods == old(store.paymentMethods)
      && store.isLoading == old(store.isLoading) && store.error == old(store.error)
  {
    if store.currentUser.None? || store.currentGroup.None? {
      return;
    }
    var user, g := store.currentUser.value, store.currentGroup.value;
    var parsed := ParseDeadlineTime(g.deadlineTime);

    var status := Paid;
    var penaltyAmount := 0;
    if parsed.Some? && now > DeadlineOn(now, parsed.value) {
      status := Late;
      penaltyAmount := g.penaltyAmount;
    }

    var record := Contribution(
      "", user.id, g.id, g.dailyAmount + penaltyAmount, now, status,
      Some(paymentMethod), Some(transactionId), Some(now),
      if penaltyAmount > 0 then Some(penaltyAmount) else None);
    assert record == PaymentRecord(user, g, now, paymentMethod, transactionId);
    store.AddContribution(record, contributionId);
    store.AddNotification(ConfirmationNotification(user, g, now), notificationId);
  }

  // ---------------------------------------------------------------- pause / resume

  /**
   * `handlePauseResume()`: only an admin with a current group acts; a paused group is resumed,
   * a running one is paused when the prompt (`reason`, None when cancelled) gave a non-empty reason.
   */
  method HandlePauseResume(store: Store.AppStore, reason: Option<string>)
    requires store.Valid()
    modifies store
    ensures store.Valid()
    ensures old(store.currentGroup).None? || old(store.currentUser).None? || old(store.currentUser).value.role != Admin ==>
      unchanged(store)
    ensures old(store.currentGroup).Some? && old(store.currentUser).Some? && old(store.currentUser).value.role == Admin ==>
      var g := old(store.currentGroup).value;
      var change :=
        if g.isPaused then Some(Store.Resume)
        else if reason.Some? && reason.value != "" then Some(Store.Pause(reason.value))
        else None;
      && (change.None? ==> unchanged(store))
      && (change.Some? ==>
          && store.currentGroup == Store.ChangeCurrent(old(store.currentGroup), g.id, change.value)
          && store.groups == Store.ChangeGroups(old(store.groups), g.id, change.value)
          && store.currentUser == old(store.currentUser) && store.isAuthenticated == old(store.isAuthenticated)
          && store.contributions == old(store.contributions) && store.todayContributions == old(store.todayContributions)
          && store.notifications == old(store.notifications) && store.unreadCount == old(store.unreadCount)
          && store.paymentMethods == old(store.paymentMethods)
          && store.isLoading == old(store.isLoading) && store.error == old(store.error))
  {
    if store.currentGroup.None? || store.currentUser.None? || store.currentUser.value.role != Admin {
      return;
    }
    var g := store.currentGroup.value;
    if g.isPaused {
      store.ResumeGroup(g.id);
    } else if reason.Some? && reason.value != "" {
      store.PauseGroup(g.id, reason.value);
    }
  }
}
