# Chama contributions — a Dafny model

This project models the core of a chama (rotating savings group) web app. Members pay a fixed
daily amount before a daily deadline. A payment after the deadline is late and carries a
penalty. Each day one member, picked by a rotation order, receives the day's pot. An admin can
pause and resume the group.

The model covers:

- the application store (`src/store/useStore.ts`): the `AppStore` class, its fields and every action;
- what the dashboard derives and does (`src/pages/Dashboard.tsx`): today's recipient and
  figures, the deadline countdown and reminder, recording a payment, pause/resume;
- the 30-day payout schedule (`src/pages/Schedule.tsx`), kept as the source's loop;
- the report totals (`src/pages/Reports.tsx`), the day listing of contributions
  (`src/pages/Contributions.tsx`) and the member figures (`src/pages/Members.tsx`);
- the records of `src/types/index.ts`.

Instants are integers (milliseconds since the epoch) in one fixed local time zone. The calendar
day of an instant `t` is `t / 86400000`. The current instant and the ids the source draws from
`Date.now()` are parameters.

Modules:

- `Wrappers.Option` stands for `undefined`/`null`.
- `Seqs` holds `filter`, `find`, `findIndex`, `reduce` and conditional `map`, with their lemmas.
- `Text` covers `split`, decimal parsing and printing, ASCII `toLowerCase` and `includes`.
- `Numbers` has the JavaScript remainder and `Math.round` of a percentage.
- `Clock` has day arithmetic and the "HH:MM" deadline.
- `Types` holds the records and the partial updates the store merges into them.
- One module per view.

Where the written description of the app and the code differ, the model follows the code:

- Payments are compared against the deadline with seconds and milliseconds set to zero. So a
  payment made exactly at the deadline instant is on time, and one a millisecond later is late.
- A group whose rotation is empty yields an empty schedule. The source computes `NaN` there and
  finds no recipient; the model does not exclude that case.
- The dashboard's progress percentage divides without a guard. With nothing expected it shows
  `NaN%` or `Infinity%`; the model returns `None` there.

## Model

| member | source | states |
|---|---|---|
| Store.MockGroupWellFormed | src/store/useStore.ts:42-105 | The seed group has five members with distinct ids. Its rotation order is exactly the members' ids in member order, and its recipient index points inside the rotation. |
| Store.Authenticate | src/store/useStore.ts:133-134 | A login succeeds exactly when some seed user has the e-mail and the password is "password". The user returned is that seed user. |
| Store.AuthenticateAdmin | src/store/useStore.ts:42-50 | john@example.com with "password" signs in as the first seed user, the admin. |
| Store.AuthenticateRefused | src/store/useStore.ts:133-146 | A wrong password, or an e-mail no seed user has, is refused. |
| Store.FindUserByEmail | src/store/useStore.ts:133 | Finds nothing exactly when no user has the e-mail; otherwise finds a user from the list with that e-mail. |
| Store.FindUserByEmailFirst | src/store/useStore.ts:133 | The user found is the one at the first index holding the e-mail, as `find` returns the first match. |
| Store.AppStore.constructor | src/store/useStore.ts:114-126 | The initial state: signed out, no current group, the seed group as the only group, no contributions or notifications, unread count 0, the seed payment methods, not loading, no error. |
| Store.AppStore.Login | src/store/useStore.ts:129-147 | On good credentials the user is signed in with the seed group current. Otherwise the error is "Invalid credentials" and the session is untouched. Either way loading ends and all data fields are unchanged. |
| Store.AppStore.SignIn | src/store/useStore.ts:135-140 | The success branch of login: the user is set, authenticated, with the seed group current; everything else is kept. |
| Store.AppStore.RejectCredentials | src/store/useStore.ts:142-145 | The failure branch of login: the error is set and loading ends; the session and all data are kept. |
| Store.AppStore.Logout | src/store/useStore.ts:149-159 | The session, the current group, both contribution lists and the notifications are cleared, and the unread count is 0. The groups, payment methods, loading flag and error are kept. |
| Store.AppStore.SetCurrentGroup | src/store/useStore.ts:161-163 | Only the current group changes. |
| Store.AppStore.AddContribution | src/store/useStore.ts:165-175 | The record, with the new id, is appended to both the contribution log and today's list. Nothing else changes. |
| Store.UpdateContributions | src/store/useStore.ts:179-184 | Same length. Each record with the id becomes its merge with the update; every other record is unchanged. A list without the id is returned as is. |
| Store.AppStore.UpdateContribution | src/store/useStore.ts:177-186 | Both contribution lists are rewritten by UpdateContributions; nothing else changes. |
| Store.AppStore.AddNotification | src/store/useStore.ts:188-198 | The notification, with the new id, is put first, and the unread count goes up by one. Nothing else changes. |
| Store.MarkRead | src/store/useStore.ts:202-204 | Same length. The notifications with the id are marked read; every other notification is unchanged. |
| Store.AppStore.MarkNotificationRead | src/store/useStore.ts:200-207 | The notifications are rewritten by MarkRead. The unread count drops by one but not below 0, even when no notification has the id. Nothing else changes. |
| Store.ChangeGroups | src/store/useStore.ts:214-216 | Same length. Exactly the groups with the id get the change; the others are unchanged. A list without the id is returned as is. |
| Store.ApplyChange | src/store/useStore.ts:209-240 | A pause sets paused with the reason, a resume clears both; either touches no other field. A settings update without an id keeps the group's id. |
| Store.ChangeCurrent | src/store/useStore.ts:211-213 | A current group stays present or absent. A current group with the id becomes that group with the change applied; one with another id is unchanged. |
| Store.AppStore.ChangeGroup | src/store/useStore.ts:209-240 | The current group and the group list change as ChangeCurrent and ChangeGroups say; nothing else changes. |
| Store.AppStore.PauseGroup | src/store/useStore.ts:209-218 | Every group with the id, current or listed, becomes paused with the reason. Only those fields change. |
| Store.AppStore.ResumeGroup | src/store/useStore.ts:220-229 | Every group with the id, current or listed, becomes running with no reason. Only those fields change. |
| Store.AppStore.UpdateGroupSettings | src/store/useStore.ts:231-240 | Every group with the id, current or listed, is merged with the partial update; nothing else changes. |
| Store.PauseThenResume | src/store/useStore.ts:209-229 | Pausing and then resuming a group gives the same group list and current group as resuming alone. Each group with the id is then running and has no reason. |
| Store.ResumedGroups | src/store/useStore.ts:220-229 | After a resume, every group with the id is not paused and has no reason. |
| Store.SettingsKeepId | src/store/useStore.ts:231-240 | A settings update that does not set the id changes no group's id. So it reaches exactly the groups that had the id. |
| Store.PauseResumeScenario | src/store/useStore.ts:209-229 | Calling pauseGroup then resumeGroup on the store leaves the groups as resuming alone would. The current group with that id is then running. |
| Types.StatusNameInjective | src/types/index.ts:35 | The four status names are distinct, and none is "all"; so the status filter can tell them apart. |
| Types.MergeContributionLaws | src/types/index.ts:29-40 | Merging an empty update changes nothing, merging is idempotent, and an update without an id keeps the record's id. |
| Types.MergeGroupLaws | src/types/index.ts:11-27 | Likewise for groups: the empty update is the identity, merging is idempotent, and an update without an id keeps the group's id. |
| Types.MergeContribution | src/store/useStore.ts:180 | `{ ...c, ...updates }`: the empty update keeps the record. An update without an id keeps the id. The status is the update's when it sets one, the record's otherwise. |
| Types.MergeGroup | src/store/useStore.ts:234 | `{ ...g, ...updates }`: the empty update keeps the group. An update without an id keeps the id. One that sets neither members nor rotation keeps both. |
| Types.RotationId | src/types/index.ts:20-21 | `rotationOrder[index]` is defined exactly for an index inside the array, and is then the id at that index. |
| Types.FindMember | src/types/index.ts:11-27 | Finds nothing exactly when no member has the id; otherwise finds a member of the group with that id. |
| Types.FindMemberFirst | src/pages/Dashboard.tsx:36 | The member found is the one at the first index holding the id, as `find` returns the first match. |
| Types.FindMemberDistinct | src/types/index.ts:11-27 | With distinct ids, the lookup of a member's id finds that member. |
| Types.MemberIds | src/types/index.ts:19-20 | The ids of the members, one per member, in member order. |
| Seqs.FilterMember | src/pages/Dashboard.tsx:40-42 | An element is kept exactly when it occurs in the input and passes the test. |
| Seqs.Filter | src/pages/Dashboard.tsx:40-42 | `filter` keeps at most as many elements as it is given. |
| Seqs.FilterSame | src/pages/Members.tsx:152-153 | Two tests that agree on every element filter any list alike. |
| Seqs.FilterConcat | src/pages/Contributions.tsx:14-26 | Filtering a concatenation is concatenating the filtered parts, so the filter keeps the order. |
| Seqs.FilterComplementLength | src/pages/Members.tsx:56 | A test and its negation between them keep every element exactly once. |
| Seqs.FindIndex | src/pages/Members.tsx:143 | Returns -1 exactly when nothing matches. Otherwise it returns the first match: the element there matches and none before it does. |
| Seqs.FindFirst | src/pages/Dashboard.tsx:36 | What `find` returns is the element at the first index where the test holds. |
| Seqs.Find | src/pages/Dashboard.tsx:36 | Finds nothing exactly when nothing matches; otherwise finds a matching element of the list. |
| Seqs.SumOfConcat | src/pages/Reports.tsx:55 | Sums split over concatenation. |
| Seqs.SumOf | src/pages/Dashboard.tsx:45 | The `reduce` sum is never negative when every summand is non-negative. |
| Seqs.SumOfFilterUnion | src/pages/Reports.tsx:63-68 | Summing over the records two disjoint tests accept equals summing over each test separately. |
| Seqs.SumOfSurcharge | src/pages/Dashboard.tsx:45 | When each amount is a base plus a surcharge for the flagged records, the sum is count × base + flagged × surcharge. |
| Seqs.MapWhere | src/store/useStore.ts:214-216 | The conditional `map` keeps the length, changes exactly the elements that match, and returns a list without matches as is. |
| Seqs.MapWhereAbsorb | src/store/useStore.ts:214-227 | A second conditional update erases a first one when it ignores what the first did and the first keeps the elements matching. |
| Seqs.IndicesBelowFacts | src/pages/Schedule.tsx:24-40 | A day below n is listed exactly when the test holds for it, and the days are listed in increasing order. |
| Seqs.IndicesBelowAll | src/pages/Schedule.tsx:24-40 | All n days are listed exactly when the test holds for every one of them, and then the k-th listed day is k. |
| Text.JoinSplit | src/pages/Dashboard.tsx:56 | Splitting at a separator and joining again gives back the text. |
| Text.SplitCons | src/pages/Dashboard.tsx:56 | Splitting text that starts with a separator-free piece then the separator gives that piece, then the split of the rest. |
| Text.ParseNatToDecimal | src/pages/Dashboard.tsx:56 | Reading back a printed natural number gives the number. |
| Text.IntToDecimal | src/pages/Dashboard.tsx:68 | The printed integer is non-empty and made of digits, with a leading "-" only for a negative number. |
| Text.ToLower | src/pages/Contributions.tsx:22 | Lower-casing keeps the length and maps each character by itself. |
| Text.Split | src/pages/Dashboard.tsx:56 | `split` gives at least one piece, and no piece holds the separator. |
| Text.ParseDecimal | src/pages/Dashboard.tsx:56 | `Number()` of a field is a number exactly when the field is all digits. |
| Text.ContainsTrivial | src/pages/Contributions.tsx:22 | Every text contains the empty text and itself; used by the search and the countdown text. |
| Text.ContainsEnd | src/pages/Dashboard.tsx:77 | A text contains what it ends with. |
| Text.ContainsExtend | src/pages/Dashboard.tsx:77 | A text still contains a piece after more text is appended. |
| Numbers.JsRem | src/pages/Schedule.tsx:26 | JavaScript's `%`: the result has the sign of the dividend and is smaller than the divisor in magnitude. |
| Numbers.JsRemNonNegative | src/pages/Schedule.tsx:26 | For a non-negative dividend, JavaScript's `%` equals the mathematical remainder. |
| Numbers.JsRemNegative | src/pages/Schedule.tsx:26 | For a negative dividend, JavaScript's `%` is minus the remainder of the dividend's magnitude. |
| Numbers.RoundPercent | src/pages/Reports.tsx:60 | `Math.round(num / den * 100)`: the nearest integer to 100·num/den, with halves rounded up. |
| Numbers.RoundPercentBounds | src/pages/Reports.tsx:60 | A share of a whole rounds to between 0 and 100; the whole rounds to 100 and nothing to 0. |
| Clock.StartOfDay | src/pages/Dashboard.tsx:58 | Midnight at or before an instant: a whole number of days, on the same calendar day and less than a day before it. |
| Clock.DayOfAddDays | src/pages/Schedule.tsx:25 | Adding n days moves the calendar day by n. |
| Clock.ParseDeadlineTime | src/pages/Dashboard.tsx:56 | The deadline parses exactly when it has a second colon-separated field and its first two fields are numbers (digit strings). |
| Clock.ParseFormatTimeOfDay | src/pages/Dashboard.tsx:56 | A time of day printed as "HH:MM" parses back to itself. |
| Clock.ParseTwentyHundred | src/store/useStore.ts:96 | The seed deadline "20:00" parses to 20 h 0 min. |
| Clock.DeadlineOn | src/pages/Dashboard.tsx:57-58 | Today's deadline is no earlier than midnight. For a valid clock time it falls on the same calendar day, at exactly the deadline's hours and minutes after midnight. |
| Clock.PastDeadlineIffLaterTimeOfDay | src/pages/Dashboard.tsx:108 | An instant is past today's deadline exactly when its time of day is later than the deadline's. |
| Dashboard.TodaysRecipient | src/pages/Dashboard.tsx:33-37 | With no group there is none. Otherwise it is a member whose id is the rotation slot at the recipient index. When none is shown, no member has that id. |
| Dashboard.TodaysContributions | src/pages/Dashboard.tsx:40-42 | A record is listed exactly when it is in the log, dated on today's calendar day, and belongs to the current group. |
| Dashboard.MyTodayContribution | src/pages/Dashboard.tsx:44 | Nothing is found exactly when there is no user or no listed record of theirs; otherwise a listed record with the user's id is found. |
| Dashboard.MyTodayContributionFirst | src/pages/Dashboard.tsx:44 | The record found is the first of today's records with the user's id. |
| Dashboard.TodayStats | src/pages/Dashboard.tsx:45-48 | The total collected is the sum of the amounts of today's records and paid is their number. Paid plus pending is the number of members. The expected total is members × daily amount. Paid never exceeds the log's length. With no group everything is 0. |
| Dashboard.CollectedFromPayments | src/pages/Dashboard.tsx:45-48 | When every record today was made as handlePayment makes it, the total is paid × daily amount + late × penalty. With nobody pending and nobody late, it equals the expected total. |
| Dashboard.ProgressPercent | src/pages/Dashboard.tsx:261 | Undefined (NaN/Infinity) exactly when nothing is expected. Otherwise it is the rounded percentage of collected over expected, for a positive and for a negative expected total alike; between 0 and 100 when no more than expected was collected, and 100 for the full amount. |
| Dashboard.CountdownAt | src/pages/Dashboard.tsx:55-66 | Defined exactly when the deadline parses. The time left is never negative: it runs to today's deadline, or to tomorrow's once today's has passed. The whole hours and the minutes (below 60) bracket it to the minute. For a valid clock time less than a day is left. |
| Dashboard.ComputeCountdown | src/pages/Dashboard.tsx:55-66 | The timer's steps compute CountdownAt. |
| Dashboard.ReminderWindow | src/pages/Dashboard.tsx:71 | "1 h 0 m left" holds exactly when between one hour and one hour plus a minute remain. |
| Dashboard.CountdownText | src/pages/Dashboard.tsx:68 | "NaNh NaNm" without a countdown. Otherwise splitting the text at spaces gives exactly the hours followed by "h" and the minutes followed by "m"; the text ends in "m". |
| Dashboard.CountdownSplit | src/pages/Dashboard.tsx:68 | Text of the form "<h>h <m>m", with no space in h or m, splits at the space into "<h>h" and "<m>m". |
| Dashboard.ReminderDue | src/pages/Dashboard.tsx:71 | The reminder is due only with a countdown of exactly one hour (1 h 0 m) and no payment by the user today. |
| Dashboard.ReminderNotification | src/pages/Dashboard.tsx:72-80 | An unread reminder titled "Contribution Reminder" for the signed-in user (empty id when none) in the group, created now. Its message contains the daily amount and the deadline. |
| Dashboard.UpdateTimer | src/pages/Dashboard.tsx:51-89 | Does nothing without a group. Otherwise it returns the countdown text. When the reminder is due, it prepends the reminder and raises the unread count; otherwise the store is unchanged. |
| Dashboard.IsLate | src/pages/Dashboard.tsx:101-108 | A payment can be late only when the deadline parses. |
| Dashboard.PaymentLateIffAfterDeadline | src/pages/Dashboard.tsx:100-111 | A payment is late exactly when its time of day is after the deadline's. |
| Dashboard.PenaltyFor | src/pages/Dashboard.tsx:105-111 | An on-time payment is charged nothing; a late one is charged the group's penalty. |
| Dashboard.PaymentRecord | src/pages/Dashboard.tsx:113-123 | The record is paid or late, it carries the payment method and the transaction id, and it is the payer's record in the group with no id yet. |
| Dashboard.PaymentRecordFacts | src/pages/Dashboard.tsx:105-123 | A late payment has status late, amount daily + penalty, and the penalty recorded when positive. An on-time one is paid, with the daily amount and no penalty. Both carry the user, the group, the method and the transaction. |
| Dashboard.MockGroupPayment | src/pages/Dashboard.tsx:105-123 | In the seed group a payment after 20:00 is late at 120 with penalty 20; any other payment is paid at 100 with no penalty. |
| Dashboard.ConfirmationNotification | src/pages/Dashboard.tsx:125-133 | An unread system notification titled "Payment Confirmed" for the payer in the group, created now. The message contains the daily amount. With a penalty it contains " + KES <penalty> penalty"; without one it is exactly "Your contribution of KES <daily> has been recorded." |
| Dashboard.HandlePayment | src/pages/Dashboard.tsx:97-134 | Without a user or a group nothing changes. Otherwise the payment record is appended to both contribution lists, the confirmation is put first, the unread count goes up by one, and nothing else changes. |
| Dashboard.HandlePauseResume | src/pages/Dashboard.tsx:136-149 | Only an admin with a current group acts. A paused group is resumed. A running one is paused when a non-empty reason is given; otherwise nothing happens. |
| Schedule.EntryFor | src/pages/Schedule.tsx:31-38 | Entry i is dated i days from now. It is "today" exactly for i = 0 and "future" exactly for i > 0; it is never past. It expects daily amount × members. |
| Schedule.RecipientAt | src/pages/Schedule.tsx:26-28 | An empty rotation has no recipient. A recipient found is a member whose id is in the rotation. |
| Schedule.ScheduledDays | src/pages/Schedule.tsx:24-30 | The days below n that have a recipient, each with a recipient. |
| Schedule.ScheduleUpTo | src/pages/Schedule.tsx:24-40 | One entry per day with a recipient, so no more entries than days. |
| Schedule.ScheduleStep | src/pages/Schedule.tsx:30-39 | One more loop round appends day n's entry when that day has a recipient, and nothing otherwise. |
| Schedule.LookUpRecipient | src/pages/Schedule.tsx:26-28 | The loop body's slot, id and member lookup finds exactly day i's recipient. |
| Schedule.GenerateSchedule | src/pages/Schedule.tsx:20-43 | The loop builds exactly the schedule of the first 30 days. |
| Schedule.ScheduledDaysFacts | src/pages/Schedule.tsx:24-30 | A day below n is scheduled exactly when its recipient is found, and the scheduled days increase. |
| Schedule.ScheduleContents | src/pages/Schedule.tsx:24-40 | Every day with a recipient has an entry. Each entry is for a day below n, names that day's recipient, and is dated that day. |
| Schedule.ScheduleOrdered | src/pages/Schedule.tsx:24-40 | The entries' dates strictly increase. |
| Schedule.ScheduleFull | src/pages/Schedule.tsx:24-40 | There are n entries exactly when every day has a recipient, and then entry i is day i's. |
| Schedule.AllDaysScheduled | src/pages/Schedule.tsx:24-40 | There are n scheduled days exactly when every day below n has a recipient. |
| Schedule.RotationPeriodic | src/pages/Schedule.tsx:26 | With a non-negative recipient index, day i + (rotation length) has the same recipient as day i. |
| Schedule.RecipientIsMember | src/pages/Schedule.tsx:26-28 | A day's recipient is a member whose id is the day's rotation slot. |
| Schedule.RecipientAtSlot | src/pages/Schedule.tsx:26-28 | The day whose slot is k gets the member looked up from rotation entry k. |
| Schedule.RecipientOfMemberOrder | src/pages/Schedule.tsx:26-28 | When the rotation is the member ids in order and ids are distinct, day i's recipient is the member at (index + i) mod member count. |
| Schedule.ScheduleFlags | src/pages/Schedule.tsx:34-36 | No entry is past. An entry is "today" exactly when dated now and "future" exactly when not today. Only the first entry can be today. |
| Schedule.MemberOrderSchedule | src/pages/Schedule.tsx:24-40 | For such a group every day is scheduled, the i-th entry's recipient is the member at (index + i) mod member count, and every entry expects members × daily amount. |
| Schedule.ScheduleFromFirstMember | src/pages/Schedule.tsx:24-40 | Starting from index 0, the members take turns in member order, day i going to member i mod member count. |
| Schedule.MockGroupSchedule | src/pages/Schedule.tsx:20-43 | For the seed group the 30-day schedule has 30 entries. Entry i goes to seed user i mod 5, and each expects 500. |
| Reports.DateRangeShape | src/pages/Reports.tsx:30-44 | Every range contains now when now lies in the month. The week and 30-day ranges reach back exactly 7 and 30 days. An unknown key falls back to the month. |
| Reports.GetDateRange | src/pages/Reports.tsx:30-44 | The today, week and 30-day ranges end at now and start no later. The today range starts at now. Any other key gives the month. |
| Reports.DateRangeFor | src/pages/Reports.tsx:30-44 | The corrected "today" range contains now and spans one day less a millisecond. Every other key gives the range as written. |
| Reports.TodayRangeIsOneInstant | src/pages/Reports.tsx:33-34 | As written, the "today" range admits only the instant now, not a record made a millisecond earlier. |
| Reports.TodayRangeIsToday | src/pages/Reports.tsx:33-34 | The corrected "today" range admits exactly the instants on now's calendar day. |
| Reports.FilteredContributions | src/pages/Reports.tsx:49-52 | A record is kept exactly when it is in the log, dated within the range, and belongs to the group. |
| Reports.RateOf | src/pages/Reports.tsx:60 | The rounded percentage of a part of a whole, between 0 and 100. It is 0 when the whole or the part is 0, and 100 for the whole. |
| Reports.Summarize | src/pages/Reports.tsx:55-60 | The count is the number of records. Paid and late are the numbers of records with those statuses; together they never exceed the count. The on-time rate is RateOf(paid, count): between 0 and 100, and 0 without records. The totals are the sums of amounts and penalties. |
| Reports.OnTimeRateExtremes | src/pages/Reports.tsx:57-60 | The on-time rate is 100 when every record is paid, and 0 when none is. |
| Reports.StatFor | src/pages/Reports.tsx:63-78 | Over the member's own records: the count, the on-time and late counts by status, the total paid as the sum of amounts and the penalties as the sum of penalties. On-time plus late never exceeds the count. The rate is RateOf(on-time, count), between 0 and 100. A member without records has rate, total and penalties 0. |
| Reports.MemberStats | src/pages/Reports.tsx:63-79 | One row per member, in member order, each that member's StatFor. |
| Reports.MemberTotalsCover | src/pages/Reports.tsx:63-79 | With distinct ids, the members' totals add up to the sum over the records that belong to some member. |
| Reports.MemberTotalsSum | src/pages/Reports.tsx:55-79 | When every record belongs to a member and ids are distinct, the members' totals add up to the report's total collected. |
| Contributions.ListedContributions | src/pages/Contributions.tsx:14-26 | A record is listed exactly when it is in the log, dated on the selected day, matches the status filter and the search, and belongs to the current group. |
| Contributions.SearchMatch | src/pages/Contributions.tsx:19-23 | An empty term matches every record. A non-empty term matches only when there is a group and a member with the record's user id. |
| Contributions.StatusMatch | src/pages/Contributions.tsx:17 | "all" matches every record; "paid" exactly the paid ones and "late" exactly the late ones. |
| Contributions.Listed | src/pages/Contributions.tsx:14-26 | A listed record belongs to the current group and the selected day. With "all" and no search term that is exactly the condition. |
| Contributions.ListingFacts | src/pages/Contributions.tsx:14-26 | Listed records belong to the current group and the selected day. Without a group nothing is listed. The listing keeps the log's order. |
| Contributions.StatusFilter | src/pages/Contributions.tsx:17 | "all" admits every status, a status name admits exactly that status, and any other value admits nothing. |
| Contributions.SearchFilter | src/pages/Contributions.tsx:19-23 | An empty search admits everything. A non-empty one admits a record exactly when its user is a member whose lower-cased name contains the lower-cased term. |
| Contributions.SearchByOwnName | src/pages/Contributions.tsx:19-23 | Searching for a member's own full name finds that member's records. |
| Contributions.Summarize | src/pages/Contributions.tsx:35-38 | Paid is the number listed and paid plus pending is the member count (0 without a group). The total is the sum of listed amounts; the expected total is members × daily amount. |
| Contributions.CollectionRate | src/pages/Contributions.tsx:158 | 0 when nothing is expected; otherwise the rounded percentage, between 0 and 100 when no more than expected was collected, and 100 for the full amount. |
| Members.ActiveCount | src/pages/Members.tsx:56 | At most the member count, and equal to it exactly when every member is active. |
| Members.AdminCount | src/pages/Members.tsx:70 | At most the member count, and equal to it exactly when every member is an admin. |
| Members.CountsPartition | src/pages/Members.tsx:43-70 | Active plus inactive members, and admins plus plain members, each make up the total. |
| Members.RotationPosition | src/pages/Members.tsx:143 | 0 exactly when the id is not in the rotation. Otherwise it is the 1-based position of the id's first occurrence. |
| Members.PositionInMemberOrder | src/pages/Members.tsx:143 | When the rotation is the member ids in order and ids are distinct, member i is at position i + 1. |
| Members.AtMostOneCurrentRecipient | src/pages/Members.tsx:145 | With distinct ids, at most one member carries the "Current Recipient" badge. |
| Members.IsCurrentRecipient | src/pages/Members.tsx:145 | A member carries the badge exactly when the recipient index is inside the rotation and the slot there is the member's id. |
| Members.BadgeAgreesWithDashboard | src/pages/Members.tsx:145 | With distinct ids, a member carries the badge exactly when the dashboard shows them as today's recipient. |
| Members.OneWithId | src/pages/Members.tsx:152-153 | With distinct ids, exactly one member has a given member's id. |
| Members.ShowsActions | src/pages/Members.tsx:152-153 | Row actions show only to an admin viewer, and never on the viewer's own row. |
| Members.AdminActsOnOthers | src/pages/Members.tsx:152-153 | An admin in the group gets row actions on every other member, member count − 1 rows, and never on their own row. |
| Members.NonAdminSeesNoActions | src/pages/Members.tsx:29-35 | Someone who is not an admin sees neither the "Add Member" button nor any row actions. |
| Members.ShowsAddMember | src/pages/Members.tsx:29-35 | The "Add Member" button shows exactly to a signed-in admin. |

## Left out

- Real time and time zones: `new Date()` is the parameter `now`. Calendar days are fixed
  86 400 000 ms blocks of one zone without daylight saving. `startOfMonth`/`endOfMonth` are
  parameters of the report range.
- Floating point: `Math.round(a / b * 100)` is computed exactly, with halves rounded up. Binary
  rounding of the quotient can differ at exact halves.
- `Number()` on the deadline's parts: only digit strings (and the empty string, which gives 0)
  are read. Signs, spaces, decimals and exponents count as NaN, so the countdown is undefined.
- `toLowerCase` is modelled for ASCII letters only.
- Asynchrony, `setInterval`, the loading flag's intermediate state during login, toasts, the
  `prompt` dialog (its answer is a parameter), and rendering and styling.
- Store.AppStore.AddContribution: the ids come from `Date.now()` and are parameters. The model
  does not promise that they are unique, because the source does not.
- Seqs.Find: its own contract says only that a matching element is found; that it is the first
  match is Seqs.FindFirst, a separate lemma, because a first-match clause on the function makes
  every lookup built on it costly to verify.
- Types.FindMember: likewise, the first-match property is Types.FindMemberFirst.
- Store.FindUserByEmail: likewise, the first-match property is Store.FindUserByEmailFirst.
- Dashboard.MyTodayContribution: likewise, the first-match property is
  Dashboard.MyTodayContributionFirst.
- Partial updates: for the optional record fields, an update that sets the field to `undefined`
  is modelled as `Some(None)`. The required fields have no such case: a `Partial<…>` spread that
  sets one of them to `undefined` would store `undefined`, and the model treats it as "not set".
- The payment modal, the settings page and the layout are not part of this model. Neither are
  the quick date buttons and status colours of the contributions page, the date labels of the
  schedule page, or the unused `DailyStatus` type.
- Dashboard.UpdateTimer: models one tick. The once-a-minute repetition and the timer's cleanup
  are left out.
- Schedule.ScheduleFlags: `isToday`/`isPast`/`isFuture` compare a schedule date with the
  clock at `now`. Within a tick, `addDays(now, 0)` is now itself, so no entry is past.

## Findings

| source | as written | input that shows it | evidently intended | confidence | as-written member | corrected member |
|---|---|---|---|---|---|---|
| src/pages/Reports.tsx:33-34 | the "today" report range is `{ start: now, end: now }`, a single instant | a contribution dated one millisecond before `now` on the same day (any earlier payment today) is excluded, so the report for today is empty | the whole calendar day of `now` | not executed | Reports.TodayRangeIsOneInstant | Reports.TodayRangeIsToday |
