/**
 * The records of the chama domain (src/types/index.ts), the partial updates the store merges
 * into them, and the member lookups shared by the views.
 */
module Types {
  import opened Wrappers
  import Seqs

  datatype Role = Admin | Member

  datatype User = User(
    id: string,
    name: string,
    email: string,
    phone: string,
    role: Role,
    isActive: bool,
    joinedAt: int)

  datatype ChamaGroup = ChamaGroup(
    id: string,
    name: string,
    description: string,
    dailyAmount: int,
    currency: string,
    deadlineTime: string,        // "HH:MM"
    penaltyAmount: int,
    members: seq<User>,
    rotationOrder: seq<string>,  // user ids in payout order
    currentRecipientIndex: int,
    isActive: bool,
    isPaused: bool,
    pauseReason: Option<string>,
    createdAt: int,
    adminId: string)

  datatype ContributionStatus = Pending | Paid | Late | Penalty

  /** The text of a status, as the status filter compares it. */
  function StatusName(s: ContributionStatus): string {
    match s
    case Pending => "pending"
    case Paid => "paid"
    case Late => "late"
    case Penalty => "penalty"
  }

  /** Distinct statuses have distinct names, and "all" names none of them. */
  lemma StatusNameInjective(s: ContributionStatus, t: ContributionStatus)
    ensures StatusName(s) == StatusName(t) <==> s == t
    ensures StatusName(s) != "all"
  {
  }

  datatype Contribution = Contribution(
    id: string,
    userId: string,
    groupId: string,
    amount: int,
    date: int,
    status: ContributionStatus,
    paymentMethod: Option<string>,
    transactionId: Option<string>,
    paidAt: Option<int>,
    penaltyAmount: Option<int>)

  datatype PaymentKind = Mobile | Bank

  datatype PaymentMethod = PaymentMethod(id: string, name: string, kind: PaymentKind, icon: string, isActive: bool)

  datatype NotificationKind = Reminder | PenaltyNotice | Payout | System

  datatype Notification = Notification(
    id: string,
    userId: string,
    groupId: string,
    kind: NotificationKind,
    title: string,
    message: string,
    isRead: bool,
    createdAt: int)

  /** The value of an updated field: the update's when it carries one, otherwise the current one. */
  function Pick<T>(update: Option<T>, current: T): T {
    if update.Some? then update.value else current
  }

  /**
   * `Partial<Contribution>`: None leaves a field alone. For an optional field, Some(None)
   * stands for an update that sets it to `undefined`.
   */
  datatype ContributionUpdate = ContributionUpdate(
    id: Option<string>,
    userId: Option<string>,
    groupId: Option<string>,
    amount: Option<int>,
    date: Option<int>,
    status: Option<ContributionStatus>,
    paymentMethod: Option<Option<string>>,
    transactionId: Option<Option<string>>,
    paidAt: Option<Option<int>>,
    penaltyAmount: Option<Option<int>>)

  const NoContributionUpdate := ContributionUpdate(None, None, None, None, None, None, None, None, None, None)

  /** `{ ...c, ...u }`. */
  function MergeContribution(c: Contribution, u: ContributionUpdate): (r: Contribution)
    ensures u == NoContributionUpdate ==> r == c
    ensures u.id.None? ==> r.id == c.id
    ensures u.status.Some? ==> r.status == u.status.value
    ensures u.status.None? ==> r.status == c.status
  {
    Contribution(
      Pick(u.id, c.id), Pick(u.userId, c.userId), Pick(u.groupId, c.groupId),
      Pick(u.amount, c.amount), Pick(u.date, c.date), Pick(u.status, c.status),
      Pick(u.paymentMethod, c.paymentMethod), Pick(u.transactionId, c.transactionId),
      Pick(u.paidAt, c.paidAt), Pick(u.penaltyAmount, c.penaltyAmount))
  }

  /** Merging nothing changes nothing, and merging the same update twice is merging it once. */
  lemma MergeContributionLaws(c: Contribution, u: ContributionUpdate)
    ensures MergeContribution(c, NoContributionUpdate) == c
    ensures MergeContribution(MergeContribution(c, u), u) == MergeContribution(c, u)
    ensures u.id.None? ==> MergeContribution(c, u).id == c.id
  {
  }

  /** `Partial<ChamaGroup>`, with the same convention as ContributionUpdate. */
  datatype GroupUpdate = GroupUpdate(
    id: Option<string>,
    name: Option<string>,
    description: Option<string>,
    dailyAmount: Option<int>,
    currency: Option<string>,
    deadlineTime: Option<string>,
    penaltyAmount: Option<int>,
    members: Option<seq<User>>,
    rotationOrder: Option<seq<string>>,
    currentRecipientIndex: Option<int>,
    isActive: Option<bool>,
    isPaused: Option<bool>,
    pauseReason: Option<Option<string>>,
    createdAt: Option<int>,
    adminId: Option<string>)

  const NoGroupUpdate := GroupUpdate(None, None, None, None, None, None, None, None, None, None, None, None, None, None, None)

  /** `{ ...g, ...u }`. */
  function MergeGroup(g: ChamaGroup, u: GroupUpdate): (r: ChamaGroup)
    ensures u == NoGroupUpdate ==> r == g
    ensures u.id.None? ==> r.id == g.id
    ensures u.members.None? && u.rotationOrder.None? ==> r.members == g.members && r.rotationOrder == g.rotationOrder
  {
    ChamaGroup(
      Pick(u.id, g.id), Pick(u.name, g.name), Pick(u.description, g.description),
      Pick(u.dailyAmount, g.dailyAmount), Pick(u.currency, g.currency),
      Pick(u.deadlineTime, g.deadlineTime), Pick(u.penaltyAmount, g.penaltyAmount),
      Pick(u.members, g.members), Pick(u.rotationOrder, g.rotationOrder),
      Pick(u.currentRecipientIndex, g.currentRecipientIndex), Pick(u.isActive, g.isActive),
      Pick(u.isPaused, g.isPaused), Pick(u.pauseReason, g.pauseReason),
      Pick(u.createdAt, g.createdAt), Pick(u.adminId, g.adminId))
  }

  /** Merging nothing changes nothing, and merging the same update twice is merging it once. */
  lemma MergeGroupLaws(g: ChamaGroup, u: GroupUpdate)
    ensures MergeGroup(g, NoGroupUpdate) == g
    ensures MergeGroup(MergeGroup(g, u), u) == MergeGroup(g, u)
    ensures u.id.None? ==> MergeGroup(g, u).id == g.id
  {
  }

  /** `rotationOrder[index]`: None (`undefined`) when the index is outside the array. */
  function RotationId(order: seq<string>, index: int): (r: Option<string>)
    ensures r.Some? <==> 0 <= index < |order|
    ensures r.Some? ==> r.value == order[index]
  {
    if 0 <= index < |order| then Some(order[index]) else None
  }

  function HasId(id: string): User -> bool {
    (m: User) => m.id == id
  }

  /** `members.find(m => m.id === id)`. */
  function FindMember(members: seq<User>, id: string): (r: Option<User>)
    ensures r.None? <==> forall m :: m in members ==> m.id != id
    ensures r.Some? ==> r.value in members && r.value.id == id
  {
    Seqs.Find(members, HasId(id))
  }

  /** `find` returns the member at the first index holding `id`. */
  lemma FindMemberFirst(members: seq<User>, id: string)
    ensures forall k :: 0 <= k < |members| && members[k].id == id && (forall i :: 0 <= i < k ==> members[i].id != id) ==>
      FindMember(members, id) == Some(members[k])
  {
    Seqs.FindFirst(members, HasId(id));
  }

  /** No two members share an id. */
  predicate DistinctIds(members: seq<User>) {
    forall i, j :: 0 <= i < j < |members| ==> members[i].id != members[j].id
  }

  /** With distinct ids, the lookup finds the one member that has the id. */
  lemma {:induction false} FindMemberDistinct(members: seq<User>, m: User)
    requires DistinctIds(members) && m in members
    ensures FindMember(members, m.id) == Some(m)
  {
    var k := Seqs.FindIndex(members, HasId(m.id));
    var j :| 0 <= j < |members| && members[j] == m;
    assert HasId(m.id)(members[j]);
    assert members[k].id == members[j].id;
  }

  /** The ids of the members, in member order. */
  function MemberIds(members: seq<User>): (ids: seq<string>)
    ensures |ids| == |members|
    ensures forall i :: 0 <= i < |members| ==> ids[i] == members[i].id
    decreases |members|
  {
    if members == [] then [] else [members[0].id] + MemberIds(members[1..])
  }

  function StatusIs(st: ContributionStatus): Contribution -> bool {
    (c: Contribution) => c.status == st
  }

  function UserIs(uid: string): Contribution -> bool {
    (c: Contribution) => c.userId == uid
  }

  /** `c.amount`, the term of the collected totals. */
  function Amount(): Contribution -> int {
    (c: Contribution) => c.amount
  }

  /** `c.penaltyAmount || 0`, the term of the penalty totals. */
  function PenaltyOrZero(): Contribution -> int {
    (c: Contribution) => c.penaltyAmount.GetOr(0)
  }
}
