/**
 * The members view (src/pages/Members.tsx): the member counts of the current group, each
 * member's place in the payout rotation, the "Current Recipient" badge and which rows an admin
 * may act on.
 */
module Members {
  import opened Wrappers
  import opened Types
  import Seqs
  import Dashboard

  function IsActiveMember(): User -> bool {
    (m: User) => m.isActive
  }

  function IsInactiveMember(): User -> bool {
    (m: User) => !m.isActive
  }

  function IsAdminMember(): User -> bool {
    (m: User) => m.role == Admin
  }

  function IsPlainMember(): User -> bool {
    (m: User) => m.role == Member
  }

  /** The "Active Members" card. */
  function ActiveCount(g: ChamaGroup): (n: nat)
    ensures n <= |g.members|
    ensures n == |g.members| <==> forall m :: m in g.members ==> m.isActive
  {
    Seqs.FilterLengthFull(g.members, IsActiveMember());
    |Seqs.Filter(g.members, IsActiveMember())|
  }

  /** The "Admins" card. */
  function AdminCount(g: ChamaGroup): (n: nat)
    ensures n <= |g.members|
    ensures n == |g.members| <==> forall m :: m in g.members ==> m.role == Admin
  {
    Seqs.FilterLengthFull(g.members, IsAdminMember());
    |Seqs.Filter(g.members, IsAdminMember())|
  }

  /** The active and the inactive members together make up the "Total Members" card, as do the admins and the plain members. */
  lemma CountsPartition(g: ChamaGroup)
    ensures ActiveCount(g) + |Seqs.Filter(g.members, IsInactiveMember())| == |g.members|
    ensures AdminCount(g) + |Seqs.Filter(g.members, IsPlainMember())| == |g.members|
  {
    Seqs.FilterComplementLength(g.members, IsActiveMember(), IsInactiveMember());
    Seqs.FilterComplementLength(g.members, IsAdminMember(), IsPlainMember());
  }

  function IdEquals(id: string): string -> bool {
    (x: string) => x == id
  }

  /** `rotationOrder.indexOf(id) + 1`: the 1-based payout position, 0 when the id is not in the rotation. */
  function RotationPosition(order: seq<string>, id: string): (p: nat)
    ensures p <= |order|
    ensures p == 0 <==> id !in order
    ensures p > 0 ==> order[p - 1] == id && id !in order[..p - 1]
  {
    Seqs.FindIndex(order, IdEquals(id)) + 1
  }

  /** When the rotation is the member list itself and ids are distinct, the i-th member is #(i+1). */
  lemma PositionInMemberOrder(g: ChamaGroup, i: int)
    requires g.rotationOrder == MemberIds(g.members) && DistinctIds(g.members)
    requires 0 <= i < |g.members|
    ensures RotationPosition(g.rotationOrder, g.members[i].id) == i + 1
  {
    assert g.rotationOrder[i] == g.members[i].id;
  }

  /** The "Current Recipient" badge: `rotationOrder[currentRecipientIndex] === member.id`. */
  predicate IsCurrentRecipient(g: ChamaGroup, m: User)
    ensures IsCurrentRecipient(g, m) <==>
      0 <= g.currentRecipientIndex < |g.rotationOrder| && g.rotationOrder[g.currentRecipientIndex] == m.id
  {
    RotationId(g.rotationOrder, g.currentRecipientIndex) == Some(m.id)
  }

  /** With distinct ids at most one member of the group carries the badge. */
  lemma AtMostOneCurrentRecipient(g: ChamaGroup, i: int, j: int)
    requires DistinctIds(g.members)
    requires 0 <= i < |g.members| && 0 <= j < |g.members|
    requires IsCurrentRecipient(g, g.members[i]) && IsCurrentRecipient(g, g.members[j])
    ensures i == j
  {
  }

  /** The badge marks exactly the member the dashboard shows as today's recipient. */
  lemma BadgeAgreesWithDashboard(g: ChamaGroup, m: User)
    requires DistinctIds(g.members) && m in g.members
    ensures IsCurrentRecipient(g, m) <==> Dashboard.TodaysRecipient(Some(g)) == Some(m)
  {
    if IsCurrentRecipient(g, m) {
      FindMemberDistinct(g.members, m);
    }
  }

  /** The "Add Member" button is shown to an admin only. */
  predicate ShowsAddMember(viewer: Option<User>)
    ensures ShowsAddMember(viewer) <==> viewer.Some? && viewer.value.role == Admin
  {
    viewer.Some? && viewer.value.role == Admin
  }

  /** The row actions: shown to an admin on every row but their own. */
  predicate ShowsActions(viewer: Option<User>, m: User)
    ensures ShowsActions(viewer, m) ==> ShowsAddMember(viewer) && m != viewer.value
  {
    ShowsAddMember(viewer) && m.id != viewer.value.id
  }

  function ActionsBy(viewer: Option<User>): User -> bool {
    (m: User) => ShowsActions(viewer, m)
  }

  function NotActionsBy(viewer: Option<User>): User -> bool {
    (m: User) => !ShowsActions(viewer, m)
  }

  /** With distinct ids exactly one member has a given member's id. */
  lemma {:induction false} OneWithId(members: seq<User>, u: User)
    requires DistinctIds(members) && u in members
    ensures |Seqs.Filter(members, HasId(u.id))| == 1
    decreases |members|
  {
    var rest := members[1..];
    assert DistinctIds(rest) by {
      forall i, j | 0 <= i < j < |rest|
        ensures rest[i].id != rest[j].id
      {
        assert rest[i] == members[i + 1] && rest[j] == members[j + 1];
      }
    }
    if members[0].id == u.id {
      forall x | x in rest
        ensures !HasId(u.id)(x)
      {
        var k :| 0 <= k < |rest| && rest[k] == x;
        assert members[k + 1] == x;
      }
      Seqs.FilterNone(rest, HasId(u.id));
    } else {
      assert u in rest;
      OneWithId(rest, u);
    }
  }

  /** An admin who belongs to the group sees actions on every row except their own: |members| - 1 rows. */
  lemma AdminActsOnOthers(g: ChamaGroup, admin: User)
    requires DistinctIds(g.members) && admin in g.members && admin.role == Admin
    ensures |Seqs.Filter(g.members, ActionsBy(Some(admin)))| == |g.members| - 1
    ensures !ShowsActions(Some(admin), admin)
  {
    Seqs.FilterComplementLength(g.members, ActionsBy(Some(admin)), NotActionsBy(Some(admin)));
    OneWithId(g.members, admin);
    assert forall x :: NotActionsBy(Some(admin))(x) == HasId(admin.id)(x);
    assert Seqs.Filter(g.members, NotActionsBy(Some(admin))) == Seqs.Filter(g.members, HasId(admin.id)) by {
      Seqs.FilterSame(g.members, NotActionsBy(Some(admin)), HasId(admin.id));
    }
  }

  /** A viewer who is not an admin sees no row actions and no "Add Member" button. */
  lemma NonAdminSeesNoActions(viewer: Option<User>, g: ChamaGroup)
    requires viewer.None? || viewer.value.role != Admin
    ensures !ShowsAddMember(viewer)
    ensures Seqs.Filter(g.members, ActionsBy(viewer)) == []
  {
    Seqs.FilterNone(g.members, ActionsBy(viewer));
  }
}
