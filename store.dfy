/**
 * The application store (src/store/useStore.ts): one mutable state object holding the
 * session, the groups, the contributions and the notifications, and the actions that
 * overwrite its fields. Identifiers the source draws from `Date.now()` are parameters.
 */
module Store {
  import opened Wrappers
  import opened Types
  import Seqs

  // ---------------------------------------------------------------- seed data

  const JoinedJan1: int := 1704067200000   // new Date('2024-01-01'), in ms since the epoch

  const MockUsers: seq<User> := [
    User("1", "John Kamau", "john@example.com", "+254712345678", Admin, true, JoinedJan1),
    User("2", "Mary Wanjiku", "mary@example.com", "+254723456789", Member, true, JoinedJan1 + 86400000),
    User("3", "Peter Ochieng", "peter@example.com", "+254734567890", Member, true, JoinedJan1 + 2 * 86400000),
    User("4", "Grace Akinyi", "grace@example.com", "+254745678901", Member, true, JoinedJan1 + 3 * 86400000),
    User("5", "David Kiprop", "david@example.com", "+254756789012", Member, true, JoinedJan1 + 4 * 86400000)
  ]

  const MockGroup: ChamaGroup := ChamaGroup(
    "1", "Harambee Savings Group", "Monthly rotating savings for our community",
    100, "KES", "20:00", 20, MockUsers, ["1", "2", "3", "4", "5"], 0,
    true, false, None, JoinedJan1, "1")

  const MockPaymentMethods: seq<PaymentMethod> := [
    PaymentMethod("1", "M-Pesa", Mobile, "\U{1F4F1}", true),
    PaymentMethod("2", "Equity Bank", Bank, "\U{1F3E6}", true),
    PaymentMethod("3", "KCB Bank", Bank, "\U{1F3E6}", true),
    PaymentMethod("4", "Airtel Money", Mobile, "\U{1F4F1}", true)
  ]

  /** The seed group keeps the group invariant: distinct member ids, the rotation is those ids in member order, and the recipient index is valid. */
  lemma MockGroupWellFormed()
    ensures DistinctIds(MockGroup.members)
    ensures MockGroup.rotationOrder == MemberIds(MockGroup.members)
    ensures 0 <= MockGroup.currentRecipientIndex < |MockGroup.rotationOrder|
  {
    MockUsersDistinct();
    MockUserIds();
    assert MockGroup.members == MockUsers;
  }

  /** Helper: the seed users have distinct ids. */
  lemma MockUsersDistinct()
    ensures DistinctIds(MockUsers)
  {
  }

  /** Helper: the seed users' ids, in order. */
  lemma MockUserIds()
    ensures MemberIds(MockUsers) == ["1", "2", "3", "4", "5"]
  {
    var ids := MemberIds(MockUsers);
    assert ids[0] == "1" && ids[1] == "2" && ids[2] == "3" && ids[3] == "4" && ids[4] == "5";
  }

  // ---------------------------------------------------------------- login

  const Password := "password"
  const InvalidCredentials := "Invalid credentials"

  function HasEmail(email: string): User -> bool {
    (u: User) => u.email == email
  }

  /** `mockUsers.find(u => u.email === email)`. */
  function FindUserByEmail(users: seq<User>, email: string): (r: Option<User>)
    ensures r.None? <==> forall i :: 0 <= i < |users| ==> users[i].email != email
    ensures r.Some? ==> r.value in users && r.value.email == email
  {
    Seqs.Find(users, HasEmail(email))
  }

  /** The lookup returns the user at the first index holding `email`. */
  lemma FindUserByEmailFirst(users: seq<User>, email: string)
    ensures forall k :: 0 <= k < |users| && users[k].email == email && (forall i :: 0 <= i < k ==> users[i].email != email) ==>
      FindUserByEmail(users, email) == Some(users[k])
  {
    Seqs.FindFirst(users, HasEmail(email));
  }

  /** The user a login with these credentials signs in, if any. */
  function Authenticate(email: string, password: string): (r: Option<User>)
    ensures r.Some? <==> (exists i :: 0 <= i < |MockUsers| && MockUsers[i].email == email) && password == Password
    ensures r.Some? ==> r.value in MockUsers && r.value.email == email
  {
    var user := FindUserByEmail(MockUsers, email);
    if user.Some? && password == Password then user else None
  }

  /** The seed admin signs in with the shared password. */
  lemma AuthenticateAdmin()
    ensures Authenticate("john@example.com", "password") == Some(MockUsers[0])
  {
    assert HasEmail("john@example.com")(MockUsers[0]);
    assert Seqs.FindIndex(MockUsers, HasEmail("john@example.com")) == 0;
  }

  /** A wrong password, or an email no seed user has, is refused. */
  lemma AuthenticateRefused()
    ensures Authenticate("john@example.com", "secret").None?
    ensures Authenticate("nobody@example.com", "password").None?
  {
  }

  // ---------------------------------------------------------------- element updates

  function IdIs(id: string): Contribution -> bool {
    (c: Contribution) => c.id == id
  }

  function Merging(u: ContributionUpdate): Contribution -> Contribution {
    (c: Contribution) => MergeContribution(c, u)
  }

  /** `cs.map(c => c.id === id ? { ...c, ...updates } : c)`. */
  function UpdateContributions(cs: seq<Contribution>, id: string, u: ContributionUpdate): (r: seq<Contribution>)
    ensures |r| == |cs|
    ensures forall i :: 0 <= i < |cs| ==> r[i] == if cs[i].id == id then MergeContribution(cs[i], u) else cs[i]
    ensures (forall c :: c in cs ==> c.id != id) ==> r == cs
  {
    Seqs.MapWhere(cs, IdIs(id), Merging(u))
  }

  function NotificationIdIs(id: string): Notification -> bool {
    (n: Notification) => n.id == id
  }

  function MarkingRead(): Notification -> Notification {
    (n: Notification) => n.(isRead := true)
  }

  /** `ns.map(n => n.id === id ? { ...n, isRead: true } : n)`. */
  function MarkRead(ns: seq<Notification>, id: string): (r: seq<Notification>)
    ensures |r| == |ns|
    ensures forall i :: 0 <= i < |ns| ==> r[i] == if ns[i].id == id then ns[i].(isRead := true) else ns[i]
    ensures (forall n :: n in ns ==> n.id != id) ==> r == ns
  {
    Seqs.MapWhere(ns, NotificationIdIs(id), MarkingRead())
  }

  /** The three ways the store rewrites a group. */
  datatype GroupChange = Pause(reason: string) | Resume | Settings(updates: GroupUpdate)

  /** `{ ...g, isPaused: true, pauseReason: reason }`, `{ ...g, isPaused: false, pauseReason: undefined }`, `{ ...g, ...updates }`. */
  function ApplyChange(g: ChamaGroup, change: GroupChange): (r: ChamaGroup)
    ensures change.Pause? ==> r.isPaused && r.pauseReason == Some(change.reason)
    ensures change.Resume? ==> !r.isPaused && r.pauseReason.None?
    ensures !change.Settings? ==> r.(isPaused := g.isPaused, pauseReason := g.pauseReason) == g
    ensures change.Settings? && change.updates.id.None? ==> r.id == g.id
  {
    match change
    case Pause(reason) => g.(isPaused := true, pauseReason := Some(reason))
    case Resume => g.(isPaused := false, pauseReason := None)
    case Settings(u) => MergeGroup(g, u)
  }

  function GroupIdIs(id: string): ChamaGroup -> bool {
    (g: ChamaGroup) => g.id == id
  }

  function Applying(change: GroupChange): ChamaGroup -> ChamaGroup {
    (g: ChamaGroup) => ApplyChange(g, change)
  }

  /** `groups.map(g => g.id === groupId ? change(g) : g)`. */
  function ChangeGroups(gs: seq<ChamaGroup>, id: string, change: GroupChange): (r: seq<ChamaGroup>)
    ensures |r| == |gs|
    ensures forall i :: 0 <= i < |gs| ==> r[i] == if gs[i].id == id then ApplyChange(gs[i], change) else gs[i]
    ensures (forall g :: g in gs ==> g.id != id) ==> r == gs
  {
    Seqs.MapWhere(gs, GroupIdIs(id), Applying(change))
  }

  /** `currentGroup?.id === groupId ? change(currentGroup) : currentGroup`. */
  function ChangeCurrent(current: Option<ChamaGroup>, id: string, change: GroupChange): (r: Option<ChamaGroup>)
    ensures r.Some? <==> current.Some?
    ensures current.Some? && current.value.id != id ==> r == current
    ensures current.Some? && current.value.id == id ==> r == Some(ApplyChange(current.value, change))
  {
    if current.Some? && current.value.id == id then Some(ApplyChange(current.value, change)) else current
  }

  /**
   * Pausing and then resuming a group is the same as resuming it: the matching groups end up
   * not paused and without a reason, and every other group is as it was.
   */
  lemma {:induction false} PauseThenResume(gs: seq<ChamaGroup>, current: Option<ChamaGroup>, id: string, reason: string)
    ensures ChangeGroups(ChangeGroups(gs, id, Pause(reason)), id, Resume) == ChangeGroups(gs, id, Resume)
    ensures ChangeCurrent(ChangeCurrent(current, id, Pause(reason)), id, Resume) == ChangeCurrent(current, id, Resume)
    ensures forall g :: g in ChangeGroups(gs, id, Resume) && g.id == id ==> !g.isPaused && g.pauseReason.None?
  {
    ResumeAbsorbsPause(id, reason);
    Seqs.MapWhereAbsorb(gs, GroupIdIs(id), Applying(Pause(reason)), Applying(Resume));
    ResumedGroups(gs, id);
  }

  /** Resuming ignores what pausing set and keeps the id. */
  lemma ResumeAbsorbsPause(id: string, reason: string)
    ensures forall g: ChamaGroup :: GroupIdIs(id)(g) ==>
      GroupIdIs(id)(Applying(Pause(reason))(g)) && Applying(Resume)(Applying(Pause(reason))(g)) == Applying(Resume)(g)
  {
  }

  /** After a resume, every group with the id is running and has no reason. */
  lemma ResumedGroups(gs: seq<ChamaGroup>, id: string)
    ensures forall g :: g in ChangeGroups(gs, id, Resume) && g.id == id ==> !g.isPaused && g.pauseReason.None?
  {
    var r := ChangeGroups(gs, id, Resume);
    forall g | g in r && g.id == id
      ensures !g.isPaused && g.pauseReason.None?
    {
      var i :| 0 <= i < |r| && r[i] == g;
    }
  }

  /** A settings change that does not rename the group reaches exactly the groups with that id. */
  lemma {:induction false} SettingsKeepId(gs: seq<ChamaGroup>, id: string, u: GroupUpdate)
    requires u.id.None?
    ensures forall i :: 0 <= i < |gs| ==> (ChangeGroups(gs, id, Settings(u))[i].id == id <==> gs[i].id == id)
  {
    forall i | 0 <= i < |gs|
      ensures ChangeGroups(gs, id, Settings(u))[i].id == gs[i].id
    {
      MergeGroupLaws(gs[i], u);
    }
  }

  // ---------------------------------------------------------------- the store

  class AppStore {
    var currentUser: Option<User>
    var isAuthenticated: bool
    var currentGroup: Option<ChamaGroup>
    var groups: seq<ChamaGroup>
    var contributions: seq<Contribution>
    var todayContributions: seq<Contribution>
    var notifications: seq<Notification>
    var unreadCount: int
    var paymentMethods: seq<PaymentMethod>
    var isLoading: bool
    var error: Option<string>

    /**
     * What every action keeps: the unread counter is never negative, a signed-in session
     * has a user, and a signed-in session has a group.
     */
    ghost predicate Valid()
      reads this
    {
      && unreadCount >= 0
      && (isAuthenticated <==> currentUser.Some?)
      && (isAuthenticated ==> currentGroup.Some?)
    }

    /** The initial state. */
    constructor ()
      ensures Valid()
      ensures currentUser == None && !isAuthenticated && currentGroup == None
      ensures groups == [MockGroup]
      ensures contributions == [] && todayContributions == []
      ensures notifications == [] && unreadCount == 0
      ensures paymentMethods == MockPaymentMethods
      ensures !isLoading && error == None
    {
      currentUser := None;
      isAuthenticated := false;
      currentGroup := None;
      groups := [MockGroup];
      contributions := [];
      todayContributions := [];
      notifications := [];
      unreadCount := 0;
      paymentMethods := MockPaymentMethods;
      isLoading := false;
      error := None;
    }

    /**
     * `login(email, password)`: clears the error, then either signs in the seed user with that
     * email and selects the seed group, or reports invalid credentials and leaves the session
     * as it was.
     */
    method Login(email: string, password: string)
      requires Valid()
      modifies this
      ensures Valid()
      ensures !isLoading
      ensures match Authenticate(email, password)
        case Some(user) =>
          currentUser == Some(user) && isAuthenticated && currentGroup == Some(MockGroup) && error == None
        case None =>
          && error == Some(InvalidCredentials)
          && currentUser == old(currentUser)
          && isAuthenticated == old(isAuthenticated)
          && currentGroup == old(currentGroup)
      ensures groups == old(groups) && paymentMethods == old(paymentMethods)
      ensures contributions == old(contributions) && todayContributions == old(todayContributions)
      ensures notifications == old(notifications) && unreadCount == old(unreadCount)
    {
      isLoading, error := true, None;
      var user := Authenticate(email, password);
      if user.Some? {
        SignIn(user.value);
      } else {
        RejectCredentials();
      }
    }

    /** The success branch of `login`: the user and the seed group become the session. */
    method SignIn(user: User)
      requires unreadCount >= 0 && error == None
      modifies this
      ensures Valid()
      ensures currentUser == Some(user) && isAuthenticated && currentGroup == Some(MockGroup)
      ensures !isLoading && error == None
      ensures groups == old(groups) && paymentMethods == old(paymentMethods)
      ensures contributions == old(contributions) && todayContributions == old(todayContributions)
      ensures notifications == old(notifications) && unreadCount == old(unreadCount)
    {
      currentUser, isAuthenticated, currentGroup, isLoading := Some(user), true, Some(MockGroup), false;
    }

    /** The failure branch of `login`: the error is reported and the session stays as it was. */
    method RejectCredentials()
      requires Valid()
      modifies this
      ensures Valid()
      ensures error == Some(InvalidCredentials) && !isLoading
      ensures currentUser == old(currentUser) && isAuthenticated == old(isAuthenticated)
      ensures currentGroup == old(currentGroup)
      ensures groups == old(groups) && paymentMethods == old(paymentMethods)
      ensures contributions == old(contributions) && todayContributions == old(todayContributions)
      ensures notifications == old(notifications) && unreadCount == old(unreadCount)
    {
      error, isLoading := Some(InvalidCredentials), false;
    }

    /** `logout()`: ends the session and drops its collections; groups and payment methods stay. */
    method Logout()
      requires Valid()
      modifies this
      ensures Valid()
      ensures currentUser == None && !isAuthenticated && currentGroup == None
      ensures contributions == [] && todayContributions == []
      ensures notifications == [] && unreadCount == 0
      ensures groups == old(groups) && paymentMethods == old(paymentMethods)
      ensures isLoading == old(isLoading) && error == old(error)
    {
      currentUser, isAuthenticated, currentGroup := None, false, None;
      contributions, todayContributions, notifications, unreadCount := [], [], [], 0;
    }

    /** `setCurrentGroup(group)`. */
    method SetCurrentGroup(group: ChamaGroup)
      requires Valid()
      modifies this
      ensures Valid()
      ensures currentGroup == Some(group)
      ensures currentUser == old(currentUser) && isAuthenticated == old(isAuthenticated)
      ensures groups == old(groups) && paymentMethods == old(paymentMethods)
      ensures contributions == old(contributions) && todayContributions == old(todayContributions)
      ensures notifications == old(notifications) && unreadCount == old(unreadCount)
      ensures isLoading == old(isLoading) && error == old(error)
    {
      currentGroup := Some(group);
    }

    /** `addContribution(data)`: appends the record, under the new id, to both contribution lists. */
    method AddContribution(data: Contribution, id: string)
      requires Valid()
      modifies this
      ensures Valid()
      ensures contributions == old(contributions) + [data.(id := id)]
      ensures todayContributions == old(todayContributions) + [data.(id := id)]
      ensures currentUser == old(currentUser) && isAuthenticated == old(isAuthenticated)
      ensures currentGroup == old(currentGroup) && groups == old(groups)
      ensures notifications == old(notifications) && unreadCount == old(unreadCount)
      ensures paymentMethods == old(paymentMethods)
      ensures isLoading == old(isLoading) && error == old(error)
    {
      var newContribution := data.(id := id);
      contributions := contributions + [newContribution];
      todayContributions := todayContributions + [newContribution];
    }

    /** `updateContribution(id, updates)`: merges the update into the records with that id, in both lists. */
    method UpdateContribution(id: string, updates: ContributionUpdate)
      requires Valid()
      modifies this
      ensures Valid()
      ensures contributions == UpdateContributions(old(contributions), id, updates)
      ensures todayContributions == UpdateContributions(old(todayContributions), id, updates)
      ensures currentUser == old(currentUser) && isAuthenticated == old(isAuthenticated)
      ensures currentGroup == old(currentGroup) && groups == old(groups)
      ensures notifications == old(notifications) && unreadCount == old(unreadCount)
      ensures paymentMethods == old(paymentMethods)
      ensures isLoading == old(isLoading) && error == old(error)
    {
      contributions := UpdateContributions(contributions, id, updates);
      todayContributions := UpdateContributions(todayContributions, id, updates);
    }

    /** `addNotification(data)`: puts the notification, under the new id, first, and counts one more unread. */
    method AddNotification(data: Notification, id: string)
      requires Valid()
      modifies this
      ensures Valid()
      ensures notifications == [data.(id := id)] + old(notifications)
      ensures unreadCount == old(unreadCount) + 1
      ensures currentUser == old(currentUser) && isAuthenticated == old(isAuthenticated)
      ensures currentGroup == old(currentGroup) && groups == old(groups)
      ensures contributions == old(contributions) && todayContributions == old(todayContributions)
      ensures paymentMethods == old(paymentMethods)
      ensures isLoading == old(isLoading) && error == old(error)
    {
      var newNotification := data.(id := id);
      notifications := [newNotification] + notifications;
      unreadCount := unreadCount + 1;
    }

    /**
     * `markNotificationRead(id)`: marks the notifications with that id read and counts one
     * fewer unread, never below zero (it counts down even when no notification matches).
     */
    method MarkNotificationRead(id: string)
      requires Valid()
      modifies this
      ensures Valid()
      ensures notifications == MarkRead(old(notifications), id)
      ensures unreadCount == if old(unreadCount) > 0 then old(unreadCount) - 1 else 0
      ensures currentUser == old(currentUser) && isAuthenticated == old(isAuthenticated)
      ensures currentGroup == old(currentGroup) && groups == old(groups)
      ensures contributions == old(contributions) && todayContributions == old(todayContributions)
      ensures paymentMethods == old(paymentMethods)
      ensures isLoading == old(isLoading) && error == old(error)
    {
      notifications := MarkRead(notifications, id);
      unreadCount := if 0 > unreadCount - 1 then 0 else unreadCount - 1;
    }

    /** The common shape of `pauseGroup`, `resumeGroup` and `updateGroupSettings`. */
    method ChangeGroup(groupId: string, change: GroupChange)
      requires Valid()
      modifies this
      ensures Valid()
      ensures currentGroup == ChangeCurrent(old(currentGroup), groupId, change)
      ensures groups == ChangeGroups(old(groups), groupId, change)
      ensures currentUser == old(currentUser) && isAuthenticated == old(isAuthenticated)
      ensures contributions == old(contributions) && todayContributions == old(todayContributions)
      ensures notifications == old(notifications) && unreadCount == old(unreadCount)
      ensures paymentMethods == old(paymentMethods)
      ensures isLoading == old(isLoading) && error == old(error)
    {
      currentGroup := ChangeCurrent(currentGroup, groupId, change);
      groups := ChangeGroups(groups, groupId, change);
    }

    /** `pauseGroup(groupId, reason)`: marks the group with that id paused, with the reason. */
    method PauseGroup(groupId: string, reason: string)
      requires Valid()
      modifies this
      ensures Valid()
      ensures currentGroup == ChangeCurrent(old(currentGroup), groupId, Pause(reason))
      ensures groups == ChangeGroups(old(groups), groupId, Pause(reason))
      ensures currentUser == old(currentUser) && isAuthenticated == old(isAuthenticated)
      ensures contributions == old(contributions) && todayContributions == old(todayContributions)
      ensures notifications == old(notifications) && unreadCount == old(unreadCount)
      ensures paymentMethods == old(paymentMethods)
      ensures isLoading == old(isLoading) && error == old(error)
    {
      ChangeGroup(groupId, Pause(reason));
    }

    /** `resumeGroup(groupId)`: clears the pause flag and the reason of the group with that id. */
    method ResumeGroup(groupId: string)
      requires Valid()
      modifies this
      ensures Valid()
      ensures currentGroup == ChangeCurrent(old(currentGroup), groupId, Resume)
      ensures groups == ChangeGroups(old(groups), groupId, Resume)
      ensures currentUser == old(currentUser) && isAuthenticated == old(isAuthenticated)
      ensures contributions == old(contributions) && todayContributions == old(todayContributions)
      ensures notifications == old(notifications) && unreadCount == old(unreadCount)
      ensures paymentMethods == old(paymentMethods)
      ensures isLoading == old(isLoading) && error == old(error)
    {
      ChangeGroup(groupId, Resume);
    }

    /** `updateGroupSettings(groupId, updates)`: merges the update into the group with that id. */
    method UpdateGroupSettings(groupId: string, updates: GroupUpdate)
      requires Valid()
      modifies this
      ensures Valid()
      ensures currentGroup == ChangeCurrent(old(currentGroup), groupId, Settings(updates))
      ensures groups == ChangeGroups(old(groups), groupId, Settings(updates))
      ensures currentUser == old(currentUser) && isAuthenticated == old(isAuthenticated)
      ensures contributions == old(contributions) && todayContributions == old(todayContributions)
      ensures notifications == old(notifications) && unreadCount == old(unreadCount)
      ensures paymentMethods == old(paymentMethods)
      ensures isLoading == old(isLoading) && error == old(error)
    {
      ChangeGroup(groupId, Settings(updates));
    }
  }

  /** A pause followed by a resume of the same group leaves it running and without a reason. */
  method PauseResumeScenario(store: AppStore, groupId: string, reason: string)
    requires store.Valid()
    modifies store
    ensures store.Valid()
    ensures store.groups == ChangeGroups(old(store.groups), groupId, Resume)
    ensures store.currentGroup == ChangeCurrent(old(store.currentGroup), groupId, Resume)
    ensures store.currentGroup.Some? && store.currentGroup.value.id == groupId ==>
      !store.currentGroup.value.isPaused && store.currentGroup.value.pauseReason.None?
  {
    store.PauseGroup(groupId, reason);
    store.ResumeGroup(groupId);
    PauseThenResume(old(store.groups), old(store.currentGroup), groupId, reason);
  }
}
