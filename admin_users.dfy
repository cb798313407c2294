/** The admin user view (`AdminUsersComponent`): the loaded users, the derived counts, the
    role-then-text filtered list, the expanded row, the status toggle and the read-only
    look-up of a user's saved profile. The user service's replies are passed in as
    `Result`s; the signed-in identity is passed in as an `Option`. */
module AdminUsers {
  import opened Wrappers
  import opened Seqs
  import opened Text
  import opened Models
  import opened Views
  import opened Storage
  import opened UserDirectory

  const ALL := "all"
  const LOAD_ERROR := "Failed to load users."
  const TOGGLE_ERROR := "Failed to update user status."

  function HasRole(role: string): AdminUser -> bool
  {
    (u: AdminUser) => u.role == role
  }

  /** `adminCount`. */
  function CountAdmins(users: seq<AdminUser>): (r: nat)
    ensures r <= |users|
  {
    |Filter(users, HasRole(ADMIN))|
  }

  /** The admin count is the number of positions that hold an administrator. */
  lemma CountAdminsPositions(users: seq<AdminUser>)
    ensures CountAdmins(users) == |set i | 0 <= i < |users| && users[i].role == ADMIN|
  {
    FilterLengthCountsIndices(users, HasRole(ADMIN));
    assert (set i | 0 <= i < |users| && users[i].role == ADMIN) == Positions(users, HasRole(ADMIN));
  }

  /** Replacing one user moves each count by at most one. */
  lemma CountsAfterReplace(users: seq<AdminUser>, i: int, u: AdminUser)
    requires 0 <= i < |users|
    ensures CountActive(users[i := u]) ==
            CountActive(users) - (if users[i].status == ACTIVE then 1 else 0) + (if u.status == ACTIVE then 1 else 0)
    ensures CountAdmins(users[i := u]) ==
            CountAdmins(users) - (if users[i].role == ADMIN then 1 else 0) + (if u.role == ADMIN then 1 else 0)
  {
    FilterCountUpdate(users, i, u, IsActive());
    FilterCountUpdate(users, i, u, HasRole(ADMIN));
  }

  /** The text test for an already lower-cased term: email, first name or last name; the role
      and the status are not searched here. */
  function UserMatches(term: string): AdminUser -> bool
  {
    (u: AdminUser) =>
      Includes(Lower(u.email), term) || Includes(Lower(u.firstName), term) || Includes(Lower(u.lastName), term)
  }

  /** `applyFilter`: the role filter, then the case-insensitive text filter. The list keeps the
      users in their loaded relative order. */
  function FilterUsers(users: seq<AdminUser>, roleFilter: string, searchTerm: string): (r: seq<AdminUser>)
    ensures |r| <= |users| && IsSubsequence(r, users)
    ensures forall i :: 0 <= i < |r| ==> roleFilter == ALL || r[i].role == roleFilter
    ensures roleFilter == ALL && !HasSearchText(searchTerm) ==> r == users
  {
    var byRole := if roleFilter != ALL then Filter(users, HasRole(roleFilter)) else users;
    assert IsSubsequence(byRole, users) by {
      if roleFilter != ALL {
        FilterIsSubsequence(users, HasRole(roleFilter));
      } else {
        SubsequenceReflexive(users);
      }
    }
    if HasSearchText(searchTerm) then
      var r := Filter(byRole, UserMatches(Lower(searchTerm)));
      FilterIsSubsequence(byRole, UserMatches(Lower(searchTerm)));
      SubsequenceTransitive(r, byRole, users);
      assert forall i :: 0 <= i < |r| ==> roleFilter == ALL || r[i].role == roleFilter by {
        forall i | 0 <= i < |r| ensures roleFilter == ALL || r[i].role == roleFilter {
          assert r[i] in byRole;
        }
      }
      r
    else
      byRole
  }

  /** A user's lower-cased email, first name or last name contains the lower-cased term. */
  ghost predicate NameOrEmailMentions(u: AdminUser, term: string)
  {
    Occurs(Lower(u.email), term) || Occurs(Lower(u.firstName), term) || Occurs(Lower(u.lastName), term)
  }

  /** With a role filter other than "all", every listed user has exactly that role. */
  lemma FilterUsersRole(users: seq<AdminUser>, roleFilter: string, searchTerm: string)
    requires roleFilter != ALL
    ensures forall u :: u in FilterUsers(users, roleFilter, searchTerm) ==> u.role == roleFilter
  {
    forall u | u in FilterUsers(users, roleFilter, searchTerm)
      ensures u.role == roleFilter
    {
      var byRole := Filter(users, HasRole(roleFilter));
      if HasSearchText(searchTerm) {
        FilterMembership(byRole, UserMatches(Lower(searchTerm)), u);
      }
      FilterMembership(users, HasRole(roleFilter), u);
    }
  }

  /** With "all" and a term made only of white space, the list is every loaded user. */
  lemma FilterUsersAllBlank(users: seq<AdminUser>, searchTerm: string)
    requires forall i :: 0 <= i < |searchTerm| ==> IsWhitespace(searchTerm[i])
    ensures FilterUsers(users, ALL, searchTerm) == users
  {
    TrimEmptyIff(searchTerm);
  }

  /** A user is listed exactly when loaded, of the selected role, and either the term is blank or
      the lower-cased, untrimmed term is a substring of the user's lower-cased email, first name
      or last name. */
  lemma FilterUsersMembership(users: seq<AdminUser>, roleFilter: string, searchTerm: string, u: AdminUser)
    ensures u in FilterUsers(users, roleFilter, searchTerm) <==>
            u in users && (roleFilter == ALL || u.role == roleFilter) &&
            (!HasSearchText(searchTerm) || NameOrEmailMentions(u, Lower(searchTerm)))
    ensures multiset(FilterUsers(users, roleFilter, searchTerm))[u] ==
            if (roleFilter == ALL || u.role == roleFilter) &&
               (!HasSearchText(searchTerm) || NameOrEmailMentions(u, Lower(searchTerm)))
            then multiset(users)[u] else 0
  {
    var byRole := if roleFilter != ALL then Filter(users, HasRole(roleFilter)) else users;
    if roleFilter != ALL {
      FilterMembership(users, HasRole(roleFilter), u);
      FilterMultiset(users, HasRole(roleFilter), u);
    }
    if HasSearchText(searchTerm) {
      FilterMembership(byRole, UserMatches(Lower(searchTerm)), u);
      FilterMultiset(byRole, UserMatches(Lower(searchTerm)), u);
      var term := Lower(searchTerm);
      IncludesIff(Lower(u.email), term);
      IncludesIff(Lower(u.firstName), term);
      IncludesIff(Lower(u.lastName), term);
    }
  }

  /** `getUserProfile`: reads the saved profile of a user without changing the storage; an
      absent, empty, "null" or unparseable entry gives no profile. */
  function GetUserProfile(entries: map<string, StoredValue>, userId: int): (r: Option<UserProfile>)
    ensures r.Some? <==> ProfileKey(userId) in entries && entries[ProfileKey(userId)].Serialized?
    ensures r.Some? ==> entries[ProfileKey(userId)] == Serialized(r.value)
  {
    var key := ProfileKey(userId);
    if key in entries && IsTruthy(entries[key]) then
      match entries[key]
      case Serialized(p) => Some(p)
      case NullLiteral => None
      case Unparseable(_) => None
    else
      None
  }

  /** `isSelf`: the row belongs to the signed-in account. */
  function IsSelf(current: Option<User>, userId: int): (b: bool)
    ensures b <==> current.Some? && current.value.id == userId
  {
    match current
    case None => false
    case Some(u) => u.id == userId
  }

  class AdminUsersComponent {
    var users: seq<AdminUser>
    var filteredUsers: seq<AdminUser>
    var searchTerm: string
    var roleFilter: string
    var loading: bool
    var error: string
    var expandedUserId: Option<int>
    var totalUsers: int
    var activeUsers: int
    var adminCount: int

    constructor()
      ensures users == [] && filteredUsers == [] && searchTerm == "" && roleFilter == ALL
      ensures loading && error == "" && expandedUserId == None
      ensures totalUsers == 0 && activeUsers == 0 && adminCount == 0
    {
      users, filteredUsers := [], [];
      searchTerm, roleFilter := "", ALL;
      loading, error, expandedUserId := true, "", None;
      totalUsers, activeUsers, adminCount := 0, 0, 0;
    }

    /** The counts describe the current users. */
    ghost predicate StatsCurrent()
      reads this`users, this`totalUsers, this`activeUsers, this`adminCount
    {
      totalUsers == |users| && activeUsers == CountActive(users) && adminCount == CountAdmins(users)
    }

    /** The displayed list is the filter applied to the current users and criteria. */
    ghost predicate FilterCurrent()
      reads this`users, this`filteredUsers, this`roleFilter, this`searchTerm
    {
      filteredUsers == FilterUsers(users, roleFilter, searchTerm)
    }

    /** `loadUsers`, with the user service's reply as `outcome`. */
    method LoadUsers(outcome: Result<seq<AdminUser>, ServiceError>)
      modifies this`users, this`filteredUsers, this`totalUsers, this`activeUsers, this`adminCount,
               this`loading, this`error
      ensures !loading
      ensures searchTerm == old(searchTerm) && roleFilter == old(roleFilter)
      ensures expandedUserId == old(expandedUserId)
      ensures outcome.Success? ==>
                users == outcome.value && StatsCurrent() && FilterCurrent() && error == old(error)
      ensures outcome.Failure? ==>
                error == LOAD_ERROR && users == old(users) && filteredUsers == old(filteredUsers) &&
                totalUsers == old(totalUsers) && activeUsers == old(activeUsers) && adminCount == old(adminCount)
    {
      loading := true;
      match outcome
      case Success(loaded) =>
        users := loaded;
        Refresh();
        loading := false;
      case Failure(_) =>
        error := LOAD_ERROR;
        loading := false;
    }

    /** `computeStats`. */
    method ComputeStats()
      modifies this`totalUsers, this`activeUsers, this`adminCount
      ensures StatsCurrent()
    {
      totalUsers := |users|;
      activeUsers := |Filter(users, IsActive())|;
      adminCount := |Filter(users, HasRole(ADMIN))|;
    }

    /** `applyFilter`: recomputes the displayed list; `users` is only read. */
    method ApplyFilter()
      modifies this`filteredUsers
      ensures FilterCurrent()
    {
      filteredUsers := FilterUsers(users, roleFilter, searchTerm);
    }

    /** The `computeStats(); applyFilter();` pair that follows every change of the users. */
    method Refresh()
      modifies this`totalUsers, this`activeUsers, this`adminCount, this`filteredUsers
      ensures StatsCurrent() && FilterCurrent()
    {
      ComputeStats();
      ApplyFilter();
    }

    /** `toggleExpand`. */
    method ToggleExpand(userId: int)
      modifies this`expandedUserId
      ensures expandedUserId == ToggleExpanded(old(expandedUserId), userId)
    {
      expandedUserId := if expandedUserId == Some(userId) then None else Some(userId);
    }

    /** `toggleStatus`, with the user service's reply as `outcome`: the loaded entry with the
        reply's id is replaced by the reply as a whole. */
    method ToggleStatus(outcome: Result<AdminUser, ServiceError>)
      modifies this`users, this`filteredUsers, this`totalUsers, this`activeUsers, this`adminCount, this`error
      ensures searchTerm == old(searchTerm) && roleFilter == old(roleFilter)
      ensures loading == old(loading) && expandedUserId == old(expandedUserId)
      ensures outcome.Success? ==> error == old(error)
      ensures outcome.Success? && FindIndex(old(users), HasUserId(outcome.value.id)) != -1 ==>
                users == old(users)[FindIndex(old(users), HasUserId(outcome.value.id)) := outcome.value] &&
                StatsCurrent() && FilterCurrent()
      ensures (outcome.Success? && FindIndex(old(users), HasUserId(outcome.value.id)) == -1) ||
              outcome.Failure? ==>
                users == old(users) && filteredUsers == old(filteredUsers) &&
                totalUsers == old(totalUsers) && activeUsers == old(activeUsers) && adminCount == old(adminCount)
      ensures outcome.Failure? ==> error == TOGGLE_ERROR
    {
      match outcome
      case Success(updated) =>
        var index := FindIndex(users, HasUserId(updated.id));
        if index != -1 {
          users := users[index := updated];
          Refresh();
        }
      case Failure(_) =>
        error := TOGGLE_ERROR;
    }
  }

  /** The service and the view agree: when the view's users are the directory's and the toggle
      succeeds, the view's users afterwards are the directory's toggled users. */
  lemma ToggleReplyMatchesDirectory(users: seq<AdminUser>, id: int)
    requires FindIndex(users, HasUserId(id)) != -1
    ensures var i := FindIndex(users, HasUserId(id));
            var reply := ToggleStatusIn(users, id)[i];
            FindIndex(users, HasUserId(reply.id)) == i &&
            users[i := reply] == ToggleStatusIn(users, id)
  {
  }
}
