/** The in-memory user directory (`UserService`): listing by registration date, lookup,
    search, the active/suspended toggle and the dashboard counts. Calls that the source
    answers through an observable return their value (or `Failure` for the error
    notification) directly. */
module UserDirectory {
  import opened Wrappers
  import opened Seqs
  import opened Text
  import opened Models
  import opened Sorting

  /** The error both `getUserById` and `toggleUserStatus` settle with for an unknown id. */
  const NOT_FOUND := ServiceError(404, "User not found")

  function RegisteredAt(u: AdminUser): int
  {
    u.registeredAt
  }

  function HasUserId(id: int): AdminUser -> bool
  {
    (u: AdminUser) => u.id == id
  }

  function IsActive(): AdminUser -> bool
  {
    (u: AdminUser) => u.status == ACTIVE
  }

  /** The toggle: "active" becomes "suspended", and every other status becomes "active". */
  function FlipStatus(status: string): string
  {
    if status == ACTIVE then SUSPENDED else ACTIVE
  }

  /** Between the two account statuses the toggle is an involution that always changes the status;
      any other status is sent to "active". */
  lemma FlipStatusInvolution(status: string)
    ensures status == ACTIVE || status == SUSPENDED ==>
              FlipStatus(FlipStatus(status)) == status && FlipStatus(status) != status
    ensures status != ACTIVE ==> FlipStatus(status) == ACTIVE
  {
  }

  /** `toggleUserStatus` on the list of users: the first user with the id has its status flipped;
      an unknown id changes nothing. */
  function ToggleStatusIn(users: seq<AdminUser>, id: int): (r: seq<AdminUser>)
    ensures |r| == |users|
    ensures forall j {:trigger r[j]} :: 0 <= j < |r| ==>
              r[j] == users[j] || (users[j].id == id && r[j] == users[j].(status := FlipStatus(users[j].status)))
    ensures (forall j :: 0 <= j < |users| ==> users[j].id != id) ==> r == users
  {
    var i := FindIndex(users, HasUserId(id));
    if i == -1 then users else users[i := users[i].(status := FlipStatus(users[i].status))]
  }

  /** Only the status of the first user with the id changes. */
  lemma ToggleStatusChangesOneStatus(users: seq<AdminUser>, id: int)
    ensures var r := ToggleStatusIn(users, id);
            var i := FindIndex(users, HasUserId(id));
            |r| == |users| &&
            (forall j :: 0 <= j < |users| && j != i ==> r[j] == users[j]) &&
            (i != -1 ==> r[i] == users[i].(status := FlipStatus(users[i].status)))
  {
  }

  /** Toggling the same user twice restores the directory, provided that user's status is one of
      the two account statuses. */
  lemma ToggleStatusTwice(users: seq<AdminUser>, id: int)
    requires var i := FindIndex(users, HasUserId(id));
             i == -1 || users[i].status == ACTIVE || users[i].status == SUSPENDED
    ensures ToggleStatusIn(ToggleStatusIn(users, id), id) == users
  {
    var i := FindIndex(users, HasUserId(id));
    if i != -1 {
      var once := ToggleStatusIn(users, id);
      FindIndexIs(once, HasUserId(id), i);
      assert once[i := once[i].(status := FlipStatus(once[i].status))] == users;
    }
  }

  /** `getActiveUserCount` and `activeUsers`. */
  function CountActive(users: seq<AdminUser>): (r: nat)
    ensures r <= |users|
  {
    |Filter(users, IsActive())|
  }

  /** The active count is the number of positions that hold an active user. */
  lemma CountActivePositions(users: seq<AdminUser>)
    ensures CountActive(users) == |set i | 0 <= i < |users| && users[i].status == ACTIVE|
  {
    FilterLengthCountsIndices(users, IsActive());
    assert (set i | 0 <= i < |users| && users[i].status == ACTIVE) == Positions(users, IsActive());
  }

  /** A toggle of a known user moves the active count by exactly one: down when the user was
      active, up otherwise. */
  lemma ToggleStatusActiveCount(users: seq<AdminUser>, id: int)
    requires FindIndex(users, HasUserId(id)) != -1
    ensures var i := FindIndex(users, HasUserId(id));
            CountActive(ToggleStatusIn(users, id)) ==
            if users[i].status == ACTIVE then CountActive(users) - 1 else CountActive(users) + 1
  {
    var i := FindIndex(users, HasUserId(id));
    FilterCountUpdate(users, i, users[i].(status := FlipStatus(users[i].status)), IsActive());
  }

  /** The search test for an already lower-cased term: email, first name, last name, role or
      status. */
  function SearchMatches(lower: string): AdminUser -> bool
  {
    (u: AdminUser) =>
      Includes(Lower(u.email), lower) || Includes(Lower(u.firstName), lower) ||
      Includes(Lower(u.lastName), lower) || Includes(Lower(u.role), lower) ||
      Includes(Lower(u.status), lower)
  }

  /** A user's lower-cased email, names, role or status contains the lower-cased term. */
  ghost predicate UserMentions(u: AdminUser, lower: string)
  {
    Occurs(Lower(u.email), lower) || Occurs(Lower(u.firstName), lower) ||
    Occurs(Lower(u.lastName), lower) || Occurs(Lower(u.role), lower) || Occurs(Lower(u.status), lower)
  }

  /** The empty string is a substring of every string. */
  lemma IncludesEmpty(s: string)
    ensures Includes(s, "")
  {
    assert OccursAt(s, "", 0);
    IncludesIff(s, "");
  }

  class UserService {
    var users: seq<AdminUser>

    /** The directory starts as a copy of the seed accounts. */
    constructor(seed: seq<AdminUser>)
      ensures users == seed
    {
      users := seed;
    }

    /** `getAllUsers`: a copy of the directory ordered newest registration first, users registered
        at the same time kept in directory order; the directory itself is not reordered. */
    function GetAllUsers(): (r: seq<AdminUser>)
      reads this
      ensures multiset(r) == multiset(users)
      ensures SortedDesc(r, RegisteredAt)
      ensures forall t :: Filter(r, KeyIs(RegisteredAt, t)) == Filter(users, KeyIs(RegisteredAt, t))
    {
      SortDescSorted(users, RegisteredAt);
      forall t ensures Filter(SortDesc(users, RegisteredAt), KeyIs(RegisteredAt, t)) ==
                       Filter(users, KeyIs(RegisteredAt, t)) {
        SortDescStable(users, RegisteredAt, t);
      }
      SortDesc(users, RegisteredAt)
    }

    /** `getUserById`: the first user with the id, or the not-found error. */
    function GetUserById(id: int): (r: Result<AdminUser, ServiceError>)
      reads this
      ensures r.Failure? <==> forall j :: 0 <= j < |users| ==> users[j].id != id
      ensures r.Failure? ==> r.error == NOT_FOUND
      ensures r.Success? ==> exists k :: 0 <= k < |users| && users[k] == r.value && users[k].id == id &&
                                         forall j :: 0 <= j < k ==> users[j].id != id
    {
      match Find(users, HasUserId(id))
      case Some(u) => Success(u)
      case None => Failure(NOT_FOUND)
    }

    /** `searchUsers`: the users, in directory order, whose email, names, role or status contain
        the lower-cased term; the empty term keeps everyone. */
    function SearchUsers(term: string): (r: seq<AdminUser>)
      reads this
      ensures IsSubsequence(r, users)
      ensures term == "" ==> r == users
      ensures forall i :: 0 <= i < |r| ==> SearchMatches(Lower(term))(r[i])
    {
      FilterIsSubsequence(users, SearchMatches(Lower(term)));
      if term == "" then
        forall i | 0 <= i < |users| ensures SearchMatches(Lower(term))(users[i]) {
          IncludesEmpty(Lower(users[i].email));
        }
        FilterKeepsAll(users, SearchMatches(Lower(term)));
        Filter(users, SearchMatches(Lower(term)))
      else
        Filter(users, SearchMatches(Lower(term)))
    }

    /** A user is found by a non-empty term exactly when the user is in the directory and one of
        the five searched fields contains the term, compared in lower case. */
    lemma SearchUsersMembership(term: string, u: AdminUser)
      requires term != ""
      ensures u in SearchUsers(term) <==> u in users && UserMentions(u, Lower(term))
      ensures multiset(SearchUsers(term))[u] == if UserMentions(u, Lower(term)) then multiset(users)[u] else 0
    {
      var lower := Lower(term);
      FilterMembership(users, SearchMatches(lower), u);
      FilterMultiset(users, SearchMatches(lower), u);
      IncludesIff(Lower(u.email), lower);
      IncludesIff(Lower(u.firstName), lower);
      IncludesIff(Lower(u.lastName), lower);
      IncludesIff(Lower(u.role), lower);
      IncludesIff(Lower(u.status), lower);
    }

    /** `toggleUserStatus`: flips the status of the first user with the id and returns a copy of
        the updated user; an unknown id leaves the directory as it was and settles with the
        not-found error. */
    method ToggleUserStatus(id: int) returns (r: Result<AdminUser, ServiceError>)
      modifies this
      ensures users == ToggleStatusIn(old(users), id)
      ensures |users| == |old(users)|
      ensures var i := FindIndex(old(users), HasUserId(id));
              (i == -1 ==> r == Failure(NOT_FOUND)) &&
              (i != -1 ==> r == Success(users[i]) && r.value.id == id &&
                           r.value.status == FlipStatus(old(users)[i].status))
    {
      var index := FindIndex(users, HasUserId(id));
      if index == -1 {
        return Failure(NOT_FOUND);
      }
      users := users[index := users[index].(status := if users[index].status == ACTIVE then SUSPENDED else ACTIVE)];
      r := Success(users[index]);
    }

    /** `getUserCount`: the number of users, which is also the length of the listing. */
    function GetUserCount(): (n: nat)
      reads this
      ensures n == |users|
      ensures n == |GetAllUsers()|
    {
      assert |multiset(GetAllUsers())| == |multiset(users)|;
      |users|
    }

    /** `getActiveUserCount`: never more than the number of users. */
    function GetActiveUserCount(): (n: nat)
      reads this
      ensures n == CountActive(users) && n <= |users|
    {
      |Filter(users, IsActive())|
    }
  }
}
