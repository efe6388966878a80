/** The user management page of the admin console: the search and role filter over the
    listed users, the append after a create, the delete by id, the form reset and the
    per-row action menu. The requests to the backend are replaced by their outcome,
    passed in. */
module UserAdmin {
  import opened Wrappers
  import opened Text
  import SeqUtil
  import Toggle

  /** A row of the users list. An absent `id` is the empty string. */
  datatype Row = Row(id: string, name: string, email: string, role: string, status: string, lastLogin: Option<string>)

  /** The `user` of a successful create reply, which carries `userId`; an absent attribute is the empty string. */
  datatype CreatedUser = CreatedUser(userId: string, id: string, name: string, email: string, role: string,
                                     status: string, lastLogin: Option<string>)

  /** The create form. */
  datatype NewUserForm = NewUserForm(name: string, email: string, role: string)

  /** The credentials shown once after a create. */
  datatype Credentials = Credentials(email: string, pass: string)

  const EmptyForm := NewUserForm("", "", "EDITOR")

  /** The search box matches the name or the email, both sides lower-cased. */
  predicate MatchesSearch(u: Row, query: string) {
    Contains(Lower(u.name), Lower(query)) || Contains(Lower(u.email), Lower(query))
  }

  predicate MatchesRole(u: Row, roleFilter: string) {
    roleFilter == "ALL" || u.role == roleFilter
  }

  predicate Kept(u: Row, query: string, roleFilter: string) {
    MatchesSearch(u, query) && MatchesRole(u, roleFilter)
  }

  /** `filteredUsers`. */
  function FilteredUsers(users: seq<Row>, query: string, roleFilter: string): seq<Row> {
    SeqUtil.Filter(users, u => Kept(u, query, roleFilter))
  }

  /** A user is listed exactly when it is in `users` and matches both the search and the role
      filter; the listing keeps the order of `users`, and each kept user as often as it occurs there. */
  lemma FilteredUsersSpec(users: seq<Row>, query: string, roleFilter: string)
    ensures var r := FilteredUsers(users, query, roleFilter);
      && (forall u :: u in r <==> u in users && MatchesSearch(u, query) && MatchesRole(u, roleFilter))
      && SeqUtil.IsSubsequence(r, users)
      && forall u :: Kept(u, query, roleFilter) ==> multiset(r)[u] == multiset(users)[u]
  {
    SeqUtil.FilterMembers(users, u => Kept(u, query, roleFilter));
    SeqUtil.FilterIsSubsequence(users, u => Kept(u, query, roleFilter));
    SeqUtil.FilterCounts(users, u => Kept(u, query, roleFilter));
  }

  /** Every string contains the empty one. */
  lemma ContainsEmpty(s: string)
    ensures Contains(s, "")
  {
    assert OccursAt(s, "", 0);
  }

  /** An empty search with the role filter on "ALL" lists every user, in order. */
  lemma EmptySearchListsEveryone(users: seq<Row>)
    ensures FilteredUsers(users, "", "ALL") == users
  {
    forall i | 0 <= i < |users| ensures Kept(users[i], "", "ALL") {
      ContainsEmpty(Lower(users[i].name));
    }
    SeqUtil.FilterKeepsAll(users, u => Kept(u, "", "ALL"));
  }

  /** The row appended after a create: the reply's user with `id` set to its `userId`, or to its
      own `id` when `userId` is empty. */
  function Mapped(u: CreatedUser): (row: Row)
    ensures row.id == (if u.userId != "" then u.userId else u.id)
    ensures row.name == u.name && row.email == u.email && row.role == u.role && row.status == u.status
    ensures row.lastLogin == u.lastLogin
  {
    Row(if u.userId != "" then u.userId else u.id, u.name, u.email, u.role, u.status, u.lastLogin)
  }

  /** `users.filter(u => u.id !== userId)`. */
  function WithoutId(users: seq<Row>, userId: string): seq<Row> {
    SeqUtil.Filter(users, (u: Row) => u.id != userId)
  }

  /** The delete keeps exactly the rows with another id, in order. */
  lemma WithoutIdSpec(users: seq<Row>, userId: string)
    ensures var r := WithoutId(users, userId);
      && (forall u :: u in r <==> u in users && u.id != userId)
      && SeqUtil.IsSubsequence(r, users)
      && forall u: Row :: u.id != userId ==> multiset(r)[u] == multiset(users)[u]
  {
    SeqUtil.FilterMembers(users, (u: Row) => u.id != userId);
    SeqUtil.FilterIsSubsequence(users, (u: Row) => u.id != userId);
    SeqUtil.FilterCounts(users, (u: Row) => u.id != userId);
  }

  /** The page's state. */
  class UserManagementPage {
    var users: seq<Row>
    var searchQuery: string
    var roleFilter: string
    var newUser: NewUserForm
    var isModalOpen: bool
    var createdUserCreds: Option<Credentials>
    var openActionId: Option<string>

    constructor ()
      ensures users == [] && searchQuery == "" && roleFilter == "ALL" && newUser == EmptyForm
      ensures !isModalOpen && createdUserCreds == None && openActionId == None
    {
      users := [];
      searchQuery := "";
      roleFilter := "ALL";
      newUser := EmptyForm;
      isModalOpen := false;
      createdUserCreds := None;
      openActionId := None;
    }

    /** The rows on screen. */
    function Visible(): seq<Row>
      reads this
    {
      FilteredUsers(users, searchQuery, roleFilter)
    }

    /** `handleAddUser` once the request has answered: `ok` tells whether it succeeded, `created`
        and `tempPassword` are the reply. On success the mapped user is appended after the earlier
        rows, the modal closes, the credentials are shown and the form resets; on failure only an
        alert is shown. */
    method HandleAddUser(ok: bool, created: CreatedUser, tempPassword: string)
      modifies this
      ensures ok ==> users == old(users) + [Mapped(created)]
      ensures ok ==> !isModalOpen && createdUserCreds == Some(Credentials(old(newUser).email, tempPassword))
      ensures ok ==> newUser == EmptyForm
      ensures !ok ==> users == old(users) && isModalOpen == old(isModalOpen) && createdUserCreds == old(createdUserCreds)
      ensures !ok ==> newUser == old(newUser)
      ensures searchQuery == old(searchQuery) && roleFilter == old(roleFilter) && openActionId == old(openActionId)
    {
      if !ok {
        return;
      }
      var mappedUser := Mapped(created);
      users := users + [mappedUser];
      isModalOpen := false;
      createdUserCreds := Some(Credentials(newUser.email, tempPassword));
      newUser := EmptyForm;
    }

    /** The handler `handleDeleteUser` alone: `confirmed` is the answer to the confirmation
        dialog and `ok` whether the delete request succeeded. Only a confirmed, successful delete
        removes the rows with that id, and only then does the handler itself close the menu. */
    method HandleDeleteUser(userId: string, confirmed: bool, ok: bool)
      modifies this
      ensures users == if confirmed && ok then WithoutId(old(users), userId) else old(users)
      ensures openActionId == if confirmed && ok then None else old(openActionId)
      ensures searchQuery == old(searchQuery) && roleFilter == old(roleFilter) && newUser == old(newUser)
      ensures isModalOpen == old(isModalOpen) && createdUserCreds == old(createdUserCreds)
    {
      if !confirmed {
        return;
      }
      if ok {
        users := WithoutId(users, userId);
        openActionId := None;
      }
    }

    /** The window `click` listener: any click that reaches the window closes the action menu. */
    method ClickOutside()
      modifies this
      ensures openActionId == None
      ensures users == old(users) && searchQuery == old(searchQuery) && roleFilter == old(roleFilter)
      ensures newUser == old(newUser) && isModalOpen == old(isModalOpen) && createdUserCreds == old(createdUserCreds)
    {
      openActionId := None;
    }

    /** A click on a row menu's Delete button. The button does not stop the click's propagation,
        so the window listener runs after the handler: the menu ends closed whatever the dialog's
        answer and the request's outcome, and the rows change only on a confirmed, successful
        delete. */
    method DeleteClicked(userId: string, confirmed: bool, ok: bool)
      modifies this
      ensures users == if confirmed && ok then WithoutId(old(users), userId) else old(users)
      ensures openActionId == None
      ensures searchQuery == old(searchQuery) && roleFilter == old(roleFilter) && newUser == old(newUser)
      ensures isModalOpen == old(isModalOpen) && createdUserCreds == old(createdUserCreds)
    {
      HandleDeleteUser(userId, confirmed, ok);
      ClickOutside();
    }

    /** The action menu button of row `id`; it stops the click's propagation, so the window
        listener does not run. */
    method ToggleActionMenu(id: string)
      modifies this
      ensures openActionId == Toggle.Toggled(old(openActionId), id)
      ensures users == old(users) && searchQuery == old(searchQuery) && roleFilter == old(roleFilter)
      ensures newUser == old(newUser) && isModalOpen == old(isModalOpen) && createdUserCreds == old(createdUserCreds)
    {
      openActionId := if openActionId == Some(id) then None else Some(id);
    }
  }
}
