/**
 * The admin's user list (app/admin/users/page.js). It works on a
 * client-side list only: edits merge the form into the matching user,
 * additions append a user stamped with the clock, deletions go through a
 * confirm dialog, and a search box filters the list. The initial list is
 * fixed sample data.
 *
 * `Date.now()` and `new Date().toISOString()` are the parameters `now`
 * and `isoNow`; toasts and the form library's rendering are left out.
 */
module UsersPage {
  import opened Wrappers
  import opened Text
  import opened Lists

  /** A user as the list holds it. The sample users carry no password. */
  datatype User = User(
    id: string, fullName: string, username: string, email: string, password: Option<string>,
    isActive: bool, isLeadRole: bool, isCSR: bool, isAdmin: bool, createdAt: string)

  /** The form's values; the password input exists only while adding. */
  datatype UserForm = UserForm(
    fullName: string, username: string, email: string, password: Option<string>,
    isActive: bool, isLeadRole: bool, isCSR: bool, isAdmin: bool)

  const EmptyForm := UserForm("", "", "", None, false, false, false, false)

  const SampleUsers := [
    User("1", "John Doe", "johndoe", "john.doe@example.com", None, true, false, true, false, "2023-01-15T10:30:00Z"),
    User("2", "Jane Smith", "janesmith", "jane.smith@example.com", None, true, true, true, false, "2023-02-20T14:45:00Z"),
    User("3", "Admin User", "adminuser", "admin@example.com", None, true, false, false, true, "2023-03-10T09:15:00Z")]

  /** `{ ...user, ...data }`: every form field overrides; `_id` and `createdAt` stay. */
  function Merge(u: User, data: UserForm): (m: User)
    ensures m.id == u.id && m.createdAt == u.createdAt
    ensures (m.fullName, m.username, m.email) == (data.fullName, data.username, data.email)
    ensures (m.isActive, m.isLeadRole, m.isCSR, m.isAdmin) == (data.isActive, data.isLeadRole, data.isCSR, data.isAdmin)
    ensures m.password == (if data.password.Some? then data.password else u.password)
  {
    User(u.id, data.fullName, data.username, data.email,
         if data.password.Some? then data.password else u.password,
         data.isActive, data.isLeadRole, data.isCSR, data.isAdmin, u.createdAt)
  }

  /** `users.map(user => user._id === id ? { ...user, ...data } : user)`. */
  function Updated(users: seq<User>, id: string, data: UserForm): (r: seq<User>)
    ensures |r| == |users|
    ensures forall i :: 0 <= i < |users| ==> r[i].id == users[i].id
    ensures forall i :: 0 <= i < |users| && users[i].id != id ==> r[i] == users[i]
    ensures forall i :: 0 <= i < |users| && users[i].id == id ==> r[i] == Merge(users[i], data)
  {
    seq(|users|, i requires 0 <= i < |users| => if users[i].id == id then Merge(users[i], data) else users[i])
  }

  /** `{ _id: Date.now().toString(), ...data, createdAt: new Date().toISOString() }`. */
  function NewUser(data: UserForm, now: nat, isoNow: string): (u: User)
    ensures u.id == NatToString(now) && u.createdAt == isoNow
    ensures Merge(u, data) == u
  {
    User(NatToString(now), data.fullName, data.username, data.email, data.password,
         data.isActive, data.isLeadRole, data.isCSR, data.isAdmin, isoNow)
  }

  /**
   * What `handleEdit` writes into the form: every key of the user but `_id`
   * and `createdAt`. A user without a password leaves the form's password
   * as it was, so only a form without one merges back to the same user.
   */
  function FormFor(form: UserForm, u: User): (f: UserForm)
    ensures u.password.Some? || form.password.None? ==> Merge(u, f) == u
    ensures u.password.None? ==> f.password == form.password
  {
    UserForm(u.fullName, u.username, u.email, if u.password.Some? then u.password else form.password,
             u.isActive, u.isLeadRole, u.isCSR, u.isAdmin)
  }

  /** `users.filter(user => user._id !== id)`. */
  function Without(users: seq<User>, id: string): (r: seq<User>)
    ensures forall u :: u in r <==> u in users && u.id != id
    ensures IsSublist(r, users)
  {
    Filter(users, (u: User) => u.id != id)
  }

  /** The search: the lower-cased term occurs in the lower-cased name, username or email. */
  predicate Matches(u: User, term: string) {
    var t := Lower(term);
    Contains(Lower(u.fullName), t) || Contains(Lower(u.username), t) || Contains(Lower(u.email), t)
  }

  function Search(users: seq<User>, term: string): (r: seq<User>)
    ensures forall u :: u in r <==> u in users && Matches(u, term)
    ensures IsSublist(r, users)
  {
    Filter(users, (u: User) => Matches(u, term))
  }

  /** An empty search box shows every user. */
  lemma EmptySearchKeepsAll(users: seq<User>)
    ensures Search(users, "") == users
  {
    forall i | 0 <= i < |users| ensures Matches(users[i], "") {
      ContainsEmpty(Lower(users[i].fullName));
    }
  }

  /** The search ignores the case of the term. */
  lemma SearchIgnoresTermCase(users: seq<User>, term: string)
    ensures Search(users, term) == Search(users, Lower(term))
  {
    LowerIdempotent(term);
    FilterAgree(users, (u: User) => Matches(u, term), (u: User) => Matches(u, Lower(term)));
  }

  /**
   * Editing a user and saving the form untouched leaves the list as it was,
   * provided no other user shares the edited user's `_id`.
   */
  lemma EditUntouchedIsIdentity(users: seq<User>, form: UserForm, k: nat)
    requires k < |users|
    requires forall i :: 0 <= i < |users| && users[i].id == users[k].id ==> i == k
    requires users[k].password.Some? || form.password.None?
    ensures Updated(users, users[k].id, FormFor(form, users[k])) == users
  {
  }

  /** A delete leaves no user with the selected `_id` and keeps every other user, in order. */
  lemma DeleteRemovesExactly(users: seq<User>, id: string)
    ensures forall u :: u in Without(users, id) ==> u.id != id
    ensures forall u :: u in users && u.id != id ==> u in Without(users, id)
    ensures |Without(users, id)| == |users| <==> forall u :: u in users ==> u.id != id
  {
    var r := Without(users, id);
    if |r| == |users| {
      SublistSameLength(r, users);
    }
    if forall u :: u in users ==> u.id != id {
      assert forall i :: 0 <= i < |users| ==> users[i] in users;
    }
  }

  /** An order-preserving sublist as long as the list is the list itself. */
  lemma {:induction false} SublistSameLength<T(!new)>(xs: seq<T>, ys: seq<T>)
    requires IsSublist(xs, ys) && |xs| == |ys|
    ensures xs == ys
    decreases |ys|
  {
    if xs != [] {
      if xs[0] == ys[0] && IsSublist(xs[1..], ys[1..]) {
        SublistSameLength(xs[1..], ys[1..]);
        assert xs == [xs[0]] + xs[1..];
      } else {
        SublistShorter(xs, ys[1..]);
      }
    }
  }

  lemma {:induction false} SublistShorter<T(!new)>(xs: seq<T>, ys: seq<T>)
    requires IsSublist(xs, ys)
    ensures |xs| <= |ys|
    decreases |ys|
  {
    if xs != [] {
      if xs[0] == ys[0] && IsSublist(xs[1..], ys[1..]) {
        SublistShorter(xs[1..], ys[1..]);
      } else {
        SublistShorter(xs, ys[1..]);
      }
    }
  }

  class Page {
    var users: seq<User>
    var loading: bool
    var editingUser: Option<User>
    var showAddForm: bool
    var searchTerm: string
    var showDeleteConfirm: bool
    var userToDelete: Option<User>
    var form: UserForm

    constructor ()
      ensures users == [] && loading && editingUser.None? && !showAddForm && searchTerm == ""
      ensures !showDeleteConfirm && userToDelete.None? && form == EmptyForm
    {
      users := [];
      loading := true;
      editingUser := None;
      showAddForm := false;
      searchTerm := "";
      showDeleteConfirm := false;
      userToDelete := None;
      form := EmptyForm;
    }

    /** `fetchUsers`: the list becomes the sample users. */
    method FetchUsers()
      modifies this
      ensures users == SampleUsers && !loading
      ensures editingUser == old(editingUser) && showAddForm == old(showAddForm) && form == old(form)
      ensures showDeleteConfirm == old(showDeleteConfirm) && userToDelete == old(userToDelete)
      ensures searchTerm == old(searchTerm)
    {
      loading := true;
      users := SampleUsers;
      loading := false;
    }

    /** `onSubmit`: an edit merges into the edited user, an addition appends; the form resets. */
    method OnSubmit(data: UserForm, now: nat, isoNow: string)
      modifies this
      ensures old(editingUser).Some? ==>
                users == Updated(old(users), old(editingUser).value.id, data)
                && editingUser.None? && showAddForm == old(showAddForm)
      ensures old(editingUser).None? ==>
                users == old(users) + [NewUser(data, now, isoNow)] && editingUser.None? && !showAddForm
      ensures form == EmptyForm
      ensures showDeleteConfirm == old(showDeleteConfirm) && userToDelete == old(userToDelete)
      ensures searchTerm == old(searchTerm) && loading == old(loading)
    {
      if editingUser.Some? {
        users := Updated(users, editingUser.value.id, data);
        editingUser := None;
      } else {
        users := users + [NewUser(data, now, isoNow)];
        showAddForm := false;
      }
      form := EmptyForm;
    }

    /** `handleEdit(user)`. */
    method HandleEdit(u: User)
      modifies this
      ensures editingUser == Some(u) && showAddForm
      ensures form == FormFor(old(form), u)
      ensures users == old(users) && showDeleteConfirm == old(showDeleteConfirm)
      ensures userToDelete == old(userToDelete) && searchTerm == old(searchTerm) && loading == old(loading)
    {
      editingUser := Some(u);
      showAddForm := true;
      form := form.(fullName := u.fullName, username := u.username, email := u.email);
      if u.password.Some? {
        form := form.(password := u.password);
      }
      form := form.(isActive := u.isActive, isLeadRole := u.isLeadRole, isCSR := u.isCSR, isAdmin := u.isAdmin);
    }

    /** `handleDelete(user)`: select and open the dialog. */
    method HandleDelete(u: User)
      modifies this
      ensures userToDelete == Some(u) && showDeleteConfirm
      ensures users == old(users) && editingUser == old(editingUser) && showAddForm == old(showAddForm)
      ensures form == old(form) && searchTerm == old(searchTerm) && loading == old(loading)
    {
      userToDelete := Some(u);
      showDeleteConfirm := true;
    }

    /** `confirmDelete`: nothing at all without a selection; otherwise remove it and close. */
    method ConfirmDelete()
      modifies this
      ensures old(userToDelete).None? ==>
                users == old(users) && showDeleteConfirm == old(showDeleteConfirm) && userToDelete.None?
      ensures old(userToDelete).Some? ==>
                users == Without(old(users), old(userToDelete).value.id)
                && !showDeleteConfirm && userToDelete.None?
      ensures editingUser == old(editingUser) && showAddForm == old(showAddForm)
      ensures form == old(form) && searchTerm == old(searchTerm) && loading == old(loading)
    {
      if userToDelete.None? {
        return;
      }
      users := Without(users, userToDelete.value.id);
      showDeleteConfirm := false;
      userToDelete := None;
    }

    /** `cancelDelete`. */
    method CancelDelete()
      modifies this
      ensures !showDeleteConfirm && userToDelete.None?
      ensures users == old(users) && editingUser == old(editingUser) && showAddForm == old(showAddForm)
      ensures form == old(form) && searchTerm == old(searchTerm) && loading == old(loading)
    {
      showDeleteConfirm := false;
      userToDelete := None;
    }

    /** `handleCancel`. */
    method HandleCancel()
      modifies this
      ensures editingUser.None? && !showAddForm && form == EmptyForm
      ensures users == old(users) && showDeleteConfirm == old(showDeleteConfirm)
      ensures userToDelete == old(userToDelete) && searchTerm == old(searchTerm) && loading == old(loading)
    {
      editingUser := None;
      showAddForm := false;
      form := EmptyForm;
    }

    /** The "Add New User" / "Cancel" button: toggles the form and starts afresh. */
    method ToggleAddForm()
      modifies this
      ensures showAddForm == !old(showAddForm) && editingUser.None? && form == EmptyForm
      ensures users == old(users) && showDeleteConfirm == old(showDeleteConfirm)
      ensures userToDelete == old(userToDelete) && searchTerm == old(searchTerm) && loading == old(loading)
    {
      showAddForm := !showAddForm;
      editingUser := None;
      form := EmptyForm;
    }

    /** The rows shown: the users the search box keeps. */
    function Shown(): (r: seq<User>)
      reads this
      ensures IsSublist(r, users)
      ensures forall u :: u in r <==> u in users && Matches(u, searchTerm)
    {
      Search(users, searchTerm)
    }
  }
}
