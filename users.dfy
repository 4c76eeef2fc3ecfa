/** The user routes: the paginated list with its name/email search, role filter and
    client-chosen sort, create with its duplicate-email check and password hashing,
    lookup by id, the patch that builds its update field by field, and delete.
    Responses never carry the password. The User schema is not part of this model:
    its validators are the `validate` parameter, and bcrypt is the `hash` parameter. */
module Users {
  import opened Common
  import opened Query

  const ListFailure := "Error fetching users"
  const CreateFailure := "Error creating user"
  const DuplicateEmail := "User with this email already exists"
  const FetchFailure := "Error fetching user"
  const UpdateFailure := "Error updating user"
  const DeleteFailure := "Error deleting user"
  const InvalidId := "Invalid user ID"
  const UserNotFound := "User not found"
  const DefaultRole := "user"

  /** A stored user; `password` holds the hash. A field the request left out is
      absent (None) in the document. */
  datatype User = User(
    id: Id,
    name: Option<string>,
    email: Option<string>,
    password: string,
    role: string,
    createdAt: int)

  /** A user as the routes send it, without the password. */
  datatype PublicUser = PublicUser(id: Id, name: Option<string>, email: Option<string>, role: string, createdAt: int)

  function Public(u: User): (r: PublicUser)
    ensures r.id == u.id && r.name == u.name && r.email == u.email && r.role == u.role
  {
    PublicUser(u.id, u.name, u.email, u.role, u.createdAt)
  }

  /** The key a user is found and kept unique by: the ObjectId its id denotes. */
  function UserId(u: User): Id { CanonicalId(u.id) }

  /** A field matches a case-insensitive search when it is present and contains it. */
  predicate FieldMatches(field: Option<string>, q: string) {
    field.Some? && MatchesIgnoreCase(field.value, q)
  }

  // ---------------------------------------------------------------------------
  // GET /
  // ---------------------------------------------------------------------------

  /** The list query: the `$or` of name and email when the search is non-empty, and
      role equality when the role is non-empty. */
  function UserFilter(search: Option<string>, role: Option<string>): User -> bool {
    (u: User) =>
      && (!Truthy(search) || FieldMatches(u.name, search.value) || FieldMatches(u.email, search.value))
      && (!Truthy(role) || u.role == role.value)
  }

  /** Without a search or a role every user is listed. */
  lemma EmptyUserFilterKeepsAll(s: seq<User>)
    ensures Filter(s, UserFilter(None, None)) == s
  {
    FilterKeepsAll(s, UserFilter(None, None));
  }

  /** A search for a user's own email, in any letter case, together with the user's
      role, selects that user. */
  lemma UserFilterFindsOwnEmail(u: User)
    requires u.email.Some?
    ensures UserFilter(u.email, Some(u.role))(u)
  {
    MatchesSelf(u.email.value);
  }

  function TextOrMissing(v: Option<string>): Key {
    if v.Some? then Text(v.value) else Missing
  }

  /** The value of `sortField` in a user document; a field users do not have is
      absent in every document. */
  function UserSortKey(field: string): User -> Key {
    (u: User) =>
      if field == "createdAt" then Num(u.createdAt)
      else if field == "name" then TextOrMissing(u.name)
      else if field == "email" then TextOrMissing(u.email)
      else if field == "role" then Text(u.role)
      else if field == "password" then Text(u.password)
      else if field == "_id" then Text(u.id)
      else Missing
  }

  function SortedMatches(
    s: seq<User>, search: Option<string>, role: Option<string>,
    sortField: Option<string>, sortOrder: Option<string>): seq<User>
  {
    SortBy(Filter(s, UserFilter(search, role)),
           UserSortKey(sortField.GetOr("createdAt")),
           SortDirection(sortOrder) == -1)
  }

  function PublicAll(s: seq<User>): (r: seq<PublicUser>)
    ensures |r| == |s|
    ensures forall i :: 0 <= i < |s| ==> r[i] == Public(s[i])
  {
    seq(|s|, i requires 0 <= i < |s| => Public(s[i]))
  }

  /** GET /: the page of sorted matches with the password projected away; `total`
      counts every match; a negative skip is answered with 500. */
  function ListUsers(
    s: seq<User>, page: Option<int>, pageSize: Option<int>, search: Option<string>,
    role: Option<string>, sortField: Option<string>, sortOrder: Option<string>)
    : (r: Response<ListPage<PublicUser>>)
    ensures r.ServerError? <==> SkipFor(page.GetOr(1), pageSize.GetOr(10)) < 0
    ensures r.Ok? || r == ServerError(ListFailure)
    ensures r.Ok? ==> && r.body.page == page.GetOr(1) && r.body.pageSize == pageSize.GetOr(10)
                      && r.body.total == CountIf(s, UserFilter(search, role))
                      && (pageSize.GetOr(10) != 0 ==> |r.body.data| <= Abs(pageSize.GetOr(10)))
  {
    var p := page.GetOr(1);
    var n := pageSize.GetOr(10);
    var skip := SkipFor(p, n);
    if skip < 0 then ServerError(ListFailure)
    else
      var m := SortedMatches(s, search, role, sortField, sortOrder);
      CountIfIsFilterLength(s, UserFilter(search, role));
      Ok(ListPage(PublicAll(Paginate(m, skip, n)), |m|, p, n))
  }

  /** Every listed user is the public form of a stored user that passes the filter:
      with a role filter it has that role, with a search its name or email matches. */
  lemma ListUsersMembers(
    s: seq<User>, page: Option<int>, pageSize: Option<int>, search: Option<string>,
    role: Option<string>, sortField: Option<string>, sortOrder: Option<string>)
    requires ListUsers(s, page, pageSize, search, role, sortField, sortOrder).Ok?
    ensures var d := ListUsers(s, page, pageSize, search, role, sortField, sortOrder).body.data;
            forall i :: 0 <= i < |d| ==>
              exists u :: u in s && UserFilter(search, role)(u) && d[i] == Public(u)
    ensures var d := ListUsers(s, page, pageSize, search, role, sortField, sortOrder).body.data;
            Truthy(role) ==> forall i :: 0 <= i < |d| ==> d[i].role == role.value
  {
    var skip := SkipFor(page.GetOr(1), pageSize.GetOr(10));
    var n := pageSize.GetOr(10);
    var pg := Paginate(SortedMatches(s, search, role, sortField, sortOrder), skip, n);
    var d := ListUsers(s, page, pageSize, search, role, sortField, sortOrder).body.data;
    assert d == PublicAll(pg);
    SortedPage(s, UserFilter(search, role), UserSortKey(sortField.GetOr("createdAt")),
               SortDirection(sortOrder) == -1, skip, n);
    forall i | 0 <= i < |d| ensures exists u :: u in s && UserFilter(search, role)(u) && d[i] == Public(u) {
      assert pg[i] in s && d[i] == Public(pg[i]);
    }
  }

  /** The page is the public form of the skip/limit window at (page−1)·pageSize
      over the sorted matches, and `total` is the number of those matches. */
  lemma ListUsersWindow(
    s: seq<User>, page: Option<int>, pageSize: Option<int>, search: Option<string>,
    role: Option<string>, sortField: Option<string>, sortOrder: Option<string>)
    requires ListUsers(s, page, pageSize, search, role, sortField, sortOrder).Ok?
    ensures ListUsers(s, page, pageSize, search, role, sortField, sortOrder).body.data
         == PublicAll(Paginate(SortedMatches(s, search, role, sortField, sortOrder),
                               SkipFor(page.GetOr(1), pageSize.GetOr(10)), pageSize.GetOr(10)))
    ensures ListUsers(s, page, pageSize, search, role, sortField, sortOrder).body.total
         == |SortedMatches(s, search, role, sortField, sortOrder)|
  {
  }

  /** The users behind the page are sorted on the chosen field, descending exactly
      when sortOrder is 'desc' (the default). */
  lemma ListUsersSorted(
    s: seq<User>, page: Option<int>, pageSize: Option<int>, search: Option<string>,
    role: Option<string>, sortField: Option<string>, sortOrder: Option<string>)
    requires ListUsers(s, page, pageSize, search, role, sortField, sortOrder).Ok?
    ensures SortedBy(Paginate(SortedMatches(s, search, role, sortField, sortOrder),
                              SkipFor(page.GetOr(1), pageSize.GetOr(10)), pageSize.GetOr(10)),
                     UserSortKey(sortField.GetOr("createdAt")), sortOrder.GetOr("desc") == "desc")
  {
    SortedPage(s, UserFilter(search, role), UserSortKey(sortField.GetOr("createdAt")),
               SortDirection(sortOrder) == -1, SkipFor(page.GetOr(1), pageSize.GetOr(10)), pageSize.GetOr(10));
  }

  // ---------------------------------------------------------------------------
  // GET /:id
  // ---------------------------------------------------------------------------

  /** A malformed id is 400; otherwise the user whose id denotes the same ObjectId,
      in whatever letter case, without the password, or 404. */
  function GetUser(s: seq<User>, id: Id): (r: Response<PublicUser>)
    ensures !IsObjectId(id) <==> r == BadRequest(InvalidId)
    ensures r == NotFound(UserNotFound) <==>
              IsObjectId(id) && forall i :: 0 <= i < |s| ==> CanonicalId(s[i].id) != CanonicalId(id)
    ensures r.Ok? ==> exists i :: 0 <= i < |s| && CanonicalId(s[i].id) == CanonicalId(id) && r.body == Public(s[i])
    ensures r.Ok? || r.BadRequest? || r.NotFound?
  {
    if !IsObjectId(id) then BadRequest(InvalidId)
    else
      match IndexOf(s, UserId, CanonicalId(id))
      case None => NotFound(UserNotFound)
      case Some(k) => Ok(Public(s[k]))
  }

  /** Two id texts that denote the same ObjectId get the same answer. */
  lemma GetUserIgnoresCase(s: seq<User>, a: Id, b: Id)
    requires CanonicalId(a) == CanonicalId(b)
    ensures GetUser(s, a) == GetUser(s, b)
  {
    SameIdSameShape(a, b);
  }

  // ---------------------------------------------------------------------------
  // POST /
  // ---------------------------------------------------------------------------

  /** The filter `User.findOne({ email })` sends. An absent email is read as a key
      that drops out of the filter, which then matches any user. */
  function EmailQuery(email: Option<string>): User -> bool {
    (u: User) => email.None? || u.email == email
  }

  /** `User.findOne({ email })` finds someone. */
  predicate EmailTaken(s: seq<User>, email: Option<string>) {
    if email.None? then |s| > 0 else exists i :: 0 <= i < |s| && s[i].email == email
  }

  /** The duplicate check fires exactly when `find` with the same filter returns
      at least one user, so `findOne` returns its first one. */
  lemma {:induction false} EmailTakenIffFilterNonEmpty(s: seq<User>, email: Option<string>)
    ensures EmailTaken(s, email) <==> Filter(s, EmailQuery(email)) != []
  {
    if s != [] {
      EmailTakenIffFilterNonEmpty(s[1..], email);
      if email.Some? {
        if exists i :: 0 <= i < |s| && s[i].email == email {
          var i :| 0 <= i < |s| && s[i].email == email;
          if i > 0 {
            assert s[1..][i - 1].email == email;
          }
        }
        if EmailTaken(s[1..], email) {
          var i :| 0 <= i < |s[1..]| && s[1..][i].email == email;
          assert s[i + 1].email == email;
        }
      }
    }
  }

  /** Present emails are unique. */
  ghost predicate EmailsUnique(s: seq<User>) {
    forall i, j :: 0 <= i < j < |s| && s[i].email.Some? ==> s[i].email != s[j].email
  }

  /** `role || 'user'`. */
  function RoleOrDefault(role: Option<string>): (r: string)
    ensures Truthy(role) ==> r == role.value
    ensures !Truthy(role) ==> r == DefaultRole
  {
    if Truthy(role) then role.value else DefaultRole
  }

  /** A user inserted past the duplicate check keeps present emails unique. */
  lemma CreateKeepsEmailsUnique(s: seq<User>, u: User)
    requires EmailsUnique(s) && !EmailTaken(s, u.email)
    ensures EmailsUnique(s + [u])
  {
    var t := s + [u];
    forall i, j | 0 <= i < j < |t| && t[i].email.Some? ensures t[i].email != t[j].email {
      if j == |s| {
        assert t[i] == s[i];
      }
    }
  }

  // ---------------------------------------------------------------------------
  // PATCH /:id
  // ---------------------------------------------------------------------------

  /** The `updateData` object: the fields the patch sets. */
  datatype UserUpdate = UserUpdate(
    name: Option<string>,
    email: Option<string>,
    role: Option<string>,
    password: Option<string>)

  /** Build `updateData` field by field: a truthy name, email or role is copied, and
      a truthy password is copied hashed. */
  method BuildUpdateData(
    name: Option<string>, email: Option<string>, password: Option<string>, role: Option<string>,
    hash: string -> string)
    returns (update: UserUpdate)
    ensures update.name.Some? <==> Truthy(name)
    ensures update.email.Some? <==> Truthy(email)
    ensures update.role.Some? <==> Truthy(role)
    ensures update.password.Some? <==> Truthy(password)
    ensures update.name.Some? ==> update.name == name
    ensures update.email.Some? ==> update.email == email
    ensures update.role.Some? ==> update.role == role
    ensures update.password.Some? ==> update.password.value == hash(password.value)
  {
    update := UserUpdate(None, None, None, None);
    if Truthy(name) {
      update := update.(name := name);
    }
    if Truthy(email) {
      update := update.(email := email);
    }
    if Truthy(role) {
      update := update.(role := role);
    }
    if Truthy(password) {
      update := update.(password := Some(hash(password.value)));
    }
  }

  /** `$set` of `updateData`: each field it has replaces the stored one. */
  function ApplyUpdate(u: User, update: UserUpdate): (r: User)
    ensures r.id == u.id && r.createdAt == u.createdAt
    ensures r.name == (if update.name.Some? then update.name else u.name)
    ensures r.email == (if update.email.Some? then update.email else u.email)
    ensures r.role == update.role.GetOr(u.role)
    ensures r.password == update.password.GetOr(u.password)
  {
    u.(name := if update.name.Some? then update.name else u.name,
       email := if update.email.Some? then update.email else u.email,
       role := update.role.GetOr(u.role),
       password := update.password.GetOr(u.password))
  }

  /** A patch without a password keeps the stored hash; a patch whose fields are all
      empty or absent changes nothing. */
  lemma PatchWithoutPasswordKeepsHash(u: User, update: UserUpdate)
    requires update.password.None?
    ensures ApplyUpdate(u, update).password == u.password
  {
  }

  lemma EmptyUpdateChangesNothing(u: User)
    ensures ApplyUpdate(u, UserUpdate(None, None, None, None)) == u
  {
  }

  /** Unlike create, the patch does not check the email: giving one user another's
      email leaves two users with the same email. */
  lemma PatchCanDuplicateEmail(a: User, b: User)
    requires a.id != b.id && a.email.Some? && a.email != b.email
    ensures EmailsUnique([a, b])
    ensures !EmailsUnique([a, ApplyUpdate(b, UserUpdate(None, a.email, None, None))])
  {
    var t := [a, ApplyUpdate(b, UserUpdate(None, a.email, None, None))];
    assert t[0].email == t[1].email;
  }

  // ---------------------------------------------------------------------------
  // The stored users
  // ---------------------------------------------------------------------------

  class UserStore {
    var users: seq<User>

    ghost predicate Valid()
      reads this
    {
      UniqueIds(users, UserId)
    }

    constructor()
      ensures Valid() && users == []
    {
      users := [];
    }

    /** POST /. An email someone already has is 400 and nothing is stored. A missing
        password makes the hash throw (400). Otherwise the user gets the hashed
        password and `role || 'user'`; if the schema refuses it, 400; else it is
        stored and returned without the password, 201. */
    method Create(
      name: Option<string>, email: Option<string>, password: Option<string>, role: Option<string>,
      hash: string -> string, validate: User -> bool, newId: Id, now: int)
      returns (r: Response<PublicUser>)
      requires Valid() && IndexOf(users, UserId, CanonicalId(newId)).None?
      modifies this
      ensures Valid()
      ensures !r.Created? ==> users == old(users)
      ensures EmailTaken(old(users), email) ==> r == BadRequest(DuplicateEmail)
      ensures !EmailTaken(old(users), email) && password.None? ==> r == BadRequest(CreateFailure)
      ensures !EmailTaken(old(users), email) && password.Some? ==>
                var u := User(newId, name, email, hash(password.value), RoleOrDefault(role), now);
                && (!validate(u) ==> r == BadRequest(CreateFailure))
                && (validate(u) ==> r == Created(Public(u)) && users == old(users) + [u])
    {
      if EmailTaken(users, email) {
        r := BadRequest(DuplicateEmail);
        return;
      }
      if password.None? {
        r := BadRequest(CreateFailure);
        return;
      }
      var u := User(newId, name, email, hash(password.value), RoleOrDefault(role), now);
      if !validate(u) {
        r := BadRequest(CreateFailure);
        return;
      }
      AppendFresh(users, UserId, u);
      users := users + [u];
      r := Created(Public(u));
    }

    /** PATCH /:id. A malformed id is 400 with no change; otherwise `updateData` is
        built and `$set` on the user with that id: 404 when there is none, else the
        updated user without the password. */
    method Patch(
      id: Id, name: Option<string>, email: Option<string>, password: Option<string>, role: Option<string>,
      hash: string -> string)
      returns (r: Response<PublicUser>)
      requires Valid()
      modifies this
      ensures Valid()
      ensures !IsObjectId(id) ==> r == BadRequest(InvalidId) && users == old(users)
      ensures IsObjectId(id) && IndexOf(old(users), UserId, CanonicalId(id)).None? ==>
                r == NotFound(UserNotFound) && users == old(users)
      ensures IsObjectId(id) && IndexOf(old(users), UserId, CanonicalId(id)).Some? ==>
                var k := IndexOf(old(users), UserId, CanonicalId(id)).value;
                && |users| == |old(users)|
                && (forall j :: 0 <= j < |users| && j != k ==> users[j] == old(users)[j])
                && users[k].id == old(users)[k].id && users[k].createdAt == old(users)[k].createdAt
                && users[k].name == (if Truthy(name) then name else old(users)[k].name)
                && users[k].email == (if Truthy(email) then email else old(users)[k].email)
                && users[k].role == (if Truthy(role) then role.value else old(users)[k].role)
                && users[k].password == (if Truthy(password) then hash(password.value) else old(users)[k].password)
                && r == Ok(Public(users[k]))
    {
      if !IsObjectId(id) {
        r := BadRequest(InvalidId);
        return;
      }
      var update := BuildUpdateData(name, email, password, role, hash);
      var found := IndexOf(users, UserId, CanonicalId(id));
      if found.None? {
        r := NotFound(UserNotFound);
      } else {
        var k := found.value;
        var updated := ApplyUpdate(users[k], update);
        ReplaceKeepsUnique(users, UserId, k, updated);
        users := users[k := updated];
        r := Ok(Public(updated));
      }
    }

    /** DELETE /:id: a malformed id is 400, a missing id 404; otherwise the user is
        removed and the answer is 204. */
    method Delete(id: Id) returns (r: Response<PublicUser>)
      requires Valid()
      modifies this
      ensures Valid()
      ensures !IsObjectId(id) ==> r == BadRequest(InvalidId) && users == old(users)
      ensures IsObjectId(id) && IndexOf(old(users), UserId, CanonicalId(id)).None? ==>
                r == NotFound(UserNotFound) && users == old(users)
      ensures IsObjectId(id) && IndexOf(old(users), UserId, CanonicalId(id)).Some? ==>
                r == NoContent && users == RemoveAt(old(users), IndexOf(old(users), UserId, CanonicalId(id)).value)
    {
      if !IsObjectId(id) {
        r := BadRequest(InvalidId);
        return;
      }
      var found := IndexOf(users, UserId, CanonicalId(id));
      if found.None? {
        r := NotFound(UserNotFound);
      } else {
        RemoveUnique(users, UserId, found.value);
        users := RemoveAt(users, found.value);
        r := NoContent;
      }
    }
  }

  /** After a delete the user is no longer found. */
  lemma DeletedUserIsGone(s: seq<User>, k: nat)
    requires UniqueIds(s, UserId) && k < |s| && IsObjectId(s[k].id)
    ensures GetUser(RemoveAt(s, k), s[k].id) == NotFound(UserNotFound)
  {
    RemoveUnique(s, UserId, k);
  }

  /** A created user is found by id, without the password. */
  lemma CreatedUserIsFound(s: seq<User>, u: User)
    requires UniqueIds(s, UserId) && IndexOf(s, UserId, UserId(u)).None? && IsObjectId(u.id)
    ensures GetUser(s + [u], u.id) == Ok(Public(u))
  {
    AppendFresh(s, UserId, u);
  }
}
