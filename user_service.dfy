/**
 * UserService: account validity, password checks, authentication, record
 * construction and paging as functions of the stored table, and the two
 * operations that change a stored record in place (modifyUser,
 * modifyPasswordOfUser) as methods of a class over the repository.
 */
module Service {
  import opened Outcomes
  import opened Passwords
  import opened Users
  import opened Dto
  import opened Persistence
  import opened NotFoundMessages

  const InvalidCredentialsMessage: string := "Invalid username/password supplied"
  const OldPasswordIncorrect: string := "Old password is incorrect"
  const PageIndexNegative: string := "Page index must not be less than zero!"
  const PageSizeTooSmall: string := "Page size must not be less than one!"

  /** isUserValid: enabled, and `now` inside the validity window, both ends included. */
  predicate IsUserValid(u: AppUser, now: int) {
    u.active && u.validFrom <= now <= u.expireDate
  }

  /** checkPassword: the plaintext matches the stored encoded password. */
  predicate CheckPassword(u: AppUser, password: string) {
    Matches(password, u.password)
  }

  /** A stored record that the given credentials may log in as, at `now`. */
  predicate AcceptsLogin(u: AppUser, creds: Credentials, now: int) {
    u.username == creds.username && CheckPassword(u, creds.password) && IsUserValid(u, now)
  }

  function Min(a: int, b: int): int { if a <= b then a else b }

  /** A page of a listing: its content and the information the page carries. */
  datatype Page<T> = Page(content: seq<T>, number: int, size: int, totalElements: nat)

  /** The rows a page request selects: from page*size on, at most size of them. */
  function PageContent(rows: seq<AppUser>, page: nat, size: nat): (r: seq<AppUser>)
    requires size > 0
    ensures r == rows[Min(page * size, |rows|)..Min((page + 1) * size, |rows|)]
  {
    var lo := page * size;
    assert (page + 1) * size == lo + size;
    if lo >= |rows| then [] else rows[lo..Min(lo + size, |rows|)]
  }

  /** getUsersPaged: findAll(PageRequest.of(page, size)), which refuses bad page requests. */
  function GetUsersPaged(rows: seq<AppUser>, page: int, size: int): (r: Result<Page<AppUser>>)
    ensures page < 0 ==> r == Err(IllegalArgument(PageIndexNegative))
    ensures page >= 0 && size < 1 ==> r == Err(IllegalArgument(PageSizeTooSmall))
    ensures page >= 0 && size >= 1 ==> r.Ok? && r.value.totalElements == |rows|
    ensures page >= 0 && size >= 1 ==> r.Ok? && r.value.number == page && r.value.size == size
    ensures page >= 0 && size >= 1 ==>
              r.Ok? && r.value.content == rows[Min(page * size, |rows|)..Min((page + 1) * size, |rows|)]
  {
    if page < 0 then Err(IllegalArgument(PageIndexNegative))
    else if size < 1 then Err(IllegalArgument(PageSizeTooSmall))
    else Ok(Page(PageContent(rows, page, size), page, size, |rows|))
  }

  /** The pages from `page` on, one after the other. */
  function PagesFrom(rows: seq<AppUser>, size: nat, page: nat): seq<AppUser>
    requires size > 0
    decreases |rows| - page * size
  {
    if page * size >= |rows| then []
    else
      assert (page + 1) * size == page * size + size;
      PageContent(rows, page, size) + PagesFrom(rows, size, page + 1)
  }

  lemma {:induction false} PagesFromSuffix(rows: seq<AppUser>, size: nat, page: nat)
    requires size > 0 && page * size <= |rows|
    ensures PagesFrom(rows, size, page) == rows[page * size..]
    decreases |rows| - page * size
  {
    var lo := page * size;
    assert (page + 1) * size == lo + size;
    if lo < |rows| {
      if lo + size >= |rows| {
        assert PagesFrom(rows, size, page + 1) == [];
      } else {
        PagesFromSuffix(rows, size, page + 1);
        assert rows[lo..] == rows[lo..lo + size] + rows[lo + size..];
      }
    }
  }

  /** Reading the pages one after another lists every row once, in insertion order. */
  lemma PagesCoverRows(rows: seq<AppUser>, size: nat)
    requires size > 0
    ensures PagesFrom(rows, size, 0) == rows
  {
    PagesFromSuffix(rows, size, 0);
  }

  /** getUser(username). */
  function GetUserByUsername(users: UserTable, name: string): (r: Result<AppUser>)
    ensures r.Ok? <==> HasUsername(users, name)
    ensures r.Ok? ==> r.value.username == name && r.value.id in users && users[r.value.id] == r.value
    ensures r.Err? ==> r.error == NotFound("User " + name + " not found")
  {
    match FindByUsername(users, name)
    case Some(u) => Ok(u)
    case None => Err(NotFound("User " + name + " not found"))
  }

  /** getUser(id). */
  function GetUser(users: UserTable, id: int): (r: Result<AppUser>)
    ensures r.Ok? <==> id in users
    ensures r.Ok? ==> r.value == users[id]
    ensures r.Err? ==> r.error == NotFound(AppUserNotFound(id))
  {
    match FindById(users, id)
    case Some(u) => Ok(u)
    case None => Err(NotFound(AppUserNotFound(id)))
  }

  /** authenticate: the stored user for valid credentials, one single error otherwise. */
  function Authenticate(users: UserTable, creds: Credentials, now: int): (r: Result<AppUser>)
    ensures r.Ok? <==> exists id :: id in users && AcceptsLogin(users[id], creds, now)
    ensures r.Ok? ==> r.value.id in users && users[r.value.id] == r.value && AcceptsLogin(r.value, creds, now)
    ensures r.Err? ==> r.error == BadCredentials(InvalidCredentialsMessage)
  {
    var user := FindByUsername(users, creds.username);
    if user.None? || !CheckPassword(user.value, creds.password) || !IsUserValid(user.value, now) then
      Err(BadCredentials(InvalidCredentialsMessage))
    else
      Ok(user.value)
  }

  /**
   * An unknown username, a wrong password, a disabled account and an account
   * outside its window all produce the same error.
   */
  lemma RefusalsLookAlike(users: UserTable, creds: Credentials, now: int, u: AppUser)
    requires !HasUsername(users, creds.username) ||
             (u.id in users && users[u.id] == u && u.username == creds.username &&
              (!CheckPassword(u, creds.password) || !u.active || now < u.validFrom || u.expireDate < now))
    ensures Authenticate(users, creds, now) == Err(BadCredentials(InvalidCredentialsMessage))
  {
    if HasUsername(users, creds.username) {
      assert FindByUsername(users, creds.username) == Some(u);
    }
  }

  /** createUser: a new, not yet stored record built from the profile. */
  function CreateUser(dto: UserInput, salt: Salt, now: int): (u: AppUser)
    ensures u.id == -1 && u.username == dto.username && Matches(dto.password, u.password)
    ensures u.name == dto.name && u.surname == dto.surname && u.email == dto.email
    ensures u.userType == dto.userType && u.active == dto.isActive
    ensures u.validFrom == now < u.expireDate
  {
    NewUser(dto.username, Encode(dto.password, salt), dto.name, dto.surname, dto.email, dto.userType, now)
      .(active := dto.isActive)
  }

  /** The fields modifyUser overwrites; the password is always encoded afresh. */
  function WithProfile(u: AppUser, dto: UserInput, salt: Salt): (v: AppUser)
    ensures SameIdentity(u, v)
    ensures v.active == dto.isActive && v.email == dto.email && v.userType == dto.userType
    ensures v.name == dto.name && v.surname == dto.surname && Matches(dto.password, v.password)
  {
    u.(active := dto.isActive, email := dto.email, name := dto.name, surname := dto.surname,
       password := Encode(dto.password, salt), userType := dto.userType)
  }

  /** The record after a password change: a hash of the new password and nothing else changed. */
  function WithPassword(u: AppUser, newPassword: string, salt: Salt): (v: AppUser)
    ensures Matches(newPassword, v.password)
    ensures v == u.(password := v.password)
  {
    u.(password := Encode(newPassword, salt))
  }

  class UserService {
    const dao: UserDAO

    constructor(dao: UserDAO)
      ensures this.dao == dao
    {
      this.dao := dao;
    }

    /** modifyUser: fetch the record, overwrite its profile fields, save it. */
    method ModifyUser(dto: UserInput, id: int, salt: Salt) returns (r: Result<AppUser>)
      requires dao.Valid()
      modifies dao
      ensures dao.Valid()
      ensures id !in old(dao.users) ==>
                r == Err(NotFound(AppUserNotFound(id))) && dao.State() == old(dao.State())
      ensures id in old(dao.users) ==>
                && r == Ok(WithProfile(old(dao.users)[id], dto, salt))
                && dao.users == old(dao.users)[id := r.value]
                && dao.order == old(dao.order) && dao.nextId == old(dao.nextId)
    {
      var found := FindById(dao.users, id);
      if found.None? {
        return Err(NotFound(AppUserNotFound(id)));
      }
      var saved := found.value;
      saved := saved.(active := dto.isActive);
      saved := saved.(email := dto.email);
      saved := saved.(name := dto.name);
      saved := saved.(surname := dto.surname);
      saved := saved.(password := Encode(dto.password, salt));
      saved := saved.(userType := dto.userType);
      SavedStoredRecord(dao.State(), saved);
      r := dao.Save(saved);
    }

    /** modifyPasswordOfUser(user, dto): check the old password, then store a hash of the new one. */
    method ModifyPasswordOfUser(user: AppUser, dto: PasswordChange, salt: Salt) returns (r: Result<AppUser>)
      requires dao.Valid()
      modifies dao
      ensures dao.Valid()
      ensures !CheckPassword(user, dto.oldPassword) ==>
                r == Err(BadRequest(OldPasswordIncorrect)) && dao.State() == old(dao.State())
      ensures CheckPassword(user, dto.oldPassword) ==>
                (r, dao.State()) == Saved(old(dao.State()), WithPassword(user, dto.newPassword, salt))
      ensures CheckPassword(user, dto.oldPassword) && user.id in old(dao.users) && old(dao.users)[user.id] == user ==>
                && r == Ok(WithPassword(user, dto.newPassword, salt))
                && dao.users == old(dao.users)[user.id := r.value]
                && dao.order == old(dao.order) && dao.nextId == old(dao.nextId)
    {
      if !CheckPassword(user, dto.oldPassword) {
        return Err(BadRequest(OldPasswordIncorrect));
      }
      var changed := user.(password := Encode(dto.newPassword, salt));
      if user.id in dao.users && dao.users[user.id] == user {
        SavedStoredRecord(dao.State(), changed);
      }
      r := dao.Save(changed);
    }

    /** modifyPasswordOfUser(userId, dto): look the record up, then change its password. */
    method ModifyPasswordOfUserById(userId: int, dto: PasswordChange, salt: Salt) returns (r: Result<AppUser>)
      requires dao.Valid()
      modifies dao
      ensures dao.Valid()
      ensures userId !in old(dao.users) ==>
                r == Err(NotFound(AppUserNotFound(userId))) && dao.State() == old(dao.State())
      ensures userId in old(dao.users) && !CheckPassword(old(dao.users)[userId], dto.oldPassword) ==>
                r == Err(BadRequest(OldPasswordIncorrect)) && dao.State() == old(dao.State())
      ensures userId in old(dao.users) && CheckPassword(old(dao.users)[userId], dto.oldPassword) ==>
                && r == Ok(WithPassword(old(dao.users)[userId], dto.newPassword, salt))
                && dao.users == old(dao.users)[userId := r.value]
                && dao.order == old(dao.order) && dao.nextId == old(dao.nextId)
    {
      var user := GetUser(dao.users, userId);
      if user.Err? {
        return Err(user.error);
      }
      r := ModifyPasswordOfUser(user.value, dto, salt);
    }
  }
}
