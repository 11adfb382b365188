/**
 * UserController: the user endpoints over the repository. The endpoints
 * guarded by hasAuthority('ADMINISTRATOR') require it of the current
 * authentication.
 */
module UserEndpoints {
  import opened Outcomes
  import opened Passwords
  import opened Users
  import opened Dto
  import opened Persistence
  import opened NotFoundMessages
  import opened Security
  import opened Service
  import opened BaseController

  function AlreadyExistsMessage(username: string): string {
    "user with username " + username + " already exists"
  }

  /** Page.map { UserDTOOutput(it) }: the same page with every record projected. */
  function ProjectPage(p: Page<AppUser>): (q: Page<UserOutput>)
    ensures q.content == ProjectAll(p.content)
    ensures q.number == p.number && q.size == p.size && q.totalElements == p.totalElements
  {
    Page(ProjectAll(p.content), p.number, p.size, p.totalElements)
  }

  class UserController {
    const dao: UserDAO
    const service: UserService
    const context: SecurityContext

    constructor(dao: UserDAO, context: SecurityContext)
      ensures this.dao == dao && this.context == context && Wired()
    {
      this.dao := dao;
      this.context := context;
      this.service := new UserService(dao);
    }

    /** The service works on the controller's own repository. */
    ghost predicate Wired()
      reads this, service
    {
      service.dao == dao
    }

    /** getAllUsers: a page of the users in insertion order, projected. */
    method GetAllUsers(page: int, size: int) returns (r: Result<Page<UserOutput>>)
      requires IsAdministrator(context.authentication)
      requires dao.Valid()
      ensures page < 0 ==> r == Err(IllegalArgument(PageIndexNegative))
      ensures page >= 0 && size < 1 ==> r == Err(IllegalArgument(PageSizeTooSmall))
      ensures page >= 0 && size >= 1 ==>
                var rows := Rows(dao.State());
                && r.Ok? && r.value.totalElements == |rows|
                && r.value.number == page && r.value.size == size
                && r.value.content == ProjectAll(rows[Min(page * size, |rows|)..Min((page + 1) * size, |rows|)])
    {
      var paged := GetUsersPaged(Rows(dao.State()), page, size);
      if paged.Err? {
        return Err(paged.error);
      }
      r := Ok(ProjectPage(paged.value));
    }

    /** getUserById: the stored record, or NotFound. */
    method GetUserById(id: int) returns (r: Result<AppUser>)
      ensures id in dao.users ==> r == Ok(dao.users[id])
      ensures id !in dao.users ==> r == Err(NotFound(AppUserNotFound(id)))
    {
      var found := FindById(dao.users, id);
      if found.None? {
        return Err(NotFound(AppUserNotFound(id)));
      }
      r := Ok(found.value);
    }

    /** createUser: refuses a taken username; otherwise stores one new record under a fresh id. */
    method CreateUser(dto: UserInput, salt: Salt, now: int) returns (r: Result<UserOutput>)
      requires IsAdministrator(context.authentication)
      requires dao.Valid()
      modifies dao
      ensures dao.Valid()
      ensures HasUsername(old(dao.users), dto.username) ==>
                r == Err(AlreadyExists(AlreadyExistsMessage(dto.username))) && dao.State() == old(dao.State())
      ensures !HasUsername(old(dao.users), dto.username) ==>
                var u := Service.CreateUser(dto, salt, now).(id := old(dao.nextId));
                && r == Ok(Project(u))
                && old(dao.nextId) !in old(dao.users)
                && dao.users == old(dao.users)[u.id := u]
                && dao.order == old(dao.order) + [u.id]
                && dao.nextId == old(dao.nextId) + 1
                && HasUsername(dao.users, dto.username)
    {
      if FindByUsername(dao.users, dto.username).Some? {
        return Err(AlreadyExists(AlreadyExistsMessage(dto.username)));
      }
      var user := Service.CreateUser(dto, salt, now);
      SavedNewRecord(dao.State(), user);
      var saved := dao.Save(user);
      r := Ok(Project(saved.value));
    }

    /** modifyUser: the profile written over the stored record. */
    method ModifyUser(dto: UserInput, id: int, salt: Salt) returns (r: Result<UserOutput>)
      requires IsAdministrator(context.authentication)
      requires dao.Valid() && Wired()
      modifies dao
      ensures dao.Valid()
      ensures id !in old(dao.users) ==>
                r == Err(NotFound(AppUserNotFound(id))) && dao.State() == old(dao.State())
      ensures id in old(dao.users) ==>
                var v := WithProfile(old(dao.users)[id], dto, salt);
                && r == Ok(Project(v))
                && dao.users == old(dao.users)[id := v]
                && dao.order == old(dao.order) && dao.nextId == old(dao.nextId)
    {
      var modified := service.ModifyUser(dto, id, salt);
      if modified.Err? {
        return Err(modified.error);
      }
      r := Ok(Project(modified.value));
    }

    /** deleteUser: removes exactly the record with that id, or fails with NotFound. */
    method DeleteUser(id: int) returns (r: Outcome)
      requires IsAdministrator(context.authentication)
      requires dao.Valid()
      modifies dao
      ensures dao.Valid()
      ensures id !in old(dao.users) ==>
                r == Fail(NotFound(AppUserNotFound(id))) && dao.State() == old(dao.State())
      ensures id in old(dao.users) ==>
                && r == Pass
                && dao.users.Keys == old(dao.users).Keys - {id}
                && (forall k :: k in dao.users ==> dao.users[k] == old(dao.users)[k])
                && dao.nextId == old(dao.nextId)
                && dao.order == Without(old(dao.order), id)
                && dao.State() == Deleted(old(dao.State()), id)
    {
      var found := FindById(dao.users, id);
      if found.None? {
        return Fail(NotFound(AppUserNotFound(id)));
      }
      DeletedValid(dao.State(), id);
      dao.Delete(found.value);
      r := Pass;
    }

    /** enableUser: sets `active` on that record only, or fails with NotFound. */
    method EnableUser(id: int, active: bool) returns (r: Outcome)
      requires IsAdministrator(context.authentication)
      requires dao.Valid()
      modifies dao
      ensures dao.Valid()
      ensures id !in old(dao.users) ==>
                r == Fail(NotFound(AppUserNotFound(id))) && dao.State() == old(dao.State())
      ensures id in old(dao.users) ==>
                && r == Pass
                && dao.users == old(dao.users)[id := old(dao.users)[id].(active := active)]
                && dao.order == old(dao.order) && dao.nextId == old(dao.nextId)
    {
      var found := FindById(dao.users, id);
      if found.None? {
        return Fail(NotFound(AppUserNotFound(id)));
      }
      var user := found.value.(active := active);
      SavedStoredRecord(dao.State(), user);
      var _ := dao.Save(user);
      r := Pass;
    }

    /** getMyDetails: the projection of the logged user. */
    method GetMyDetails() returns (r: Result<UserOutput>)
      ensures var logged := GetLoggedUser(dao.users, context.authentication);
              && (r.Ok? <==> logged.Ok?)
              && (r.Ok? ==> r.value == Project(logged.value))
              && (r.Err? ==> r.error == logged.error)
    {
      var user := GetLoggedUser(dao.users, context.authentication);
      if user.Err? {
        return Err(user.error);
      }
      r := Ok(Project(user.value));
    }

    /** changeMyPassword: modifyPasswordOfUser applied to the logged user and no other. */
    method ChangeMyPassword(dto: PasswordChange, salt: Salt) returns (r: Result<UserOutput>)
      requires dao.Valid() && Wired()
      modifies dao
      ensures dao.Valid()
      ensures var logged := GetLoggedUser(old(dao.users), context.authentication);
              logged.Err? ==> r == Err(logged.error) && dao.State() == old(dao.State())
      ensures var logged := GetLoggedUser(old(dao.users), context.authentication);
              logged.Ok? && !CheckPassword(logged.value, dto.oldPassword) ==>
                r == Err(BadRequest(OldPasswordIncorrect)) && dao.State() == old(dao.State())
      ensures var logged := GetLoggedUser(old(dao.users), context.authentication);
              logged.Ok? && CheckPassword(logged.value, dto.oldPassword) ==>
                var v := WithPassword(logged.value, dto.newPassword, salt);
                && r == Ok(Project(v))
                && dao.users == old(dao.users)[logged.value.id := v]
                && dao.order == old(dao.order) && dao.nextId == old(dao.nextId)
    {
      var user := GetLoggedUser(dao.users, context.authentication);
      if user.Err? {
        return Err(user.error);
      }
      var changed := service.ModifyPasswordOfUser(user.value, dto, salt);
      if changed.Err? {
        return Err(changed.error);
      }
      r := Ok(Project(changed.value));
    }
  }
}
