/** The request and response records the controllers exchange (no behaviour of their own). */
module Dto {
  import opened Users

  /** UserDTOInput: a profile with the plaintext password. */
  datatype UserInput = UserInput(
    username: string,
    password: string,
    name: string,
    surname: string,
    email: string,
    userType: UserType,
    isActive: bool)

  /** The six-argument UserDTOInput constructor: `isActive` defaults to true. */
  function NewUserInput(username: string, password: string, name: string, surname: string,
                        email: string, userType: UserType): (d: UserInput)
    ensures d.isActive
    ensures d.username == username && d.password == password && d.userType == userType
    ensures d.name == name && d.surname == surname && d.email == email
  {
    UserInput(username, password, name, surname, email, userType, true)
  }

  /** UserDTOOutput: the public projection of a user. */
  datatype UserOutput = UserOutput(id: int, username: string, name: string, surname: string, email: string)

  function Project(u: AppUser): UserOutput {
    UserOutput(u.id, u.username, u.name, u.surname, u.email)
  }

  function ProjectAll(us: seq<AppUser>): (r: seq<UserOutput>)
    ensures |r| == |us| && forall i :: 0 <= i < |us| ==> r[i] == Project(us[i])
  {
    seq(|us|, i requires 0 <= i < |us| => Project(us[i]))
  }

  /** ChangePasswordDTO. */
  datatype PasswordChange = PasswordChange(oldPassword: string, newPassword: string)

  /** ValidateUserDTO: login credentials. */
  datatype Credentials = Credentials(username: string, password: string)

  /** Token: the login response. */
  datatype TokenResponse = TokenResponse(user: UserOutput, token: string)
}
