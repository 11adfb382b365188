/**
 * The stored user record (AppUser) and its constructors. The fields the
 * source declares `val` (id, username, validFrom, expireDate) are never changed
 * by any operation of this model; the `var` fields (password, name, surname,
 * email, type, active) are changed only by the service and controller
 * operations, each of which says which ones it changes.
 * Instants are integers (milliseconds since the epoch).
 */
module Users {
  import opened Outcomes
  import opened Text
  import opened Decimal
  import opened Passwords

  datatype UserType = USER | ADMINISTRATOR

  /** The enum constant's `name`. */
  function TypeName(t: UserType): string {
    match t
    case USER => "USER"
    case ADMINISTRATOR => "ADMINISTRATOR"
  }

  datatype AppUser = AppUser(
    id: int,
    username: string,
    password: Hash,
    name: string,
    surname: string,
    email: string,
    userType: UserType,
    validFrom: int,
    expireDate: int,
    active: bool)

  /** The duration `plusYears(1000)` adds: 1000 mean Gregorian years, in milliseconds. */
  const ThousandYears: int := 31_556_952_000_000

  /** The id, username and validity window: the fields declared `val`. */
  predicate SameIdentity(u: AppUser, v: AppUser) {
    u.id == v.id && u.username == v.username &&
    u.validFrom == v.validFrom && u.expireDate == v.expireDate
  }

  /** The primary constructor; `active` is initialised to true in the class body. */
  function Create(id: int, username: string, password: Hash, name: string, surname: string,
                  email: string, userType: UserType, validFrom: int, expireDate: int): (u: AppUser)
    ensures u.active
    ensures u.id == id && u.username == username && u.password == password
    ensures u.name == name && u.surname == surname && u.email == email && u.userType == userType
    ensures u.validFrom == validFrom && u.expireDate == expireDate
  {
    AppUser(id, username, password, name, surname, email, userType, validFrom, expireDate, true)
  }

  /** The six-argument constructor: id -1 and the window from now to 1000 years on. */
  function NewUser(username: string, password: Hash, name: string, surname: string,
                   email: string, userType: UserType, now: int): (u: AppUser)
    ensures u.active && u.id == -1
    ensures u.validFrom == now < u.expireDate && u.expireDate == now + ThousandYears
    ensures u.username == username && u.password == password && u.userType == userType
    ensures u.name == name && u.surname == surname && u.email == email
  {
    Create(-1, username, password, name, surname, email, userType, now, now + ThousandYears)
  }

  /** The five-argument constructor: a plain USER. */
  function NewPlainUser(username: string, password: Hash, name: string, surname: string,
                        email: string, now: int): (u: AppUser)
    ensures u.userType == USER
    ensures u == NewUser(username, password, name, surname, email, USER, now)
  {
    NewUser(username, password, name, surname, email, USER, now)
  }

  /** AppUser.toString(). */
  function ToString(u: AppUser): string {
    "{id:" + IntToString(u.id) + RenderedFields(u)
  }

  /** Everything toString prints after the id, in the source's fixed order. */
  function RenderedFields(u: AppUser): string {
    ", username:" + u.username + ", password:" + HashText(u.password) + ", name:" + u.name +
    ", surname:" + u.surname + ", email:" + u.email + "}"
  }

  /** The rendering starts with the id, which no other field can disguise. */
  lemma ToStringIdentifiesId(u: AppUser, v: AppUser)
    requires ToString(u) == ToString(v)
    ensures u.id == v.id
  {
    var a, b := IntToString(u.id), IntToString(v.id);
    IdPrefix(a, RenderedFields(u));
    IdPrefix(b, RenderedFields(v));
    IntToStringInjective(u.id, v.id);
  }

  /** In "{id:" + a + tail, with tail starting at a comma, `a` is what precedes the first comma. */
  lemma IdPrefix(a: string, tail: string)
    requires forall k :: 0 <= k < |a| ==> IsDigit(a[k]) || a[k] == '-'
    requires |tail| > 0 && tail[0] == ','
    ensures var s := ("{id:" + a + tail)[4..];
            IndexOf(s, ',') == Some(|a|) && s[..|a|] == a
  {
    var s := ("{id:" + a + tail)[4..];
    assert s == a + [','] + tail[1..];
    IndexAfterPrefix(a, ',', tail[1..]);
  }
}
