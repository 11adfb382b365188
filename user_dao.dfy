/**
 * The user repository (UserDAO, a Spring Data paging repository over the
 * AppUser table) reduced to what the core uses: a table from id to record in
 * which usernames are unique (the column's unique constraint), the insertion
 * order (the order in which unsorted pages list the rows) and the next id the
 * generator hands out.
 */
module Persistence {
  import opened Outcomes
  import opened Users

  /** Every record sits under its own id, and no two records share a username. */
  predicate WellFormed(m: map<int, AppUser>) {
    && (forall id :: id in m ==> m[id].id == id)
    && (forall a, b :: a in m && b in m && m[a].username == m[b].username ==> a == b)
  }

  type UserTable = m: map<int, AppUser> | WellFormed(m) witness map[]

  predicate HasUsername(users: map<int, AppUser>, name: string) {
    exists id :: id in users && users[id].username == name
  }

  /** Some record other than the one with id `id` already has username `name`. */
  predicate UsernameTakenByOther(users: map<int, AppUser>, name: string, id: int) {
    exists k :: k in users && k != id && users[k].username == name
  }

  predicate Distinct(s: seq<int>) {
    forall i, j :: 0 <= i < j < |s| ==> s[i] != s[j]
  }

  /** The repository's state. */
  datatype Store = Store(users: UserTable, order: seq<int>, nextId: int)

  /** Ids are positive and below the generator; `order` lists every id exactly once. */
  ghost predicate ValidStore(s: Store) {
    && 0 < s.nextId
    && (forall id :: id in s.users ==> 0 < id < s.nextId)
    && (forall i :: 0 <= i < |s.order| ==> s.order[i] in s.users)
    && (forall id :: id in s.users ==> id in s.order)
    && Distinct(s.order)
  }

  const EmptyStore: Store := Store(map[], [], 1)

  /** findById. */
  function FindById(users: UserTable, id: int): (r: Option<AppUser>)
    ensures r.Some? <==> id in users
    ensures r.Some? ==> r.value == users[id] && r.value.id == id
  {
    if id in users then Some(users[id]) else None
  }

  /** findByUsername; the username column is unique, so there is at most one candidate. */
  function FindByUsername(users: UserTable, name: string): (r: Option<AppUser>)
    ensures r.Some? <==> HasUsername(users, name)
    ensures r.Some? ==> r.value.username == name && r.value.id in users && users[r.value.id] == r.value
  {
    if HasUsername(users, name) then
      var id :| id in users && users[id].username == name;
      Some(users[id])
    else None
  }

  /** The rows in insertion order. */
  function Rows(s: Store): (r: seq<AppUser>)
    requires ValidStore(s)
    ensures |r| == |s.order|
    ensures forall i :: 0 <= i < |r| ==> r[i] == s.users[s.order[i]]
  {
    seq(|s.order|, i requires 0 <= i < |s.order| && s.order[i] in s.users => s.users[s.order[i]])
  }

  /**
   * save(u): an update when u's id is stored, otherwise an insert under a
   * fresh id; either fails if another record already has u's username.
   */
  function Saved(s: Store, u: AppUser): (Result<AppUser>, Store) {
    if UsernameTakenByOther(s.users, u.username, u.id) then
      (Err(DataIntegrityViolation), s)
    else if u.id in s.users then
      (Ok(u), s.(users := s.users[u.id := u]))
    else
      var v := u.(id := s.nextId);
      assert !HasUsername(s.users, u.username);
      (Ok(v), Store(s.users[v.id := v], s.order + [v.id], s.nextId + 1))
  }

  lemma SavedValid(s: Store, u: AppUser)
    requires ValidStore(s)
    ensures ValidStore(Saved(s, u).1)
  {
    var r := Saved(s, u).1;
    if !UsernameTakenByOther(s.users, u.username, u.id) && u.id !in s.users {
      forall i, j | 0 <= i < j < |r.order| ensures r.order[i] != r.order[j] {
        if j == |s.order| {
          assert r.order[i] == s.order[i] && s.order[i] in s.users;
        }
      }
    }
  }

  /** Saving a changed copy of a stored record replaces exactly that record. */
  lemma SavedStoredRecord(s: Store, u: AppUser)
    requires u.id in s.users && u.username == s.users[u.id].username
    ensures Saved(s, u) == (Ok(u), s.(users := s.users[u.id := u]))
  {
    assert s.users[u.id].username == u.username;
  }

  /** A fresh username is inserted under the next id, appended to the insertion order. */
  lemma SavedNewRecord(s: Store, u: AppUser)
    requires ValidStore(s)
    requires u.id !in s.users && !HasUsername(s.users, u.username)
    ensures var (r, t) := Saved(s, u);
            && r == Ok(u.(id := s.nextId))
            && s.nextId !in s.users
            && t.users == s.users[s.nextId := u.(id := s.nextId)]
            && |t.users| == |s.users| + 1
            && t.order == s.order + [s.nextId]
            && HasUsername(t.users, u.username)
  {
    assert !UsernameTakenByOther(s.users, u.username, u.id);
    var t := Saved(s, u).1;
    assert t.users[s.nextId].username == u.username;
  }

  /** `order` without the id `id`, the rest in the same order. */
  function Without(order: seq<int>, id: int): (r: seq<int>)
    ensures forall x :: x in r <==> x in order && x != id
  {
    if order == [] then []
    else (if order[0] == id then [] else [order[0]]) + Without(order[1..], id)
  }

  lemma {:induction false} WithoutDistinct(order: seq<int>, id: int)
    requires Distinct(order)
    ensures Distinct(Without(order, id))
  {
    if order != [] {
      assert Distinct(order[1..]);
      WithoutDistinct(order[1..], id);
      var w := Without(order[1..], id);
      assert order[0] !in order[1..];
      if order[0] != id {
        assert Without(order, id) == [order[0]] + w;
        assert order[0] !in w;
      }
    }
  }

  /** delete(u): the record with u's id is removed, if there is one. */
  function Deleted(s: Store, id: int): Store {
    s.(users := s.users - {id}, order := Without(s.order, id))
  }

  lemma DeletedValid(s: Store, id: int)
    requires ValidStore(s)
    ensures ValidStore(Deleted(s, id))
    ensures Deleted(s, id).users.Keys == s.users.Keys - {id}
    ensures forall k :: k in Deleted(s, id).users ==> Deleted(s, id).users[k] == s.users[k]
  {
    WithoutDistinct(s.order, id);
    var t := Deleted(s, id);
    forall i | 0 <= i < |t.order| ensures t.order[i] in t.users {
      assert t.order[i] in Without(s.order, id);
    }
  }

  /** The repository object: the state above held in three fields. */
  class UserDAO {
    var users: UserTable
    var order: seq<int>
    var nextId: int

    function State(): Store
      reads this
    {
      Store(users, order, nextId)
    }

    ghost predicate Valid()
      reads this
    {
      ValidStore(State())
    }

    constructor()
      ensures Valid() && State() == EmptyStore
    {
      users, order, nextId := map[], [], 1;
    }

    method Save(u: AppUser) returns (r: Result<AppUser>)
      requires Valid()
      modifies this
      ensures Valid()
      ensures (r, State()) == Saved(old(State()), u)
    {
      SavedValid(State(), u);
      var (res, next) := Saved(State(), u);
      users, order, nextId := next.users, next.order, next.nextId;
      r := res;
    }

    method Delete(u: AppUser)
      requires Valid()
      modifies this
      ensures Valid()
      ensures State() == Deleted(old(State()), u.id)
    {
      DeletedValid(State(), u.id);
      users := users - {u.id};
      order := Without(order, u.id);
    }
  }
}
