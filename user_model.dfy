/**
 * The user document and the user collection as the controller and the
 * middleware use it (src/models/user.model.js). Schema validation, the
 * password-hashing save hook and token signing are not part of this model.
 */
module UserModel {
  import opened Wrappers

  type UserId = nat

  datatype Avatar = Avatar(publicId: string, url: string)

  /** A user document; `password` and `refreshToken` are `None` when unset or projected out. */
  datatype User = User(id: UserId, fullName: string, userName: string, email: string,
                       password: Option<string>, avatar: Avatar, role: string,
                       refreshToken: Option<string>)

  /** `.select("-password -refreshToken")`: the document without its two secrets. */
  function WithoutSecrets(u: User): (v: User)
    ensures v.password.None? && v.refreshToken.None?
    ensures v.(password := u.password, refreshToken := u.refreshToken) == u
  {
    u.(password := None, refreshToken := None)
  }

  /** The `$or: [{ email }, { userName }]` condition of a `findOne`. */
  predicate MatchesEmailOrUserName(u: User, email: string, userName: string) {
    u.email == email || u.userName == userName
  }

  predicate AnyMatch(users: map<UserId, User>, email: string, userName: string) {
    exists id :: id in users && MatchesEmailOrUserName(users[id], email, userName)
  }

  /** Storing a new document adds exactly its own e-mail address and user name to what the `$or` query finds. */
  lemma AnyMatchInsert(users: map<UserId, User>, id: UserId, u: User, email: string, userName: string)
    requires id !in users
    ensures AnyMatch(users[id := u], email, userName) <==>
      AnyMatch(users, email, userName) || MatchesEmailOrUserName(u, email, userName)
  {
    if AnyMatch(users[id := u], email, userName) && !MatchesEmailOrUserName(u, email, userName) {
      var k :| k in users[id := u] && MatchesEmailOrUserName(users[id := u][k], email, userName);
      assert k != id && k in users;
    }
    if AnyMatch(users, email, userName) {
      var k :| k in users && MatchesEmailOrUserName(users[k], email, userName);
      assert k in users[id := u] && users[id := u][k] == users[k];
    }
    if MatchesEmailOrUserName(u, email, userName) {
      assert id in users[id := u] && users[id := u][id] == u;
    }
  }

  /** The `User` collection, keyed by `_id`. */
  class UserStore {
    var users: map<UserId, User>
    var nextId: UserId

    ghost predicate Valid()
      reads this
    {
      forall id :: id in users ==> id < nextId && users[id].id == id
    }

    constructor ()
      ensures Valid() && users == map[] && nextId == 0
    {
      users := map[];
      nextId := 0;
    }

    /** `User.findById(id)`. */
    method FindById(id: UserId) returns (u: Option<User>)
      ensures u.Some? <==> id in users
      ensures u.Some? ==> u.value == users[id]
    {
      u := if id in users then Some(users[id]) else None;
    }

    /** `User.findOne({ $or: [{ email }, { userName }] })`: some matching document, or null. */
    method FindOne(email: string, userName: string) returns (u: Option<User>)
      ensures u.None? <==> !AnyMatch(users, email, userName)
      ensures u.Some? ==> u.value in users.Values && MatchesEmailOrUserName(u.value, email, userName)
    {
      if AnyMatch(users, email, userName) {
        var id :| id in users && MatchesEmailOrUserName(users[id], email, userName);
        u := Some(users[id]);
      } else {
        u := None;
      }
    }

    /** `User.create(doc)`: stores the document under a new `_id`. */
    method Create(doc: User) returns (u: User)
      requires Valid()
      modifies this
      ensures Valid()
      ensures u == doc.(id := old(nextId)) && u.id !in old(users) && nextId == old(nextId) + 1
      ensures users == old(users)[u.id := u]
    {
      u := doc.(id := nextId);
      users := users[nextId := u];
      nextId := nextId + 1;
    }

    /** `user.save()` on a loaded document: it replaces the stored one. */
    method Save(u: User)
      requires Valid() && u.id in users
      modifies this
      ensures Valid()
      ensures users == old(users)[u.id := u] && nextId == old(nextId)
    {
      users := users[u.id := u];
    }
  }
}
