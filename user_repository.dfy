/** The user registry (database/user_repository.py): registration with a
    duplicate-name check, login, and lookup by user id. */
module UserStore {
  import opened Records

  /** The two ways the registry looks a document up. */
  datatype Key = ByName(username: string) | ByUserId(userId: UserId)

  predicate Matches(d: UserDoc, key: Key)
  {
    match key
    case ByName(n) => d.username == n
    case ByUserId(u) => d.userId == u
  }

  /** `find_one`: the position of the first document, in collection order,
      that matches the key. */
  function FirstMatch(users: seq<UserDoc>, key: Key): (r: Option<nat>)
    ensures r.Some? ==> r.value < |users| && Matches(users[r.value], key)
                        && forall j :: 0 <= j < r.value ==> !Matches(users[j], key)
    ensures r.None? <==> forall j :: 0 <= j < |users| ==> !Matches(users[j], key)
    decreases |users|
  {
    if users == [] then None
    else if Matches(users[0], key) then Some(0)
    else match FirstMatch(users[1..], key)
      case None => None
      case Some(i) => Some(i + 1)
  }

  /** A document appended after all others is found exactly when nothing
      before it matches. */
  lemma {:induction false} FirstMatchAppend(users: seq<UserDoc>, d: UserDoc, key: Key)
    requires FirstMatch(users, key).None? && Matches(d, key)
    ensures FirstMatch(users + [d], key) == Some(|users|)
  {
    var r := FirstMatch(users + [d], key);
    assert (users + [d])[|users|] == d;
    assert forall j :: 0 <= j < |users| ==> (users + [d])[j] == users[j];
    assert r.Some?;
  }

  /** The User object built from a stored document. */
  function AsUser(d: UserDoc): User
  {
    User(d.userId, d.username, d.createdAt, d.lastLogin)
  }

  /** No two documents carry the same username. */
  ghost predicate UniqueNames(users: seq<UserDoc>)
  {
    forall i, j :: 0 <= i < j < |users| ==> users[i].username != users[j].username
  }

  datatype RegisterResult = Registered(user: User) | DuplicateName

  class UserRepository {
    /** The users collection, in its natural order. */
    var users: seq<UserDoc>

    constructor ()
      ensures users == []
    {
      users := [];
    }

    /** `register_user`: refuse a name that is already taken, otherwise
        insert an active user that has never logged in. `freshId` is the
        generated user id. */
    method RegisterUser(username: string, freshId: UserId, now: Time) returns (r: RegisterResult)
      modifies this`users
      ensures FirstMatch(old(users), ByName(username)).Some? ==> r == DuplicateName && users == old(users)
      ensures FirstMatch(old(users), ByName(username)).None? ==>
        r == Registered(User(freshId, username, now, None))
        && users == old(users) + [UserDoc(freshId, username, now, None, true)]
      ensures r.Registered? ==> FirstMatch(users, ByName(username)) == Some(|old(users)|)
      ensures r.Registered? && FirstMatch(old(users), ByUserId(freshId)).None? ==> GetUserById(freshId) == Some(r.user)
      ensures UniqueNames(old(users)) ==> UniqueNames(users)
    {
      if FirstMatch(users, ByName(username)).Some? {
        return DuplicateName;
      }
      var doc := UserDoc(freshId, username, now, None, true);
      FirstMatchAppend(users, doc, ByName(username));
      if FirstMatch(users, ByUserId(freshId)).None? {
        FirstMatchAppend(users, doc, ByUserId(freshId));
      }
      users := users + [doc];
      r := Registered(User(freshId, username, now, None));
    }

    /** `login_user`: unknown and inactive users are refused; otherwise the
        login time is recorded on the matching document and returned. */
    method LoginUser(username: string, now: Time) returns (r: Option<User>)
      modifies this`users
      ensures FirstMatch(old(users), ByName(username)).None? ==> r == None && users == old(users)
      ensures FirstMatch(old(users), ByName(username)).Some? ==>
        var i := FirstMatch(old(users), ByName(username)).value;
        if !old(users)[i].isActive then r == None && users == old(users)
        else users == old(users)[i := old(users)[i].(lastLogin := Some(now))]
             && r == Some(User(old(users)[i].userId, username, old(users)[i].createdAt, Some(now)))
      ensures UniqueNames(old(users)) ==> UniqueNames(users)
    {
      var found := FirstMatch(users, ByName(username));
      if found.None? {
        return None;
      }
      var i := found.value;
      var doc := users[i];
      if !doc.isActive {
        return None;
      }
      users := users[i := doc.(lastLogin := Some(now))];
      r := Some(User(doc.userId, doc.username, doc.createdAt, Some(now)));
    }

    /** `get_user_by_id`: the first document with that user id, if any. */
    function GetUserById(userId: UserId): (r: Option<User>)
      reads this
      ensures r.None? <==> forall j :: 0 <= j < |users| ==> users[j].userId != userId
      ensures r.Some? ==> exists j :: 0 <= j < |users| && users[j].userId == userId && r.value == AsUser(users[j])
                                 && forall k :: 0 <= k < j ==> users[k].userId != userId
    {
      match FirstMatch(users, ByUserId(userId))
      case None => None
      case Some(i) => Some(AsUser(users[i]))
    }
  }
}
