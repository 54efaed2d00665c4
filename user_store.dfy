/**
 * The UI's user picker (`UserStore`): the list of known user ids, the
 * selected one, and the id remembered in the browser's local storage.
 */
module Users {
  import opened Common
  import opened Js

  /** The local-storage key holding the last selected user. */
  const STORAGE_KEY: string := "reggie-selected-user"

  /** The user list after `addUser(u)`: `u` is appended only when it is not already there. */
  function WithUser(users: seq<string>, u: string): (r: seq<string>)
    ensures u in r
    ensures forall x :: x in r <==> x in users || x == u
    ensures |users| <= |r| <= |users| + 1 && r[..|users|] == users
    ensures u in users <==> |r| == |users|
    ensures NoDuplicates(users) ==> NoDuplicates(r)
  {
    if u in users then users else users + [u]
  }

  /**
   * The selection after loading: the remembered id is taken only when it is
   * truthy and still among the loaded users; otherwise the selection stays.
   */
  function RestoredUser(current: Option<string>, users: seq<string>, saved: Option<string>): (r: Option<string>)
    ensures Truthy(saved) && saved.value in users ==> r == saved
    ensures !(Truthy(saved) && saved.value in users) ==> r == current
    ensures r.Some? && r != current ==> r.value in users
  {
    if Truthy(saved) && saved.value in users then saved else current
  }

  class UserStore {
    var users: seq<string>
    var currentUserId: Option<string>
    var isLoading: bool
    var error: Option<string>
    /** The entry stored under STORAGE_KEY, if any. */
    var savedUserId: Option<string>

    /** A store that has not loaded yet, in a browser whose storage holds `saved`. */
    constructor(saved: Option<string>)
      ensures users == [] && currentUserId == None && isLoading && error == None
      ensures savedUserId == saved
    {
      users := [];
      currentUserId := None;
      isLoading := true;
      error := None;
      savedUserId := saved;
    }

    /**
     * `init`: loads the users (`loaded` is what the server call settled
     * with), restores the remembered selection when still valid, and always
     * ends with loading off.
     */
    method Init(loaded: Result<seq<string>, Thrown>)
      modifies this
      ensures !isLoading && savedUserId == old(savedUserId)
      ensures loaded.Success? ==>
                && users == loaded.value
                && currentUserId == RestoredUser(old(currentUserId), loaded.value, old(savedUserId))
                && error == None
      ensures loaded.Failure? ==>
                && users == old(users)
                && currentUserId == old(currentUserId)
                && error == Some(CaughtMessage(loaded.error, "Failed to load users"))
    {
      isLoading := true;
      error := None;
      if loaded.Failure? {
        error := Some(CaughtMessage(loaded.error, "Failed to load users"));
      } else {
        users := loaded.value;
        var saved := savedUserId;
        if Truthy(saved) && saved.value in users {
          currentUserId := saved;
        }
      }
      isLoading := false;
    }

    /** `selectUser`: a truthy id is remembered, anything else forgets the remembered one. */
    method SelectUser(userId: Option<string>)
      modifies this
      ensures currentUserId == userId
      ensures savedUserId == if Truthy(userId) then userId else None
      ensures users == old(users) && isLoading == old(isLoading) && error == old(error)
    {
      currentUserId := userId;
      if Truthy(userId) {
        savedUserId := userId;
      } else {
        savedUserId := None;
      }
    }

    /** `addUser`: adds the id if it is new, then selects it. */
    method AddUser(userId: string)
      modifies this
      ensures users == WithUser(old(users), userId)
      ensures userId in users && currentUserId == Some(userId)
      ensures NoDuplicates(old(users)) ==> NoDuplicates(users)
      ensures savedUserId == if userId != "" then Some(userId) else None
      ensures isLoading == old(isLoading) && error == old(error)
    {
      if userId !in users {
        users := users + [userId];
      }
      SelectUser(Some(userId));
    }
  }
}
