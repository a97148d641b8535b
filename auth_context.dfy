// The signed-in user of src/context/AuthContext.jsx: login with its name check and
// trimming, logout, and the copy of the user kept under the `sb_user` storage key,
// restored on load and rewritten whenever the user changes.

module AuthContext {
  import opened Wrappers
  import opened JsText

  const InvalidUsername := "Invalid username"

  datatype User = User(name: string, loginTime: string)

  /** What `sb_user` holds: nothing, the empty string, text that is not JSON, or the JSON
      of a user or of null. */
  datatype Content = Blank | Corrupt | Json(user: Option<User>)
  datatype Slot = Absent | Stored(content: Content)

  /** `login`'s check: a missing or non-string name (`None`), or one that trims to
      nothing, is refused. */
  predicate ValidName(name: Option<string>) {
    name.Some? && Trim(name.value) != ""
  }

  /** The name check refuses exactly the missing names and those made only of white
      space. */
  lemma ValidNameIffNotBlank(name: Option<string>)
    ensures ValidName(name) <==> name.Some? && !IsBlank(name.value)
  {
    if name.Some? {
      BlankIffAllSpace(name.value);
    }
  }

  /** The provider's state; `storage` is the `sb_user` entry of the browser's storage. */
  class AuthProvider {
    var user: Option<User>
    var isLoading: bool
    var storage: Slot

    constructor (stored: Slot)
      ensures user.None? && isLoading && storage == stored
    {
      user, isLoading, storage := None, true, stored;
    }

    /** The load effect: a stored user (or null) is restored; corrupt text is removed;
        an absent or empty entry is ignored. Loading ends in every case. */
    method Load()
      modifies this
      ensures !isLoading
      ensures old(storage).Stored? && old(storage).content.Json? ==>
        user == old(storage).content.user && storage == old(storage)
      ensures old(storage) == Stored(Corrupt) ==> user == old(user) && storage == Absent
      ensures old(storage) == Absent || old(storage) == Stored(Blank) ==> user == old(user) && storage == old(storage)
    {
      match storage {
        case Stored(Json(u)) =>
          user := u;
        case Stored(Corrupt) =>
          storage := Absent;
        case _ =>
      }
      isLoading := false;
    }

    /** The save effect: once loading is over, a user is written to storage and no user
        removes the entry. */
    method Persist()
      modifies this
      ensures !old(isLoading) && old(user).Some? ==> storage == Stored(Json(old(user)))
      ensures !old(isLoading) && old(user).None? ==> storage == Absent
      ensures old(isLoading) ==> storage == old(storage)
      ensures user == old(user) && isLoading == old(isLoading)
    {
      if !isLoading {
        if user.Some? {
          storage := Stored(Json(user));
        } else {
          storage := Absent;
        }
      }
    }

    /** login: refuses an invalid name with "Invalid username" and changes nothing;
        otherwise signs in under the trimmed name at time `now`. */
    method Login(name: Option<string>, now: string) returns (error: Option<string>)
      modifies this
      ensures error.Some? <==> name.None? || IsBlank(name.value)
      ensures error.Some? ==> error.value == InvalidUsername && user == old(user)
      ensures error.None? ==> user == Some(User(Trim(name.value), now))
      ensures isLoading == old(isLoading) && storage == old(storage)
    {
      ValidNameIffNotBlank(name);
      if name.None? || Trim(name.value) == "" {
        return Some(InvalidUsername);
      }
      user := Some(User(Trim(name.value), now));
      error := None;
    }

    method Logout()
      modifies this
      ensures user.None? && isLoading == old(isLoading) && storage == old(storage)
    {
      user := None;
    }
  }

  /** A login survives a reload: after signing in and saving, a fresh provider over the
      same storage restores the same user; after logging out it restores none. */
  method ReloadAfterLogin(name: string, now: string, logOut: bool) returns (restored: Option<User>)
    requires !IsBlank(name)
    ensures !logOut ==> restored == Some(User(Trim(name), now))
    ensures logOut ==> restored.None?
  {
    var auth := new AuthProvider(Absent);
    auth.Load();
    var error := auth.Login(Some(name), now);
    if logOut {
      auth.Logout();
    }
    auth.Persist();
    var reloaded := new AuthProvider(auth.storage);
    reloaded.Load();
    restored := reloaded.user;
  }
}
