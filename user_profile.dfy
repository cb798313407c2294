/** The saved checkout profile (`UserProfileService`): one profile per signed-in user,
    persisted in local storage under `user_profile_{id}`, with preset defaults for
    administrators. */
module UserProfiles {
  import opened Wrappers
  import opened Models
  import opened Storage

  /** The preset profile of an administrator with no usable saved profile. */
  function AdminDefaultProfile(userId: int): (r: UserProfile)
    ensures r.userId == userId
  {
    UserProfile(
      userId := userId,
      firstName := "Admin",
      lastName := "User",
      email := "admin@shopng.com",
      shippingAddress := "100 Commerce Blvd",
      shippingCity := "San Francisco",
      shippingState := "CA",
      shippingZip := "94102",
      cardName := "Admin User",
      cardNumber := "4111111111111111",
      cardExpiry := "12/28",
      cardCvv := "999")
  }

  /** The in-memory profile and the storage after a load. */
  datatype LoadOutcome = LoadOutcome(profile: Option<UserProfile>, entries: map<string, StoredValue>)

  /** `loadProfile(user)` on storage `entries`: a stored value that parses is used as it is
      (the text "null" parses to no profile); a stored value that does not parse is removed;
      when nothing usable was stored, an administrator gets the preset profile, which is
      written back, and anyone else gets no profile. */
  function Load(entries: map<string, StoredValue>, user: User): (r: LoadOutcome)
    ensures forall k :: k != ProfileKey(user.id) ==>
              (k in r.entries <==> k in entries) && (k in entries ==> r.entries[k] == entries[k])
    ensures r.profile.Some? ==>
              ProfileKey(user.id) in r.entries && r.entries[ProfileKey(user.id)] == Serialized(r.profile.value)
    ensures r.profile.None? ==>
              ProfileKey(user.id) !in r.entries || !r.entries[ProfileKey(user.id)].Serialized?
    ensures user.role != ADMIN && r.profile.Some? ==>
              ProfileKey(user.id) in entries && entries[ProfileKey(user.id)] == Serialized(r.profile.value)
  {
    var key := ProfileKey(user.id);
    if key in entries && IsTruthy(entries[key]) && !entries[key].Unparseable? then
      LoadOutcome(if entries[key].Serialized? then Some(entries[key].profile) else None, entries)
    else
      var kept := if key in entries && IsTruthy(entries[key]) then entries - {key} else entries;
      if user.role == ADMIN then
        LoadOutcome(Some(AdminDefaultProfile(user.id)), kept[key := Serialized(AdminDefaultProfile(user.id))])
      else
        LoadOutcome(None, kept)
  }

  /** `saveProfile(profile)` on storage `entries`. */
  function Save(entries: map<string, StoredValue>, profile: UserProfile): (r: map<string, StoredValue>)
    ensures ProfileKey(profile.userId) in r && r[ProfileKey(profile.userId)] == Serialized(profile)
    ensures forall k :: k != ProfileKey(profile.userId) ==> (k in r <==> k in entries) && (k in entries ==> r[k] == entries[k])
  {
    entries[ProfileKey(profile.userId) := Serialized(profile)]
  }

  /** A saved profile is loaded as it is, for any role, and nothing is written. */
  lemma LoadStoredProfile(entries: map<string, StoredValue>, user: User, p: UserProfile)
    requires ProfileKey(user.id) in entries && entries[ProfileKey(user.id)] == Serialized(p)
    ensures Load(entries, user) == LoadOutcome(Some(p), entries)
  {
  }

  /** The stored text "null" parses without error to no profile: even an administrator then
      gets no profile, and the defaults are not written. */
  lemma LoadNullLiteral(entries: map<string, StoredValue>, user: User)
    requires ProfileKey(user.id) in entries && entries[ProfileKey(user.id)] == NullLiteral
    ensures Load(entries, user) == LoadOutcome(None, entries)
  {
  }

  /** A stored value that does not parse is removed; an administrator's is then replaced by the
      preset profile. */
  lemma LoadCorruptEntry(entries: map<string, StoredValue>, user: User, text: string)
    requires text != ""
    requires ProfileKey(user.id) in entries && entries[ProfileKey(user.id)] == Unparseable(text)
    ensures user.role == ADMIN ==>
              Load(entries, user) ==
              LoadOutcome(Some(AdminDefaultProfile(user.id)),
                          entries[ProfileKey(user.id) := Serialized(AdminDefaultProfile(user.id))])
    ensures user.role != ADMIN ==>
              Load(entries, user) == LoadOutcome(None, entries - {ProfileKey(user.id)})
  {
    var key := ProfileKey(user.id);
    if user.role == ADMIN {
      assert (entries - {key})[key := Serialized(AdminDefaultProfile(user.id))] ==
             entries[key := Serialized(AdminDefaultProfile(user.id))];
    }
  }

  /** With no entry, or an empty one (which is falsy and so neither read nor removed), an
      administrator gets the preset profile with their own id, and it is persisted; anyone else
      gets no profile and the storage is left as it was. */
  lemma LoadWithoutEntry(entries: map<string, StoredValue>, user: User)
    requires ProfileKey(user.id) !in entries || entries[ProfileKey(user.id)] == Unparseable("")
    ensures user.role == ADMIN ==>
              Load(entries, user).profile == Some(AdminDefaultProfile(user.id)) &&
              Load(entries, user).profile.value.userId == user.id &&
              Load(entries, user).entries ==
              entries[ProfileKey(user.id) := Serialized(AdminDefaultProfile(user.id))]
    ensures user.role != ADMIN ==> Load(entries, user) == LoadOutcome(None, entries)
  {
  }

  /** Loading only ever writes or removes the user's own key. */
  lemma LoadTouchesOnlyOwnKey(entries: map<string, StoredValue>, user: User, k: string)
    requires k != ProfileKey(user.id)
    ensures k in Load(entries, user).entries <==> k in entries
    ensures k in entries ==> Load(entries, user).entries[k] == entries[k]
  {
  }

  /** Loading again after a load changes nothing: the second load finds what the first left. */
  lemma LoadIdempotent(entries: map<string, StoredValue>, user: User)
    ensures Load(Load(entries, user).entries, user) == Load(entries, user)
  {
    var key := ProfileKey(user.id);
    var after := Load(entries, user).entries;
    if user.role == ADMIN {
      assert key in after && IsTruthy(after[key]) && !after[key].Unparseable?;
    } else {
      assert key !in after || !IsTruthy(after[key]) || !after[key].Unparseable?;
    }
  }

  /** A profile saved for a user is what that user's next load yields, and that load writes
      nothing. */
  lemma SaveThenLoad(entries: map<string, StoredValue>, p: UserProfile, user: User)
    requires user.id == p.userId
    ensures Load(Save(entries, p), user) == LoadOutcome(Some(p), Save(entries, p))
  {
  }

  /** Saving one user's profile does not change what another user's load yields. */
  lemma SaveKeepsOtherUsers(entries: map<string, StoredValue>, p: UserProfile, user: User)
    requires user.id != p.userId
    ensures Load(Save(entries, p), user).profile == Load(entries, user).profile
    ensures Load(Save(entries, p), user).entries ==
            Load(entries, user).entries[ProfileKey(p.userId) := Serialized(p)]
  {
    var key, savedKey := ProfileKey(user.id), ProfileKey(p.userId);
    if key == savedKey {
      ProfileKeyInjective(user.id, p.userId);
    }
    var saved := Save(entries, p);
    assert (key in saved <==> key in entries) && (key in entries ==> saved[key] == entries[key]);
    if !(key in entries && IsTruthy(entries[key]) && !entries[key].Unparseable?) {
      var kept := if key in entries && IsTruthy(entries[key]) then entries - {key} else entries;
      var keptSaved := if key in saved && IsTruthy(saved[key]) then saved - {key} else saved;
      assert keptSaved == kept[savedKey := Serialized(p)];
      if user.role == ADMIN {
        var d := Serialized(AdminDefaultProfile(user.id));
        assert keptSaved[key := d] == kept[key := d][savedKey := Serialized(p)];
      }
    }
  }

  class UserProfileService {
    var profile: Option<UserProfile>
    const storage: LocalStorage

    constructor(storage: LocalStorage)
      ensures this.storage == storage && profile == None
    {
      this.storage := storage;
      profile := None;
    }

    /** `hasProfile`. */
    function HasProfile(): (b: bool)
      reads this
      ensures b <==> profile.Some?
    {
      profile != None
    }

    /** The effect run whenever the signed-in identity changes: load on sign-in, clear on sign-out
        (sign-out leaves the storage alone, so the profile loads again at the next sign-in). */
    method OnIdentityChange(user: Option<User>)
      modifies this`profile, storage
      ensures user.Some? ==> LoadOutcome(profile, storage.entries) == Load(old(storage.entries), user.value)
      ensures user.None? ==> profile == None && storage.entries == old(storage.entries)
    {
      if user.Some? {
        LoadProfile(user.value);
      } else {
        ClearProfile();
      }
    }

    /** `loadProfile`. */
    method LoadProfile(user: User)
      modifies this`profile, storage
      ensures LoadOutcome(profile, storage.entries) == Load(old(storage.entries), user)
    {
      var key := ProfileKey(user.id);
      var stored := storage.GetItem(key);
      if stored.Some? && IsTruthy(stored.value) {
        match stored.value
        case Serialized(p) =>
          profile := Some(p);
          return;
        case NullLiteral =>
          profile := None;
          return;
        case Unparseable(_) =>
          storage.RemoveItem(key);
      }
      if user.role == ADMIN {
        var adminProfile := AdminDefaultProfile(user.id);
        profile := Some(adminProfile);
        storage.SetItem(key, Serialized(adminProfile));
      } else {
        profile := None;
      }
    }

    /** `saveProfile`. */
    method SaveProfile(p: UserProfile)
      modifies this`profile, storage
      ensures profile == Some(p) && storage.entries == Save(old(storage.entries), p)
    {
      profile := Some(p);
      storage.SetItem(ProfileKey(p.userId), Serialized(p));
    }

    /** `clearProfile`: only the in-memory profile is reset. */
    method ClearProfile()
      modifies this`profile
      ensures profile == None
    {
      profile := None;
    }
  }
}
