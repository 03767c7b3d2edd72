/**
 * `ProfileController`: saving the profile form (the profile, its one
 * address and its native-language pivot), and replacing or removing the
 * avatar. The store keeps at most one profile per user, as `hasOne` does,
 * filed under the owning user's id.
 */
module ProfileController {
  import opened Wrappers
  import opened PhpValues
  import opened ProfileModel
  import opened ProfileRequest

  /** Every stored profile names, as `user_id`, the user it is filed under, and holds only profile attributes. */
  predicate ProfilesOwned(profiles: map<int, Attrs>) {
    forall u :: u in profiles ==> Get(profiles[u], "user_id") == Int(u) && profiles[u].Keys <= Fillable
  }

  /** `$user->profile ?? new Profile(['user_id' => $user->id])`, and likewise `firstOrCreate([])` on the relation. */
  function ProfileOrNew(profiles: map<int, Attrs>, userId: int): Attrs {
    if userId in profiles then profiles[userId] else map["user_id" := Int(userId)]
  }

  /** The profile `update` saves: the validated data mass-assigned onto it. */
  function UpdatedProfile(profiles: map<int, Attrs>, userId: int, validated: Attrs): Attrs {
    Fill(ProfileOrNew(profiles, userId), validated)
  }

  /** The addresses after `update`: the profile's one address updated in place when it exists, created otherwise. */
  function UpdatedAddresses(addresses: map<int, Attrs>, userId: int, validated: Attrs): map<int, Attrs> {
    if IsSet(validated, "address") && validated["address"].Dict? then
      var fields := validated["address"].entries;
      addresses[userId := if userId in addresses then addresses[userId] + fields else fields]
    else addresses
  }

  /** The language pivot after `update`: replaced by the submitted ids when they are given. */
  function UpdatedLanguages(languages: map<int, set<int>>, userId: int, validated: Attrs): map<int, set<int>> {
    if IsSet(validated, "native_languages") then
      languages[userId := LanguageIds(validated["native_languages"])]
    else languages
  }

  /**
   * `update` writes the validated profile fields and leaves every other
   * attribute as it was (a new profile starts from its owner alone); the
   * nested `address` and `native_languages` never become attributes, and the
   * owner never changes.
   */
  lemma UpdatedProfileFields(profiles: map<int, Attrs>, userId: int, validated: Attrs)
    requires ProfilesOwned(profiles) && ValidatedShape(validated)
    ensures var p := UpdatedProfile(profiles, userId, validated);
      && (forall k :: k in validated && k in Fillable ==> Get(p, k) == validated[k])
      && (forall k :: k !in validated || k !in Fillable ==> Get(p, k) == Get(ProfileOrNew(profiles, userId), k))
      && p.Keys <= Fillable
      && Get(p, "user_id") == Int(userId)
  {
    FillSetsOnlyFillable(ProfileOrNew(profiles, userId), validated);
    assert "user_id" !in validated;
  }

  /** Saving the same form twice leaves the profile, the address and the languages as the first save did. */
  lemma UpdateIdempotent(profiles: map<int, Attrs>, addresses: map<int, Attrs>, languages: map<int, set<int>>, userId: int, validated: Attrs)
    ensures var p := profiles[userId := UpdatedProfile(profiles, userId, validated)];
      UpdatedProfile(p, userId, validated) == UpdatedProfile(profiles, userId, validated)
    ensures var a := UpdatedAddresses(addresses, userId, validated);
      UpdatedAddresses(a, userId, validated) == a
    ensures var l := UpdatedLanguages(languages, userId, validated);
      UpdatedLanguages(l, userId, validated) == l
  {
    if IsSet(validated, "address") && validated["address"].Dict? {
      var fields := validated["address"].entries;
      var a := UpdatedAddresses(addresses, userId, validated);
      assert a[userId] + fields == a[userId];
    }
  }

  /** With the store's invariant, `authorize` lets every signed-in user through: a user's profile is always that user's. */
  lemma StoredOwnerAuthorized(profiles: map<int, Attrs>, userId: int)
    requires ProfilesOwned(profiles)
    ensures Authorize(Some(userId), if userId in profiles then Some(profiles[userId]) else None) == Success(true)
  {
  }

  // ---------------------------------------------------------------- avatar

  /** A profile after an avatar operation, and the stored files deleted on the way, in order. */
  datatype AvatarChange = AvatarChange(profile: Attrs, deleted: seq<Value>)

  /** `updateAvatar`, given the path the upload was stored under: delete the old file if there is one, then point at the new one. */
  function ReplaceAvatar(profile: Attrs, path: string): (r: AvatarChange)
    ensures Get(r.profile, "avatar") == Str(path)
    ensures forall k :: k != "avatar" ==> Get(r.profile, k) == Get(profile, k)
    ensures r.deleted == if Truthy(Get(profile, "avatar")) then [Get(profile, "avatar")] else []
  {
    var deleted := if Truthy(Get(profile, "avatar")) then [profile["avatar"]] else [];
    AvatarChange(Fill(profile, map["avatar" := Str(path)]), deleted)
  }

  /** `destroyAvatar`: when there is an avatar, delete its file and clear it; otherwise do nothing. */
  function ClearAvatar(profile: Attrs): (r: AvatarChange)
    ensures !Truthy(Get(r.profile, "avatar"))
    ensures forall k :: k != "avatar" ==> Get(r.profile, k) == Get(profile, k)
    ensures Truthy(Get(profile, "avatar")) ==> Get(r.profile, "avatar") == Null && r.deleted == [profile["avatar"]]
    ensures !Truthy(Get(profile, "avatar")) ==> r == AvatarChange(profile, [])
  {
    if Truthy(Get(profile, "avatar")) then
      AvatarChange(Fill(profile, map["avatar" := Null]), [profile["avatar"]])
    else
      AvatarChange(profile, [])
  }

  /** Removing the avatar twice deletes the file once: the second call changes nothing. */
  lemma ClearAvatarIdempotent(profile: Attrs)
    ensures ClearAvatar(ClearAvatar(profile).profile) == AvatarChange(ClearAvatar(profile).profile, [])
  {
  }

  /** Replacing the avatar and then removing it deletes the old file and the new one, in that order. */
  lemma ReplaceThenClear(profile: Attrs, path: string)
    requires path != "" && path != "0"
    ensures var replaced := ReplaceAvatar(profile, path);
      var cleared := ClearAvatar(replaced.profile);
      replaced.deleted + cleared.deleted ==
        (if Truthy(Get(profile, "avatar")) then [Get(profile, "avatar")] else []) + [Str(path)]
  {
  }

  // ---------------------------------------------------------------- the store

  /** The profiles, their addresses and language pivots by owning user, and the files deleted from public storage. */
  class ProfileStore {
    var profiles: map<int, Attrs>
    var addresses: map<int, Attrs>
    var languages: map<int, set<int>>
    var deletedFiles: seq<Value>

    /** Profiles are owned and hold only profile attributes; addresses and pivots belong to existing profiles. */
    predicate Valid()
      reads this
    {
      ProfilesOwned(profiles) && addresses.Keys <= profiles.Keys && languages.Keys <= profiles.Keys
    }

    constructor ()
      ensures Valid()
      ensures profiles == map[] && addresses == map[] && languages == map[] && deletedFiles == []
    {
      profiles := map[];
      addresses := map[];
      languages := map[];
      deletedFiles := [];
    }

    /** `update($request)` for the signed-in user, given the request's validated data. */
    method Update(userId: int, validated: Attrs)
      requires Valid() && ValidatedShape(validated)
      modifies this
      ensures Valid()
      ensures profiles == old(profiles)[userId := UpdatedProfile(old(profiles), userId, validated)]
      ensures addresses == UpdatedAddresses(old(addresses), userId, validated)
      ensures languages == UpdatedLanguages(old(languages), userId, validated)
      ensures deletedFiles == old(deletedFiles)
    {
      SaveProfile(userId, validated);
      if IsSet(validated, "address") && validated["address"].Dict? {
        var fields := validated["address"].entries;
        if userId in addresses {
          addresses := addresses[userId := addresses[userId] + fields];
        } else {
          addresses := addresses[userId := fields];
        }
      }
      if IsSet(validated, "native_languages") {
        languages := languages[userId := LanguageIds(validated["native_languages"])];
      }
    }

    /** The first step of `update`: fill the user's profile, or a new one, with the validated data and save it. */
    method SaveProfile(userId: int, validated: Attrs)
      requires ProfilesOwned(profiles) && ValidatedShape(validated)
      modifies this`profiles
      ensures ProfilesOwned(profiles)
      ensures profiles == old(profiles)[userId := UpdatedProfile(old(profiles), userId, validated)]
    {
      UpdatedProfileFields(profiles, userId, validated);
      var profile := if userId in profiles then profiles[userId] else map["user_id" := Int(userId)];
      profile := Fill(profile, validated);
      profiles := profiles[userId := profile];
    }

    /** `updateAvatar($request)` for the signed-in user, given the path the upload was stored under. */
    method UpdateAvatar(userId: int, path: string)
      requires Valid()
      modifies this
      ensures Valid()
      ensures var change := ReplaceAvatar(ProfileOrNew(old(profiles), userId), path);
        profiles == old(profiles)[userId := change.profile] && deletedFiles == old(deletedFiles) + change.deleted
      ensures addresses == old(addresses) && languages == old(languages)
    {
      var profile := if userId in profiles then profiles[userId] else map["user_id" := Int(userId)];
      if Truthy(Get(profile, "avatar")) {
        deletedFiles := deletedFiles + [profile["avatar"]];
      }
      profile := Fill(profile, map["avatar" := Str(path)]);
      profiles := profiles[userId := profile];
    }

    /** `destroyAvatar($request)` for the signed-in user. */
    method DestroyAvatar(userId: int)
      requires Valid()
      modifies this
      ensures Valid()
      ensures var change := ClearAvatar(ProfileOrNew(old(profiles), userId));
        profiles == old(profiles)[userId := change.profile] && deletedFiles == old(deletedFiles) + change.deleted
      ensures addresses == old(addresses) && languages == old(languages)
    {
      var profile := if userId in profiles then profiles[userId] else map["user_id" := Int(userId)];
      if Truthy(Get(profile, "avatar")) {
        deletedFiles := deletedFiles + [profile["avatar"]];
        profile := Fill(profile, map["avatar" := Null]);
      }
      profiles := profiles[userId := profile];
    }
  }

  /** What the request hands the controller for the example form. */
  lemma ExampleValidated(currency: int, language1: int, language2: int)
    ensures var v := Validated(ExamplePayload(currency, language1, language2));
      && "first_name" in v && v["first_name"] == Str("Braxton")
      && "last_name" in v && v["last_name"] == Str("Cartwright")
      && "address" in v && v["address"].Dict? && "address_line_1" in v["address"].entries
      && v["address"].entries["address_line_1"] == Str("5678 Oak St")
      && "native_languages" in v && v["native_languages"] == List([Int(language1), Int(language2)])
  {
    var input := ExamplePayload(currency, language1, language2);
    var entries := input["address"].entries;
    var sub := map a | a in entries && a in AddressKeys :: entries[a];
    assert "address_line_1" in sub;
    assert sub != map[];
    var top := map k | k in input && k in RuleKeys && k != "address" :: input[k];
    assert Validated(input) == top["address" := Dict(sub)];
    assert "first_name" in top && "last_name" in top && "native_languages" in top;
  }

  /**
   * Saving a form for a user without a profile stores the submitted names on
   * a new profile, the submitted address as a new address, and exactly the
   * submitted integer language ids as the pivot.
   */
  lemma FirstSaveStoresForm(userId: int, validated: Attrs)
    requires "first_name" in validated && "last_name" in validated
    requires "address" in validated && validated["address"].Dict?
    requires "native_languages" in validated && validated["native_languages"] != Null
    ensures Get(UpdatedProfile(map[], userId, validated), "first_name") == validated["first_name"]
    ensures Get(UpdatedProfile(map[], userId, validated), "last_name") == validated["last_name"]
    ensures UpdatedAddresses(map[], userId, validated) == map[userId := validated["address"].entries]
    ensures UpdatedLanguages(map[], userId, validated) == map[userId := LanguageIds(validated["native_languages"])]
  {
    FillSetsOnlyFillable(ProfileOrNew(map[], userId), validated);
  }

  /** For the example form: the names, the first address line, and the two languages. */
  lemma ExampleFormSaved(currency: int, language1: int, language2: int, userId: int)
    ensures var validated := Validated(ExamplePayload(currency, language1, language2));
      && Get(UpdatedProfile(map[], userId, validated), "first_name") == Str("Braxton")
      && Get(UpdatedProfile(map[], userId, validated), "last_name") == Str("Cartwright")
      && UpdatedAddresses(map[], userId, validated)[userId]["address_line_1"] == Str("5678 Oak St")
      && UpdatedLanguages(map[], userId, validated)[userId] == {language1, language2}
  {
    ExampleValidated(currency, language1, language2);
    var validated := Validated(ExamplePayload(currency, language1, language2));
    FirstSaveStoresForm(userId, validated);
    var langs := validated["native_languages"];
    assert LanguageIds(langs) == {language1, language2} by {
      assert langs.elems[0] == Int(language1) && langs.elems[1] == Int(language2);
    }
  }
}
