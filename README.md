# Linguist profile core, modelled in Dafny

This project models the part of the translation-agency application that keeps
a linguist's profile:

- the `HasNestedSync` trait, which reconciles a model's child collections with a submitted list (sync, or delete-and-recreate);
- `ProfileService`, which creates a profile or updates it with its scalar fields, its additional contact details, its nested collections and its translation-tool pivot;
- `ProfileController`'s form save, avatar replacement and avatar removal;
- `UpdateProfileRequest`'s authorisation and validation rules;
- the `Profile` model's mass-assignment list and completeness check, and `User::shouldCompleteProfile`;
- the `LanguagePairsRateObserver`, which writes an approval-history row when a rate's final value changes;
- the `useRoles` hook of the front end.

PHP values are a `Value` datatype: null, bool, int, string, list and keyed array.
PHP's truthiness, `isset` and `??` are written out on it.
Database tables of child rows are maps from auto-increment keys to owned rows.
An object that the source updates in place is a class with `modifies` clauses:

- the syncing model;
- the profile service;
- the controller's store of profiles, addresses and language pivots;
- the rate book with its history.

Each such method is proved against a specification function of the old state.
The properties the source promises are lemmas about those functions.

Modules: `Wrappers` (Option, Result), `PhpValues`, `NestedSync`, `Roles`,
`ProfileModel`, `UserModel`, `RateHistory`, `ProfileRequest`,
`ProfileService`, `ProfileController`.

Two behaviours of the code are worth stating plainly:

- `syncRelation` skips an item whose id is unknown or belongs to another owner: such an item updates nothing and creates nothing.
- `authorize` with no signed-in user calls `load` on null and throws, so it never returns false. The model returns a `Failure`.

Three steps of the code do not do what they evidently intend (see "## Findings"):

- `syncRelation` as written never updates a row;
- `ProfileService::create` never stores a profile, because it omits `user_id`;
- the additional-info update is discarded, because its keys are not fillable.

The rest of the model uses the corrected step in each case. The members whose
row says "corrected" state the corrected behaviour, and each has a line under
"## Left out" or a row under "## Findings" naming its as-written counterpart.

## Model

| member | source | states |
|---|---|---|
| NestedSync.Sync | app/Traits/HasNestedSync.php:17-35 | Corrected `syncRelation`: the bulk delete of unlisted rows, then the update-or-create loop. Its properties are the lemmas below. |
| NestedSync.SyncItemAsWritten | app/Traits/HasNestedSync.php:26-33 | One loop step as written: `find` still carries the delete's `whereNotIn`, so it misses every kept id. |
| NestedSync.SyncAsWritten | app/Traits/HasNestedSync.php:17-35 | `syncRelation` as written: the bulk delete, then the loop with the delete's constraint still on the query. |
| NestedSync.SyncItemsAsWrittenKeepsRows | app/Traits/HasNestedSync.php:28-34 | As written, the loop never changes an existing row. It adds one row per id-less item and keeps the table valid. |
| NestedSync.SyncAsWrittenNeverUpdates | app/Traits/HasNestedSync.php:17-35 | As written, every row that survives keeps its old attributes. An owner's row survives if and only if the payload lists its id. |
| NestedSync.SyncAsWrittenDropsUpdate | app/Traits/HasNestedSync.php:26-30 | Concrete case: a listed row renamed by the payload keeps its old name as written, and takes the new one when corrected. |
| NestedSync.SyncItemsShape | app/Traits/HasNestedSync.php:28-34 | The item loop never deletes or re-owns a row, and never touches another owner's rows. It adds exactly one new row of the owner per item without an id. |
| NestedSync.SyncItemsMatched | app/Traits/HasNestedSync.php:29-30 | Corrected: an existing row of the owner ends the loop holding its old attributes overwritten by every item naming its id, in payload order. |
| NestedSync.SyncItemsCreated | app/Traits/HasNestedSync.php:31-32 | The j-th item without an id becomes the j-th new row, owned by the model, with its attributes minus `id`. |
| NestedSync.SyncPrunesUnlisted | app/Traits/HasNestedSync.php:17-35 | After `syncRelation`, a row the owner had survives if and only if the payload lists its id. |
| NestedSync.SyncUpdatesMatched | app/Traits/HasNestedSync.php:17-35 | Corrected: a listed surviving row carries the merged attributes of the items naming it. |
| NestedSync.SyncLeavesOtherOwners | app/Traits/HasNestedSync.php:17-35 | Rows belonging to other owners are neither deleted nor changed. |
| NestedSync.SyncRelationExactly | app/Traits/HasNestedSync.php:17-35 | The relation afterwards is exactly the kept old rows plus one fresh row per id-less item, and the table stays valid. |
| NestedSync.SyncCreatesNewItems | app/Traits/HasNestedSync.php:17-35 | The j-th id-less item is stored as the j-th fresh key. |
| NestedSync.SyncIgnoresFalsyId | app/Traits/HasNestedSync.php:21-30 | An item whose id is set but falsy is filtered from the keep-list, and `find` misses it. Appending it changes nothing. |
| NestedSync.SyncSkipsUnknownId | app/Traits/HasNestedSync.php:26-30 | An item whose id is not a row of the owner is skipped silently, with no update, no create and no error. |
| NestedSync.Overwrite | app/Traits/HasNestedSync.php:37-45 | `overwriteRelation`: delete all the owner's rows, then create one row per item. Its properties are the lemmas below. |
| NestedSync.CreateItemsShape | app/Traits/HasNestedSync.php:42-44 | The create loop adds one owned row per item, in order, and touches nothing else. |
| NestedSync.OverwriteRelationExactly | app/Traits/HasNestedSync.php:37-45 | After `overwriteRelation` the owner's relation is exactly the new rows, one per item. Other owners' rows are untouched. |
| NestedSync.Camel | app/Traits/HasNestedSync.php:55 | `Str::camel`: separators dropped, each later word capitalised, the first letter lower-cased. |
| NestedSync.PolicyFor | app/Traits/HasNestedSync.php:58-65 | Sync for `addresses` and `language_pairs_rates`, overwrite for every other name. |
| NestedSync.StudlyFromWord | app/Traits/HasNestedSync.php:55 | `Str::camel` keeps the letters of a word without separators and only changes the case of its first letter. |
| NestedSync.CamelOfAddresses | app/Traits/HasNestedSync.php:55 | The collection name `addresses` resolves to the relation method `addresses`. |
| NestedSync.CamelOfLanguagePairsRates | app/Traits/HasNestedSync.php:55-62 | The collection name `language_pairs_rates` resolves to the relation method `languagePairsRates`, which is then synced. |
| NestedSync.SyncFromRequest | app/Traits/HasNestedSync.php:51-69 | `syncRelationsFromRequest`: the listed names in order, each reconciled by its policy when present in the data and defined as a relation. |
| NestedSync.SyncFromRequestFrame | app/Traits/HasNestedSync.php:51-69 | Only relations that are listed, present in the data and defined on the model are touched. No relation appears or disappears. |
| NestedSync.SyncFromRequestPolicy | app/Traits/HasNestedSync.php:53-66 | A requested relation is synced when named `addresses` or `language_pairs_rates` and overwritten otherwise. |
| NestedSync.SyncValid | app/Traits/HasNestedSync.php:17-35 | Syncing preserves the table's key invariant. |
| NestedSync.OverwriteValid | app/Traits/HasNestedSync.php:37-45 | Overwriting preserves the table's key invariant. |
| NestedSync.SyncingModel.SyncRelation | app/Traits/HasNestedSync.php:17-35 | Corrected: replaces the named relation's table by its sync, with every other relation unchanged. Keeps the invariant. |
| NestedSync.SyncingModel.OverwriteRelation | app/Traits/HasNestedSync.php:37-45 | Replaces the named relation's table by its delete-and-recreate, with every other relation unchanged. Keeps the invariant. |
| NestedSync.SyncingModel.SyncRequested | app/Traits/HasNestedSync.php:54-66 | Corrected for sync-policy names. One iteration: reconciles the relation only when the key is present and the camel-cased method exists. |
| NestedSync.SyncingModel.SyncRelationsFromRequest | app/Traits/HasNestedSync.php:51-69 | Corrected for sync-policy names. The relations afterwards equal the in-order fold, whose frame and policy lemmas are above. |
| Roles.HasRole | resources/js/hooks/use-roles.tsx:4-6 | The role is among the user's roles. |
| Roles.HasAnyRole | resources/js/hooks/use-roles.tsx:8-10 | True if and only if some listed role is among the user's roles. |
| Roles.HasAllRoles | resources/js/hooks/use-roles.tsx:12-14 | True if and only if every listed role is among the user's roles. |
| Roles.EmptyRoleList | resources/js/hooks/use-roles.tsx:8-14 | For an empty list, `some` is false and `every` is true. |
| Roles.AllRolesImpliesAnyRole | resources/js/hooks/use-roles.tsx:8-14 | On a non-empty list, having all the roles implies having one of them. |
| Roles.SingletonRoleList | resources/js/hooks/use-roles.tsx:4-14 | On a one-element list both checks agree with `hasRole`. |
| ProfileModel.Fill | app/Models/Profile.php:17-29 | `fill`: the data's fillable keys overwrite the attributes, and every other key is silently discarded. |
| ProfileModel.IsComplete | app/Models/Profile.php:53-67 | `isComplete`, clause by clause with PHP truthiness. |
| ProfileModel.FillSetsOnlyFillable | app/Models/Profile.php:17-29 | Mass assignment writes exactly the fillable keys the data carries. Every other attribute is left as it was. |
| ProfileModel.FillableAttributes | app/Models/Profile.php:17-29 | Eleven attributes are fillable, and `secondary_email` and `secondary_phone` are not among them. |
| ProfileModel.IsCompleteIffFieldsFilled | app/Models/Profile.php:53-67 | A profile is complete if and only if its eight completion fields are truthy, its address exists and it has at least one language. |
| ProfileModel.CompanyProfileNeverComplete | app/Models/Profile.php:56 | A profile whose `is_individual` is falsy is never complete. That covers false, the 0 an uncast column reads back, and null. |
| ProfileModel.CompleteProfileOffersBothServices | app/Models/Profile.php:62-66 | A complete profile is a translator and an interpreter, with an address and a language. |
| UserModel.ShouldCompleteProfile | app/Models/User.php:57-61 | A linguist with no profile, or with an incomplete one. |
| UserModel.OnlyLinguistsArePrompted | app/Models/User.php:57-61 | A user without the `linguist` role is never prompted. |
| UserModel.LinguistPromptedUnlessComplete | app/Models/User.php:57-61 | A linguist is prompted if and only if there is no complete profile. |
| UserModel.CompanyLinguistAlwaysPrompted | app/Models/User.php:57-61 | A linguist whose profile's `is_individual` is falsy (false, 0 or null) is always prompted. |
| RateHistory.HistoryAfterUpdate | app/Observers/LanguagePairsRateObserver.php:22-40 | The history keeps every old row and gains at most one. It gains one if and only if the final rate changed and is not null. That row links the rate, the old and new values and the actor, with type `approved` and note `Rate approved.`. |
| RateHistory.ClearingRateRecordsNothing | app/Observers/LanguagePairsRateObserver.php:28 | Clearing the final rate to null writes no history. |
| RateHistory.UnchangedRateRecordsNothing | app/Observers/LanguagePairsRateObserver.php:25 | Saving without changing the final rate writes no history. |
| RateHistory.ApprovalSequence | app/Observers/LanguagePairsRateObserver.php:22-40 | Null, then 100.00, then 120.00, then 120.00 again yields exactly two chained rows. |
| RateHistory.RateBook.Create | database/migrations/2025_04_28_192903_create_language_pairs_rates_table.php:14-27 | Inserts the row under the next key unless the (user, source, target, service) key is taken, and fails if and only if it is. The `created` hook (LanguagePairsRateObserver.php:14-17) writes no history. |
| RateHistory.RateBook.Updated | app/Observers/LanguagePairsRateObserver.php:22-40 | The `updated` hook appends to the history exactly as `HistoryAfterUpdate` says, and nothing else changes. |
| RateHistory.RateBook.SaveRates | app/Providers/AppServiceProvider.php:28 | Saving a rate row through the observed model updates the row and fires the `updated` hook with the previous final rate. |
| ProfileRequest.Authorize | app/Http/Requests/UpdateProfileRequest.php:13-32 | Fails if and only if no user is signed in. Refuses if and only if the user's profile names a different owner. |
| ProfileRequest.OwnerIsAuthorized | app/Http/Requests/UpdateProfileRequest.php:26-31 | A signed-in user with no profile, or with their own, is authorised. |
| ProfileRequest.RuleTable | app/Http/Requests/UpdateProfileRequest.php:39-67 | The nineteen rule lines, field by field, in source order. |
| ProfileRequest.Passes | app/Http/Requests/UpdateProfileRequest.php:39-67 | The request passes when every field passes each of its rules that applies. Implicit rules always apply; others are skipped for a missing or blank value, and for null when the field is nullable. Every native-language entry is an existing language id, or a blank string, which its rules skip. |
| ProfileRequest.Validated | app/Http/Requests/UpdateProfileRequest.php:39-67 | `validated()`: the ruled keys the payload carries, and the address cut to its ruled subkeys. |
| ProfileRequest.LanguageIds | app/Http/Controllers/ProfileController.php:96-98 | The ids the language pivot is synced to: the integer entries of the submitted array. |
| ProfileRequest.FieldFails | app/Http/Requests/UpdateProfileRequest.php:39-67 | A rule that applies to a field and fails rejects the whole request. |
| ProfileRequest.AcceptedNames | app/Http/Requests/UpdateProfileRequest.php:42-43 | An accepted request has non-blank first and last names of at most 255 characters. |
| ProfileRequest.NullIndividualFlagRejected | app/Http/Requests/UpdateProfileRequest.php:47 | A null `is_individual` is rejected by `boolean`. |
| ProfileRequest.AcceptedLanguageCount | app/Http/Requests/UpdateProfileRequest.php:54 | Accepted native languages are an array of one or two entries, or a blank string when `is_individual` is not filled. |
| ProfileRequest.TooManyLanguagesRejected | app/Http/Requests/UpdateProfileRequest.php:54 | Three or more native languages are rejected. |
| ProfileRequest.BlankFirstNameRejected | app/Http/Requests/UpdateProfileRequest.php:42 | A missing or blank first name is rejected. |
| ProfileRequest.CompanyNameRequiredForCompanies | app/Http/Requests/UpdateProfileRequest.php:44 | With `is_individual` false, a missing company name is rejected. |
| ProfileRequest.DateOfBirthRequiredForIndividuals | app/Http/Requests/UpdateProfileRequest.php:46 | With `is_individual` true, a missing date of birth is rejected. |
| ProfileRequest.AnsweredFlagRequiresCurrencyAndLanguages | app/Http/Requests/UpdateProfileRequest.php:51-54 | Once `is_individual` is filled, an existing currency id and filled native languages are required. |
| ProfileRequest.AcceptedAddress | app/Http/Requests/UpdateProfileRequest.php:58-64 | An accepted request carries an address array with string line 1, city, state, postal code and country. |
| ProfileRequest.AddressLine | app/Http/Requests/UpdateProfileRequest.php:59-64 | A passing `required` and `string` address line is a string inside an address array. |
| ProfileRequest.AcceptedShape | app/Http/Requests/UpdateProfileRequest.php:39-67 | The validated data of an accepted request has only ruled keys and an address with only its ruled subkeys. This is what the controller relies on. |
| ProfileRequest.StringFieldPasses | app/Http/Requests/UpdateProfileRequest.php:42-45 | A non-blank string within the length bound passes `required`, `string` and `max:n`, and also `nullable`, `string` and `max:n`. |
| ProfileRequest.ExamplePayloadAccepted | tests/Feature/ProfileUpdateTest.php:12-54 | The test's form payload passes every rule whenever its currency and languages exist. |
| ProfileService.FirstMissing | app/Services/ProfileService.php:14-18 | The key `create` throws on: absent from the data, with every earlier required key present. None if and only if all are present. |
| ProfileService.CreateProfileAsWrittenAlwaysFails | app/Services/ProfileService.php:13-25 | As written, `create` never inserts a profile. It fails on a missing key, and otherwise on the NOT NULL `user_id`. |
| ProfileService.CreateProfile | app/Services/ProfileService.php:11-25 | Corrected `create` fails if and only if a required key is missing, naming that key. On success the profile names its owner. |
| ProfileService.CreateProfileKeys | app/Services/ProfileService.php:13-25 | The created profile holds `user_id` and exactly the fillable fields of the array. `native_language_id` and `profile_picture` are discarded. |
| ProfileService.CreateProfileAttribute | app/Services/ProfileService.php:14-24 | Each created attribute is the data's value. A missing optional field becomes null. |
| ProfileService.ScalarUpdate | app/Services/ProfileService.php:42-56 | `updateInternal`'s `update`: each field from the data when set there, else the profile's own value, mass-assigned. |
| ProfileService.ScalarUpdateMerges | app/Services/ProfileService.php:42-56 | A fillable field set in the data replaces the profile's value. A missing or null field keeps it. Nothing else changes. |
| ProfileService.ScalarUpdateIdempotent | app/Services/ProfileService.php:42-56 | Applying the same scalar update twice equals applying it once. |
| ProfileService.AdditionalInfoAsWrittenIsDiscarded | app/Services/ProfileService.php:64-70 | As written, the additional-info update leaves the profile unchanged. |
| ProfileService.WithAdditionalInfo | app/Services/ProfileService.php:64-70 | Corrected: when additional info is set, the secondary email and phone come from it, defaulting to null. Nothing else changes. Without it, the profile is unchanged. |
| ProfileService.UpsertItems | app/Services/ProfileService.php:74-79 | The `foreach` of one block: `updateOrCreate` keyed on the item's id, in payload order. |
| ProfileService.UpsertItemsShape | app/Services/ProfileService.php:73-80 | The upsert loop never deletes or re-owns a row, leaves other owners' rows alone and adds only rows of the owner. |
| ProfileService.UpsertItemsMatched | app/Services/ProfileService.php:75-78 | A row the owner had receives every item naming it, in order. |
| ProfileService.UpsertItemsCreated | app/Services/ProfileService.php:75-78 | One new row per item that names no row of the owner, in order. This covers an unknown id, another owner's id, a non-integer id and a missing id. |
| ProfileService.UpsertNeverDeletes | app/Services/ProfileService.php:73-137 | `updateOrCreate` never removes a row of the owner. |
| ProfileService.ItemsOf | app/Services/ProfileService.php:74 | The iterated items are the payload's arrays, in order. |
| ProfileService.CollectionsDistinct | app/Services/ProfileService.php:72-137 | The six collection blocks write six distinct relations. |
| ProfileService.NestedPrefixKeeps | app/Services/ProfileService.php:72-137 | A relation no earlier block writes is unchanged. |
| ProfileService.NestedPrefixWrites | app/Services/ProfileService.php:72-137 | A block whose key is set leaves its relation as the upsert of its items over the original table. |
| ProfileService.NestedChildrenValid | app/Services/ProfileService.php:72-137 | All child tables keep their key invariant. |
| ProfileService.ToolsAfter | app/Services/ProfileService.php:93-97 | When tools are given, the pivot afterwards is exactly their `translation_tool_id`s. Otherwise it is unchanged. |
| ProfileService.ProfileService.constructor | app/Services/ProfileService.php:37-40 | The service wraps the given profile and its relations. |
| ProfileService.ProfileService.Create | app/Services/ProfileService.php:11-30 | Corrected `create`, and corrected for additional info: fails exactly as corrected `create` does. Otherwise returns a fresh profile that is created, given the corrected additional info, upserted and tool-synced. |
| ProfileService.ProfileService.Update | app/Services/ProfileService.php:32-59 | Corrected for additional info: the profile gets the scalar merge, then the corrected additional-info write. Child tables become the six upserts, and the tool pivot follows `ToolsAfter`. |
| ProfileService.ProfileService.HandleNestedRelations | app/Services/ProfileService.php:61-138 | Corrected for additional info: the profile gets the corrected additional-info write. Then the blocks run in source order, with the result stated by the specification functions above. |
| ProfileService.ProfileService.SaveAdditionalInfo | app/Services/ProfileService.php:64-70 | Applies the corrected additional-info update. |
| ProfileService.ProfileService.UpsertCollection | app/Services/ProfileService.php:73-137 | One collection block: advances the children by one step of the block fold. |
| ProfileService.ProfileService.UpsertRelation | app/Services/ProfileService.php:74-79 | The loop leaves the relation as the in-order upsert of the items. Every other relation is unchanged. |
| ProfileController.ReplaceAvatar | app/Http/Controllers/ProfileController.php:123-136 | The avatar becomes the new path and every other attribute is kept. The old file is deleted if and only if there was a truthy avatar. |
| ProfileController.ClearAvatar | app/Http/Controllers/ProfileController.php:144-151 | With an avatar, its file is deleted and the attribute cleared. Without one, nothing happens. |
| ProfileController.ClearAvatarIdempotent | app/Http/Controllers/ProfileController.php:141-154 | A second removal deletes nothing and changes nothing. |
| ProfileController.ReplaceThenClear | app/Http/Controllers/ProfileController.php:111-154 | Replace then remove deletes the old file, if any, and then the new one. |
| ProfileController.UpdatedProfile | app/Http/Controllers/ProfileController.php:79-81 | The user's profile, or a new one naming the user, with the validated data filled in. |
| ProfileController.UpdatedProfileFields | app/Http/Controllers/ProfileController.php:79-81 | Saving writes the validated fillable fields and keeps every other attribute. The nested address and languages never become attributes, and the owner never changes. |
| ProfileController.UpdateIdempotent | app/Http/Controllers/ProfileController.php:70-101 | Saving the same form twice gives the same profile, address and language pivot as saving it once. |
| ProfileController.StoredOwnerAuthorized | app/Http/Requests/UpdateProfileRequest.php:19-31 | Since the store files each profile under its own owner, `authorize` admits every signed-in user. |
| ProfileController.ProfileStore.Update | app/Http/Controllers/ProfileController.php:70-101 | Profile, address and language pivot become their specification functions, and deleted files are unchanged. |
| ProfileController.ProfileStore.SaveProfile | app/Http/Controllers/ProfileController.php:79-81 | Stores the filled profile under its owner and keeps the ownership invariant. |
| ProfileController.ProfileStore.UpdateAvatar | app/Http/Controllers/ProfileController.php:111-139 | On the first-or-created profile, applies `ReplaceAvatar`, records the deleted files, and touches no address or language. |
| ProfileController.ProfileStore.DestroyAvatar | app/Http/Controllers/ProfileController.php:141-154 | On the first-or-created profile, applies `ClearAvatar`, records the deleted files, and touches no address or language. |
| ProfileController.ExampleValidated | tests/Feature/ProfileUpdateTest.php:12-54 | The validated data of the test's form keeps its names, its address line and its two language ids. |
| ProfileController.FirstSaveStoresForm | tests/Feature/ProfileUpdateTest.php:12-54 | A first save stores the names on a new profile, the address as a new address, and the integer language ids as the pivot. |
| ProfileController.ExampleFormSaved | tests/Feature/ProfileUpdateTest.php:12-54 | For the test's form, the stored names, first address line and languages are the submitted ones. |

## Left out

- I/O, redirects, Inertia responses, the session, and authentication itself are left out. The signed-in user is a parameter.
- Database transactions are left out. So is the state after an exception thrown mid-way.
- `updateAvatar`'s file validation (`image`, `max:2048`) and the storage write are left out. The stored path is an input, and deletions are recorded as a list.
- Profile declares none of the relation methods `handleNestedRelations` calls: `addresses()`, `expertises()`, `translationTools()`, `languagePairsRates()`, `qualifications()`, `references()` and `documents()`. On the model as given, those keys would throw. The model requires the owner to have a table for each relation the data reaches.
- The child models' own fillable lists are not modelled. The Address model is not part of this model; a child write drops only `id`.
- `syncRelation`'s `primaryKey` parameter is fixed to `id`.
- NestedSync.SyncingModel.SyncRelation: states the corrected sync, which updates listed rows. As written no row is updated; `SyncAsWrittenNeverUpdates` states that.
- NestedSync.SyncingModel.SyncRequested: for `addresses` and `language_pairs_rates` it states the corrected sync, not the code as written, which updates no row.
- NestedSync.SyncingModel.SyncRelationsFromRequest: every sync-policy step is the corrected sync, not the code as written, which updates no row.
- NestedSync.Sync: treats `languagePairsRates` as a plain child table. The observer's history row on a changed final rate, and the unique-key refusal of a duplicate rate (`RateHistory.RateBook`), are not applied to rows it writes.
- ProfileService.UpsertItems: treats `languagePairsRates` as a plain child table. The observer's history row on a changed final rate, and the unique-key refusal of a duplicate rate (`RateHistory.RateBook`), are not applied to rows it writes.
- ProfileService.ProfileService.Create: the additional-info step is the corrected write. As written that write is discarded by mass assignment and the profile keeps its attributes (`AdditionalInfoAsWrittenIsDiscarded`); the `create` itself as written always fails (`CreateProfileAsWrittenAlwaysFails`).
- ProfileService.ProfileService.Update: the additional-info step is the corrected write, which sets `secondary_email` and `secondary_phone`. As written the profile is unchanged by that step (`AdditionalInfoAsWrittenIsDiscarded`).
- ProfileService.ProfileService.HandleNestedRelations: the additional-info step is the corrected write, which sets `secondary_email` and `secondary_phone`. As written the profile is unchanged by that step (`AdditionalInfoAsWrittenIsDiscarded`).
- ProfileService.ProfileService.SaveAdditionalInfo: states the corrected write. As written the profile is unchanged (`AdditionalInfoAsWrittenIsDiscarded`).
- Ids match only as integers: numeric strings are not coerced to keys.
- Keyed-array collections in `handleNestedRelations` are not modelled; the model takes lists of keyed arrays.
- `Str::camel` is modelled on ASCII letters and the separators `_`, `-` and space only. Its cache and Unicode case mapping are not modelled.
- ProfileRequest.Passes: `date` is modelled as `YYYY-MM-DD` only. The other formats `strtotime` accepts are not modelled.
- ProfileRequest.Passes: `integer` accepts only integers, not numeric strings.
- ProfileRequest.Passes: the `TrimStrings` and `ConvertEmptyStringsToNull` middleware are not modelled. A string reaches the rules untrimmed, and a blank string is not turned into null.
- ProfileRequest.AcceptedShape: requires native languages, when present, to be an array. A blank string that passes validation (when `is_individual` is not filled) is not covered.
- ProfileController.ProfileStore.Update: requires `ValidatedShape`, so the save of a validated blank-string `native_languages` is not modelled. `LanguageIds` drops non-integer entries.
- RateHistory.RecordsApproval: dirtiness is compared on exact cent values. Changes in string representation that Eloquent also counts as dirty are not modelled.
- The observer's `deleted`, `restored` and `forceDeleted` hooks are empty and not modelled.
- `User::isComplete` and the rest of the User model are outside this model.
- `ProfileController::show`, `edit` and `destroy` are outside this model.
- `messages()` of the request is outside this model.
- The history table's `proposed` change type is never written by the code, so it is not modelled.

## Findings

| source | as written | input that shows it | evidently intended | confidence | as-written member | corrected member |
|---|---|---|---|---|---|---|
| app/Services/ProfileService.php:13-25 | `create` builds the profile without `user_id`, which the profiles migration (line 16) declares NOT NULL with no default | any data with first name, last name, phone number and date of birth | the new profile belongs to a user, so `user_id` is set | high (not executed) | ProfileService.CreateProfileAsWrittenAlwaysFails | ProfileService.CreateProfile |
| app/Traits/HasNestedSync.php:26-30 | `$relation` is one query builder for the whole call, so the `whereNotIn('id', $existingIds)` of the delete stays on it. `find($item['id'])` then looks for a key that must both be and not be kept, finds nothing, and `update` never runs | owner 1 owns row 5 named "old"; the payload is one item with id 5 named "new" | a listed row is updated from its item, as the row-by-row loop intends | high (not executed) | NestedSync.SyncAsWrittenNeverUpdates | NestedSync.SyncUpdatesMatched |
| app/Services/ProfileService.php:64-70 | additional info is written with `update` on Profile, whose fillable list (app/Models/Profile.php:17-29) lacks `secondary_email`, `secondary_phone` and `additional_fields`, so mass assignment silently discards all three | `additional_info` holding a secondary email | the profile's `secondary_email` and `secondary_phone` columns (profiles migration, lines 34-35) are set | medium (not executed) | ProfileService.AdditionalInfoAsWrittenIsDiscarded | ProfileService.WithAdditionalInfo |
