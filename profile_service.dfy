/**
 * `ProfileService`: creating a profile from form data, updating one field by
 * field with `??` (a missing or null field keeps its value), and the nested
 * collections, which are upserted by id and never deleted, plus the
 * translation-tool pivot, which is replaced.
 */
module ProfileService {
  import opened Wrappers
  import opened PhpValues
  import opened NestedSync
  import opened ProfileModel

  /** The attributes `create` and `updateInternal` pass to the profile, in source order. */
  const ScalarFields: seq<string> := [
    "first_name", "last_name", "company_name", "phone_number", "date_of_birth", "is_individual",
    "is_translator", "is_interpreter", "preferred_currency_id", "native_language_id", "profile_picture"
  ]

  /** The fields `create` reads as `$data[...]`, without a default, in source order. */
  const CreateRequiredFields: seq<string> := ["first_name", "last_name", "phone_number", "date_of_birth"]

  datatype ServiceError =
    | UndefinedKey(key: string)        // reading a missing array key
    | NotNullViolation(column: string) // inserting a row without a NOT NULL column

  /** The first of `keys` that `data` lacks, scanning in order. */
  function FirstMissing(data: Attrs, keys: seq<string>): (r: Option<string>)
    ensures r.None? <==> forall i :: 0 <= i < |keys| ==> keys[i] in data
    ensures r.Some? ==> r.value in keys && r.value !in data
    ensures r.Some? ==> exists i :: 0 <= i < |keys| && keys[i] == r.value && forall j :: 0 <= j < i ==> keys[j] in data
    decreases |keys|
  {
    if |keys| == 0 then None
    else if keys[0] !in data then Some(keys[0])
    else FirstMissing(data, keys[1..])
  }

  /** The attribute array `create` builds: required fields as given (a null included), the others defaulting to null. */
  function CreationData(data: Attrs): Result<Attrs, ServiceError> {
    match FirstMissing(data, CreateRequiredFields)
    case Some(k) => Failure(UndefinedKey(k))
    case None =>
      Success(map f | f in ScalarFields :: if f in CreateRequiredFields then data[f] else Coalesce(data, f, Null))
  }

  /** Inserting a `profiles` row: `user_id` is NOT NULL and has no default. */
  function InsertProfile(attrs: Attrs): Result<Attrs, ServiceError> {
    if IsSet(attrs, "user_id") then Success(attrs) else Failure(NotNullViolation("user_id"))
  }

  /** `Profile::create([...])` in `create`, as written: the array never carries `user_id`. */
  function CreateProfileAsWritten(data: Attrs): Result<Attrs, ServiceError> {
    match CreationData(data)
    case Failure(e) => Failure(e)
    case Success(d) => InsertProfile(Fill(map[], d))
  }

  /** As written, `create` never inserts a profile: it fails on a missing key, and otherwise on `user_id`. */
  lemma CreateProfileAsWrittenAlwaysFails(data: Attrs)
    ensures CreateProfileAsWritten(data).Failure?
    ensures FirstMissing(data, CreateRequiredFields).None? ==>
      CreateProfileAsWritten(data) == Failure(NotNullViolation("user_id"))
  {
    if FirstMissing(data, CreateRequiredFields).None? {
      var d := CreationData(data).value;
      assert "user_id" !in d;
      assert "user_id" !in Fill(map[], d);
    }
  }

  /**
   * The profile `create` inserts once it is given the owner: the creation
   * array plus `user_id`, through mass assignment.
   */
  function CreateProfile(userId: int, data: Attrs): (r: Result<Attrs, ServiceError>)
    ensures r.Failure? <==> exists i :: 0 <= i < |CreateRequiredFields| && CreateRequiredFields[i] !in data
    ensures r.Failure? ==> r.error.UndefinedKey? && r.error.key in CreateRequiredFields && r.error.key !in data
    ensures r.Success? ==> IsSet(r.value, "user_id") && r.value["user_id"] == Int(userId)
  {
    match CreationData(data)
    case Failure(e) => Failure(e)
    case Success(d) => InsertProfile(Fill(map[], d["user_id" := Int(userId)]))
  }

  /** The created profile holds its owner and the fillable form fields, and nothing else. */
  lemma CreateProfileKeys(userId: int, data: Attrs)
    requires CreateProfile(userId, data).Success?
    ensures forall f :: f in CreateProfile(userId, data).value <==> f == "user_id" || (f in ScalarFields && f in Fillable)
  {
    assert "user_id" !in ScalarFields;
  }

  /**
   * Each attribute of the created profile: a required field as given, an
   * optional form field or null, and nothing for the form fields that are
   * not profile attributes (`native_language_id`, `profile_picture`).
   */
  lemma CreateProfileAttribute(userId: int, data: Attrs, f: string)
    requires CreateProfile(userId, data).Success? && f != "user_id"
    ensures Get(CreateProfile(userId, data).value, f) ==
      if f in CreateRequiredFields then data[f]
      else if f in ScalarFields && f in Fillable then Coalesce(data, f, Null)
      else Null
  {
    if f in CreateRequiredFields {
      assert f in ScalarFields && f in Fillable;
    }
  }

  // ---------------------------------------------------------------- updateInternal

  /** The attribute array `updateInternal` builds: each field from the data when set there, else the profile's own value. */
  function UpdateData(profile: Attrs, data: Attrs): Attrs {
    map f | f in ScalarFields :: Coalesce(data, f, Get(profile, f))
  }

  /** `$this->profile->update([...])` in `updateInternal`. */
  function ScalarUpdate(profile: Attrs, data: Attrs): Attrs {
    Fill(profile, UpdateData(profile, data))
  }

  /**
   * A field set in the data replaces the profile's value; a missing or null
   * one keeps it, so a null can never clear a field; attributes outside the
   * fillable form fields are never changed.
   */
  lemma ScalarUpdateMerges(profile: Attrs, data: Attrs)
    ensures var r := ScalarUpdate(profile, data);
      && (forall f :: f in ScalarFields && f in Fillable && IsSet(data, f) ==> Get(r, f) == data[f])
      && (forall f :: !(f in ScalarFields && f in Fillable && IsSet(data, f)) ==> Get(r, f) == Get(profile, f))
  {
  }

  /** Applying the same update twice changes nothing the first did not. */
  lemma ScalarUpdateIdempotent(profile: Attrs, data: Attrs)
    ensures ScalarUpdate(ScalarUpdate(profile, data), data) == ScalarUpdate(profile, data)
  {
    var r := ScalarUpdate(profile, data);
    assert UpdateData(r, data) == UpdateData(profile, data);
  }

  // ---------------------------------------------------------------- additional_info

  /** The `additional_info` entries, or none when it is not a keyed array. */
  function AdditionalInfo(data: Attrs): Attrs
    requires IsSet(data, "additional_info")
  {
    if data["additional_info"].Dict? then data["additional_info"].entries else map[]
  }

  /** The `additional_info` block of `handleNestedRelations` as written: the three fields go through the profile's mass assignment. */
  function AdditionalInfoAsWritten(profile: Attrs, data: Attrs): Attrs {
    if IsSet(data, "additional_info") then
      var info := AdditionalInfo(data);
      Fill(profile, map[
        "secondary_email" := Coalesce(info, "secondary_email", Null),
        "secondary_phone" := Coalesce(info, "secondary_phone", Null),
        "additional_fields" := Coalesce(info, "additional_fields", Null)])
    else profile
  }

  /** None of the three fields is fillable on `Profile`, so as written the block changes nothing. */
  lemma AdditionalInfoAsWrittenIsDiscarded(profile: Attrs, data: Attrs)
    ensures AdditionalInfoAsWritten(profile, data) == profile
  {
  }

  /**
   * The `additional_info` block as intended: the secondary contact columns
   * of the profile take the submitted values (null when absent); there is no
   * `additional_fields` column on profiles.
   */
  function WithAdditionalInfo(profile: Attrs, data: Attrs): (r: Attrs)
    ensures !IsSet(data, "additional_info") ==> r == profile
    ensures IsSet(data, "additional_info") ==>
      && Get(r, "secondary_email") == Coalesce(AdditionalInfo(data), "secondary_email", Null)
      && Get(r, "secondary_phone") == Coalesce(AdditionalInfo(data), "secondary_phone", Null)
      && (forall k :: k != "secondary_email" && k != "secondary_phone" ==> Get(r, k) == Get(profile, k))
  {
    if IsSet(data, "additional_info") then
      var info := AdditionalInfo(data);
      profile["secondary_email" := Coalesce(info, "secondary_email", Null)]
             ["secondary_phone" := Coalesce(info, "secondary_phone", Null)]
    else profile
  }

  // ---------------------------------------------------------------- nested collections

  /** `$relation->updateOrCreate(['id' => $item['id'] ?? null], $item)`: update the owner's row of that id, else create one. */
  function UpsertItem(t: Table, owner: int, item: Attrs): Table {
    var key := KeyOf(Coalesce(item, "id", Null));
    if key.Some? && Owns(t, owner, key.value) then Update(t, key.value, item)
    else Insert(t, owner, Writable(item))
  }

  /** The `foreach` over one collection, in payload order. */
  function UpsertItems(t: Table, owner: int, items: seq<Attrs>): Table
    decreases |items|
  {
    if |items| == 0 then t
    else UpsertItem(UpsertItems(t, owner, items[..|items| - 1]), owner, items[|items| - 1])
  }

  /** Whether an item names a row the owner had before the loop. */
  predicate Matches(t: Table, owner: int, item: Attrs) {
    KeyOf(Get(item, "id")).Some? && Owns(t, owner, KeyOf(Get(item, "id")).value)
  }

  /** The items that do not name a row of the owner, in payload order: each creates a row. */
  function Unmatched(t: Table, owner: int, items: seq<Attrs>): seq<Attrs>
    decreases |items|
  {
    if |items| == 0 then []
    else
      var last := items[|items| - 1];
      Unmatched(t, owner, items[..|items| - 1]) + if Matches(t, owner, last) then [] else [last]
  }

  /** The upsert loop never deletes, never re-owns, leaves other owners' rows alone and only adds rows of the owner. */
  lemma {:induction false} UpsertItemsShape(t: Table, owner: int, items: seq<Attrs>)
    requires t.Valid()
    ensures var r := UpsertItems(t, owner, items);
      && r.Valid()
      && r.nextId >= t.nextId
      && (forall k :: k in r.rows <==> k in t.rows || t.nextId <= k < r.nextId)
      && (forall k :: k in t.rows ==> r.rows[k].owner == t.rows[k].owner)
      && (forall k :: k in t.rows && t.rows[k].owner != owner ==> r.rows[k] == t.rows[k])
      && (forall k :: k in r.rows && k !in t.rows ==> r.rows[k].owner == owner)
  {
    if |items| > 0 {
      UpsertItemsShape(t, owner, items[..|items| - 1]);
    }
  }

  /** A row the owner had receives every item that names it, in order. */
  lemma {:induction false} UpsertItemsMatched(t: Table, owner: int, items: seq<Attrs>, k: int)
    requires t.Valid() && Owns(t, owner, k)
    ensures var r := UpsertItems(t, owner, items);
      k in r.rows && r.rows[k] == Child(owner, Merged(t.rows[k].attrs, UpdatesFor(items, k)))
  {
    if |items| > 0 {
      var init, last := items[..|items| - 1], items[|items| - 1];
      UpsertItemsMatched(t, owner, init, k);
      UpsertItemsShape(t, owner, init);
      var u := UpdatesFor(init, k);
      if KeyOf(Get(last, "id")) == Some(k) {
        assert (u + [Writable(last)])[..|u|] == u;
      } else {
        assert u + [] == u;
      }
    }
  }

  /**
   * When the payload names only keys handed out before, the loop creates one
   * row per unmatched item, in order: an unknown id, another owner's id, a
   * non-integer id or none at all each yield a new row.
   */
  lemma {:induction false} UpsertItemsCreated(t: Table, owner: int, items: seq<Attrs>)
    requires t.Valid() && IdsBelow(items, t.nextId)
    ensures var r := UpsertItems(t, owner, items);
      && r.nextId == t.nextId + |Unmatched(t, owner, items)|
      && (forall j :: 0 <= j < |Unmatched(t, owner, items)| ==>
            t.nextId + j in r.rows && r.rows[t.nextId + j] == Child(owner, Writable(Unmatched(t, owner, items)[j])))
  {
    if |items| > 0 {
      var init, last := items[..|items| - 1], items[|items| - 1];
      assert IdsBelow(init, t.nextId) by {
        forall i | 0 <= i < |init| ensures init[i] == items[i] { }
      }
      UpsertItemsCreated(t, owner, init);
      UpsertItemsShape(t, owner, init);
      var p := UpsertItems(t, owner, init);
      var n := Unmatched(t, owner, init);
      var key := KeyOf(Coalesce(last, "id", Null));
      assert key == KeyOf(Get(last, "id"));
      if Matches(t, owner, last) {
        assert Unmatched(t, owner, items) == n + [];
        assert Owns(p, owner, key.value);
      } else {
        assert Unmatched(t, owner, items) == n + [last];
        if key.Some? {
          assert key.value < t.nextId;
          assert !Owns(p, owner, key.value);
        }
      }
    }
  }

  /** The upsert loop never loses a row of the owner. */
  lemma UpsertNeverDeletes(t: Table, owner: int, items: seq<Attrs>)
    requires t.Valid()
    ensures Relation(t, owner) <= Relation(UpsertItems(t, owner, items), owner)
  {
    UpsertItemsShape(t, owner, items);
  }

  /** The pairs of payload key and relation method `handleNestedRelations` upserts. */
  const Collections: seq<(string, string)> := [
    ("addresses", "addresses"),
    ("expertises", "expertises"),
    ("language_pairs_rates", "languagePairsRates"),
    ("qualifications", "qualifications"),
    ("references", "references"),
    ("documents", "documents")
  ]

  /** A list of keyed arrays: what the `foreach` and `updateOrCreate` accept. */
  predicate IsItemList(v: Value) {
    v.List? && forall i :: 0 <= i < |v.elems| ==> v.elems[i].Dict?
  }

  /** The items of such a list. */
  function ItemsOf(es: seq<Value>): (r: seq<Attrs>)
    requires forall i :: 0 <= i < |es| ==> es[i].Dict?
    ensures |r| == |es| && forall i :: 0 <= i < |es| ==> r[i] == es[i].entries
    decreases |es|
  {
    if |es| == 0 then [] else ItemsOf(es[..|es| - 1]) + [es[|es| - 1].entries]
  }

  /** A list whose every item carries an integer `translation_tool_id`. */
  predicate IsToolList(v: Value) {
    && v.List?
    && forall i :: 0 <= i < |v.elems| ==>
         v.elems[i].Dict? && "translation_tool_id" in v.elems[i].entries && v.elems[i].entries["translation_tool_id"].Int?
  }

  /**
   * What `handleNestedRelations` needs of the data: every collection it
   * iterates is a list of keyed arrays, every tool it plucks names an id, and
   * the owner has a table for every relation the data reaches.
   */
  predicate NestedDataOk(data: Attrs, children: map<string, Table>) {
    && (forall c :: c in Collections && IsSet(data, c.0) ==> IsItemList(data[c.0]) && c.1 in children)
    && (IsSet(data, "translation_tools") ==> IsToolList(data["translation_tools"]))
  }

  /** One collection block: upsert its items when the key is set. */
  function UpsertIfSet(children: map<string, Table>, owner: int, data: Attrs, c: (string, string)): (r: map<string, Table>)
    requires c in Collections && NestedDataOk(data, children)
    ensures r.Keys == children.Keys
  {
    if IsSet(data, c.0) then
      children[c.1 := UpsertItems(children[c.1], owner, ItemsOf(data[c.0].elems))]
    else children
  }

  /** The first `n` collection blocks, in source order. */
  function NestedPrefix(children: map<string, Table>, owner: int, data: Attrs, n: nat): (r: map<string, Table>)
    requires n <= |Collections| && NestedDataOk(data, children)
    ensures r.Keys == children.Keys
  {
    if n == 0 then children
    else
      var before := NestedPrefix(children, owner, data, n - 1);
      assert NestedDataOk(data, before);
      UpsertIfSet(before, owner, data, Collections[n - 1])
  }

  /** The six collection blocks of `handleNestedRelations`. */
  function NestedChildren(children: map<string, Table>, owner: int, data: Attrs): map<string, Table>
    requires NestedDataOk(data, children)
  {
    NestedPrefix(children, owner, data, |Collections|)
  }

  /** The six blocks write six different relations. */
  lemma CollectionsDistinct()
    ensures forall i, j :: 0 <= i < j < |Collections| ==> Collections[i].1 != Collections[j].1
  {
    assert |Collections[0].1| == 9 && |Collections[1].1| == 10 && |Collections[2].1| == 18;
    assert |Collections[3].1| == 14 && |Collections[4].1| == 10 && |Collections[5].1| == 9;
    assert Collections[0].1[0] != Collections[5].1[0];
    assert Collections[1].1[0] != Collections[4].1[0];
  }

  /** The collection blocks leave alone every relation that no set key writes. */
  lemma {:induction false} NestedPrefixKeeps(children: map<string, Table>, owner: int, data: Attrs, n: nat, m: string)
    requires n <= |Collections| && NestedDataOk(data, children) && m in children
    requires forall i :: 0 <= i < n ==> !IsSet(data, Collections[i].0) || Collections[i].1 != m
    ensures NestedPrefix(children, owner, data, n)[m] == children[m]
  {
    if n > 0 {
      NestedPrefixKeeps(children, owner, data, n - 1, m);
    }
  }

  /** Each relation whose key is set ends up as the upsert of its items into the old table. */
  lemma {:induction false} NestedPrefixWrites(children: map<string, Table>, owner: int, data: Attrs, n: nat, i: nat)
    requires n <= |Collections| && NestedDataOk(data, children)
    requires i < n && IsSet(data, Collections[i].0)
    ensures NestedPrefix(children, owner, data, n)[Collections[i].1] ==
      UpsertItems(children[Collections[i].1], owner, ItemsOf(data[Collections[i].0].elems))
  {
    CollectionsDistinct();
    if i < n - 1 {
      NestedPrefixWrites(children, owner, data, n - 1, i);
      assert Collections[i].1 != Collections[n - 1].1;
    } else {
      NestedPrefixKeeps(children, owner, data, n - 1, Collections[i].1);
    }
  }

  /** The collection blocks keep every table valid. */
  lemma NestedChildrenValid(children: map<string, Table>, owner: int, data: Attrs)
    requires NestedDataOk(data, children)
    requires forall m :: m in children ==> children[m].Valid()
    ensures var r := NestedChildren(children, owner, data);
      forall m :: m in r ==> r[m].Valid()
  {
    var r := NestedChildren(children, owner, data);
    forall m | m in r
      ensures r[m].Valid()
    {
      if i :| 0 <= i < |Collections| && IsSet(data, Collections[i].0) && Collections[i].1 == m {
        NestedPrefixWrites(children, owner, data, |Collections|, i);
        UpsertItemsShape(children[m], owner, ItemsOf(data[Collections[i].0].elems));
      } else {
        NestedPrefixKeeps(children, owner, data, |Collections|, m);
      }
    }
  }

  /** The translation tools a list names. */
  function ToolIds(v: Value): set<int>
    requires IsToolList(v)
  {
    set i | 0 <= i < |v.elems| :: v.elems[i].entries["translation_tool_id"].i
  }

  /** The translation-tool pivot after `handleNestedRelations`: replaced by the listed ids when the key is set. */
  function ToolsAfter(tools: set<int>, data: Attrs): (r: set<int>)
    requires IsSet(data, "translation_tools") ==> IsToolList(data["translation_tools"])
    ensures IsSet(data, "translation_tools") ==>
      forall id :: id in r <==>
        (exists i :: 0 <= i < |data["translation_tools"].elems| && data["translation_tools"].elems[i].entries["translation_tool_id"] == Int(id))
    ensures !IsSet(data, "translation_tools") ==> r == tools
  {
    if IsSet(data, "translation_tools") then ToolIds(data["translation_tools"]) else tools
  }

  // ---------------------------------------------------------------- the service object

  /** A `ProfileService` wrapped around one profile: its attributes, its child tables and its translation-tool pivot. */
  class ProfileService {
    const profileId: int
    var profile: Attrs
    var children: map<string, Table>
    var translationTools: set<int>

    predicate Valid()
      reads this
    {
      forall m :: m in children ==> children[m].Valid()
    }

    /** `new self($profile)`. */
    constructor (profileId: int, profile: Attrs, children: map<string, Table>, translationTools: set<int>)
      ensures this.profileId == profileId && this.profile == profile
      ensures this.children == children && this.translationTools == translationTools
    {
      this.profileId := profileId;
      this.profile := profile;
      this.children := children;
      this.translationTools := translationTools;
    }

    /** `ProfileService::create($data)`, given the id the new row receives and the owner it belongs to. */
    static method Create(profileId: int, userId: int, data: Attrs, children: map<string, Table>)
      returns (r: Result<ProfileService, ServiceError>)
      requires NestedDataOk(data, children) && forall m :: m in children ==> children[m].Valid()
      ensures r.Failure? <==> CreateProfile(userId, data).Failure?
      ensures r.Failure? ==> r.error == CreateProfile(userId, data).error
      ensures r.Success? ==> fresh(r.value) && r.value.Valid() && r.value.profileId == profileId
      ensures r.Success? ==> r.value.profile == WithAdditionalInfo(CreateProfile(userId, data).value, data)
      ensures r.Success? ==> r.value.children == NestedChildren(children, profileId, data)
      ensures r.Success? ==> r.value.translationTools == ToolsAfter({}, data)
    {
      var created := CreateProfile(userId, data);
      if created.Failure? {
        return Failure(created.error);
      }
      var service := new ProfileService(profileId, created.value, children, {});
      service.HandleNestedRelations(data);
      return Success(service);
    }

    /** `ProfileService::update($profile, $data)`. */
    method Update(data: Attrs)
      requires Valid() && NestedDataOk(data, children)
      modifies this
      ensures Valid()
      ensures profile == WithAdditionalInfo(ScalarUpdate(old(profile), data), data)
      ensures children == NestedChildren(old(children), profileId, data)
      ensures translationTools == ToolsAfter(old(translationTools), data)
    {
      profile := ScalarUpdate(profile, data);
      HandleNestedRelations(data);
    }

    /** `handleNestedRelations($data)`. */
    method HandleNestedRelations(data: Attrs)
      requires Valid() && NestedDataOk(data, children)
      modifies this
      ensures Valid()
      ensures profile == WithAdditionalInfo(old(profile), data)
      ensures children == NestedChildren(old(children), profileId, data)
      ensures translationTools == ToolsAfter(old(translationTools), data)
    {
      SaveAdditionalInfo(data);
      ghost var start := children;
      UpsertCollection(data, 0, start);
      UpsertCollection(data, 1, start);
      if IsSet(data, "translation_tools") {
        translationTools := ToolIds(data["translation_tools"]);
      }
      UpsertCollection(data, 2, start);
      UpsertCollection(data, 3, start);
      UpsertCollection(data, 4, start);
      UpsertCollection(data, 5, start);
    }

    /** The `additional_info` block of `handleNestedRelations`, as intended. */
    method SaveAdditionalInfo(data: Attrs)
      modifies this`profile
      ensures profile == WithAdditionalInfo(old(profile), data)
    {
      if IsSet(data, "additional_info") {
        var info := AdditionalInfo(data);
        profile := profile["secondary_email" := Coalesce(info, "secondary_email", Null)]
                          ["secondary_phone" := Coalesce(info, "secondary_phone", Null)];
      }
    }

    /** Collection block `n` of `handleNestedRelations`, after the blocks before it. */
    method UpsertCollection(data: Attrs, n: nat, ghost start: map<string, Table>)
      requires n < |Collections| && NestedDataOk(data, start)
      requires Valid() && children == NestedPrefix(start, profileId, data, n)
      modifies this`children
      ensures Valid() && children == NestedPrefix(start, profileId, data, n + 1)
    {
      var c := Collections[n];
      assert NestedDataOk(data, children);
      if IsSet(data, c.0) {
        UpsertItemsShape(children[c.1], profileId, ItemsOf(data[c.0].elems));
        UpsertRelation(c.1, ItemsOf(data[c.0].elems));
      }
    }

    /** The `foreach` of `updateOrCreate` calls over one relation. */
    method UpsertRelation(relation: string, items: seq<Attrs>)
      requires Valid() && relation in children
      modifies this`children
      ensures Valid()
      ensures children == old(children)[relation := UpsertItems(old(children)[relation], profileId, items)]
    {
      var table := children[relation];
      UpsertItemsShape(table, profileId, items);
      ghost var start := table;
      var i := 0;
      while i < |items|
        invariant 0 <= i <= |items|
        invariant table == UpsertItems(start, profileId, items[..i])
      {
        var item := items[i];
        var key := KeyOf(Coalesce(item, "id", Null));
        if key.Some? && key.value in table.rows && table.rows[key.value].owner == profileId {
          var row := table.rows[key.value];
          table := table.(rows := table.rows[key.value := row.(attrs := row.attrs + Writable(item))]);
        } else {
          table := Table(table.rows[table.nextId := Child(profileId, Writable(item))], table.nextId + 1);
        }
        assert items[..i + 1][..i] == items[..i];
        i := i + 1;
      }
      assert items[..|items|] == items;
      children := children[relation := table];
    }
  }
}
