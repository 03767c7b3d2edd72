/**
 * `UpdateProfileRequest`: who may update a profile, and which payloads the
 * validation rules accept, with the validator's own semantics written out
 * (implicit rules, optional and nullable fields, the `*` wildcard, and the
 * `validated()` subset the controller receives).
 */
module ProfileRequest {
  import opened Wrappers
  import opened PhpValues

  // ---------------------------------------------------------------- authorize

  datatype AuthError = NoSignedInUser

  /**
   * `authorize()`: `user` is the signed-in user's id and `profile` that
   * user's profile, if it has one. Loading the profile of a missing user
   * throws before any check.
   */
  function Authorize(user: Option<int>, profile: Option<Attrs>): (r: Result<bool, AuthError>)
    ensures r.Failure? <==> user.None?
    ensures r == Success(false) <==> user.Some? && profile.Some? && Get(profile.value, "user_id") != Int(user.value)
  {
    match user
    case None => Failure(NoSignedInUser)
    case Some(id) =>
      if profile.Some? then Success(Get(profile.value, "user_id") == Int(id))
      else Success(true)
  }

  /** A signed-in user without a profile, or with a profile whose owner is that user, is authorised. */
  lemma OwnerIsAuthorized(user: int, profile: Option<Attrs>)
    requires profile.Some? ==> Get(profile.value, "user_id") == Int(user)
    ensures Authorize(Some(user), profile) == Success(true)
  {
  }

  // ---------------------------------------------------------------- rules

  /** The validation rules the request uses. */
  datatype Rule =
    | Required                                // required
    | RequiredIf(other: string, value: bool)  // required_if:other,true|false on a boolean field
    | RequiredWith(other: string)             // required_with:other
    | Nullable                                // nullable
    | IsString                                // string
    | Max(n: nat)                             // max:n
    | Min(n: nat)                             // min:n
    | IsBoolean                               // boolean
    | IsDate                                  // date
    | IsArray                                 // array
    | IsInteger                               // integer
    | Exists(ids: set<int>)                   // exists:table,id, given the table's ids

  /** The rules that run even when the field is missing, null or blank. */
  predicate Implicit(r: Rule) {
    r.Required? || r.RequiredIf? || r.RequiredWith?
  }

  /** The rules of one field, addressed by its dotted path. */
  datatype FieldRules = FieldRules(path: seq<string>, rules: seq<Rule>)

  /** `rules()`, given the ids of the `currencies` and `languages` tables; the `native_languages.*` wildcard is `ElementsPass`. */
  function RuleTable(currencies: set<int>, languages: set<int>): seq<FieldRules> {
    [ FieldRules(["first_name"], [Required, IsString, Max(255)]),
      FieldRules(["last_name"], [Required, IsString, Max(255)]),
      FieldRules(["company_name"], [Nullable, RequiredIf("is_individual", false), IsString, Max(255)]),
      FieldRules(["phone_number"], [Required, IsString, Max(20)]),
      FieldRules(["date_of_birth"], [Nullable, RequiredIf("is_individual", true), IsDate]),
      FieldRules(["is_individual"], [IsBoolean]),
      FieldRules(["is_translator"], [IsBoolean]),
      FieldRules(["is_interpreter"], [IsBoolean]),
      FieldRules(["avatar"], [Nullable, IsString]),
      FieldRules(["preferred_currency_id"], [Nullable, RequiredWith("is_individual"), Exists(currencies)]),
      FieldRules(["native_languages"], [RequiredWith("is_individual"), IsArray, Min(1), Max(2)]),
      FieldRules(["address"], [Required, IsArray]),
      FieldRules(["address", "address_line_1"], [Required, IsString, Max(255)]),
      FieldRules(["address", "address_line_2"], [Nullable, IsString, Max(255)]),
      FieldRules(["address", "city"], [Required, IsString, Max(100)]),
      FieldRules(["address", "state"], [Required, IsString, Max(100)]),
      FieldRules(["address", "postal_code"], [Required, IsString, Max(20)]),
      FieldRules(["address", "country"], [Required, IsString]),
      FieldRules(["address", "type"], [Nullable, IsString, Max(50)]) ]
  }

  /** `data_get` on a dotted path: the value there, or nothing when a step is missing or not an array. */
  function Lookup(input: Attrs, path: seq<string>): Option<Value>
    decreases |path|
  {
    if |path| == 0 || path[0] !in input then None
    else if |path| == 1 then Some(input[path[0]])
    else match input[path[0]]
      case Dict(m) => Lookup(m, path[1..])
      case _ => None
  }

  /** `validateRequired`: not null, not a blank string, not an empty array. */
  predicate Filled(v: Value) {
    match v
    case Null => false
    case Str(s) => !Blank(s)
    case List(es) => |es| > 0
    case Dict(m) => |m| > 0
    case _ => true
  }

  /** The size `min` and `max` compare: a string's length, an array's element count. */
  function Size(v: Value): int {
    match v
    case Str(s) => |s|
    case List(es) => |es|
    case Dict(m) => |m|
    case _ => 0
  }

  /** `required_if` on a boolean field compares loosely with a bool; a null or missing field never matches. */
  predicate OtherIs(other: Value, value: bool) {
    other != Null && Truthy(other) == value
  }

  /** `boolean`: exactly true, false, 0, 1, "0" or "1". */
  predicate IsBooleanValue(v: Value) {
    v == Bool(true) || v == Bool(false) || v == Int(0) || v == Int(1) || v == Str("0") || v == Str("1")
  }

  predicate IsDigit(c: char) {
    '0' <= c <= '9'
  }

  function DigitValue(c: char): int {
    c as int - '0' as int
  }

  predicate IsLeapYear(y: int) {
    (y % 4 == 0 && y % 100 != 0) || y % 400 == 0
  }

  /** The number of days in a month of the Gregorian calendar. */
  function DaysInMonth(y: int, m: int): int
    requires 1 <= m <= 12
  {
    if m == 2 then (if IsLeapYear(y) then 29 else 28)
    else if m == 4 || m == 6 || m == 9 || m == 11 then 30
    else 31
  }

  /** `date`, on strings of the form `YYYY-MM-DD` naming a day that exists. */
  predicate IsIsoDate(s: string) {
    && |s| == 10 && s[4] == '-' && s[7] == '-'
    && (forall i :: 0 <= i < 10 && i != 4 && i != 7 ==> IsDigit(s[i]))
    && var year := 1000 * DigitValue(s[0]) + 100 * DigitValue(s[1]) + 10 * DigitValue(s[2]) + DigitValue(s[3]);
       var month := 10 * DigitValue(s[5]) + DigitValue(s[6]);
       var day := 10 * DigitValue(s[8]) + DigitValue(s[9]);
       1 <= month <= 12 && 1 <= day <= DaysInMonth(year, month)
  }

  /** Whether value `v` of a field passes rule `r`; `input` is the whole payload, for the rules that look at another field. */
  predicate RulePasses(r: Rule, v: Value, input: Attrs) {
    match r
    case Required => Filled(v)
    case RequiredIf(other, value) => !OtherIs(Lookup(input, [other]).GetOr(Null), value) || Filled(v)
    case RequiredWith(other) => !Filled(Lookup(input, [other]).GetOr(Null)) || Filled(v)
    case Nullable => true
    case IsString => v.Str?
    case Max(n) => Size(v) <= n
    case Min(n) => Size(v) >= n
    case IsBoolean => IsBooleanValue(v)
    case IsDate => v.Str? && IsIsoDate(v.s)
    case IsArray => v.List? || v.Dict?
    case IsInteger => v.Int?
    case Exists(ids) => v.Int? && v.i in ids
  }

  /**
   * `isValidatable`: a blank string is checked by implicit rules only; a
   * missing field likewise; a null in a nullable field is checked by implicit
   * rules only.
   */
  predicate Checked(r: Rule, present: bool, v: Value, nullable: bool) {
    if v.Str? && Blank(v.s) then Implicit(r)
    else (present || Implicit(r)) && (Implicit(r) || !nullable || v != Null)
  }

  /** Every rule of a field that is checked passes. */
  predicate FieldPasses(input: Attrs, f: FieldRules) {
    var found := Lookup(input, f.path);
    var v := found.GetOr(Null);
    forall j :: 0 <= j < |f.rules| ==>
      Checked(f.rules[j], found.Some?, v, Nullable in f.rules) ==> RulePasses(f.rules[j], v, input)
  }

  /** `native_languages.*`: `integer|exists:languages,id` on each element; blank strings are skipped like any optional field. */
  predicate ElementPasses(e: Value, languages: set<int>) {
    (e.Str? && Blank(e.s)) || (e.Int? && e.i in languages)
  }

  /** The wildcard applies to the elements of a list or the values of a keyed array, and to nothing else. */
  predicate ElementsPass(v: Value, languages: set<int>) {
    match v
    case List(es) => forall i :: 0 <= i < |es| ==> ElementPasses(es[i], languages)
    case Dict(m) => forall k :: k in m ==> ElementPasses(m[k], languages)
    case _ => true
  }

  /** The request passes validation. */
  predicate Passes(input: Attrs, currencies: set<int>, languages: set<int>) {
    var table := RuleTable(currencies, languages);
    && (forall i :: 0 <= i < |table| ==> FieldPasses(input, table[i]))
    && ElementsPass(Get(input, "native_languages"), languages)
  }

  // ---------------------------------------------------------------- validated()

  /** The top-level keys `rules()` names. */
  const RuleKeys: set<string> := {
    "first_name", "last_name", "company_name", "phone_number", "date_of_birth", "is_individual",
    "is_translator", "is_interpreter", "avatar", "preferred_currency_id", "native_languages", "address"
  }

  /** The keys of `address` that `rules()` names. */
  const AddressKeys: set<string> := {
    "address_line_1", "address_line_2", "city", "state", "postal_code", "country", "type"
  }

  /**
   * `validated()`: the ruled keys the payload carries. A non-null `address`
   * has rules of its own keys, so only those are kept, and the address is
   * left out when none of them is there.
   */
  function Validated(input: Attrs): Attrs {
    var top := map k | k in input && k in RuleKeys && k != "address" :: input[k];
    if "address" !in input then top
    else match input["address"]
      case Null => top["address" := Null]
      case Dict(m) =>
        var sub := map a | a in m && a in AddressKeys :: m[a];
        if sub == map[] then top else top["address" := Dict(sub)]
      case _ => top
  }

  /** The integer ids among the submitted native languages. */
  function LanguageIds(v: Value): set<int> {
    match v
    case List(es) => set i | 0 <= i < |es| && es[i].Int? :: es[i].i
    case Dict(m) => set k | k in m && m[k].Int? :: m[k].i
    case _ => {}
  }

  /** What the controller may rely on in validated data. */
  predicate ValidatedShape(v: Attrs) {
    && v.Keys <= RuleKeys
    && "address" in v && v["address"].Dict?
    && v["address"].entries.Keys <= AddressKeys
    && (forall a :: a in {"address_line_1", "city", "state", "postal_code", "country"} ==>
          a in v["address"].entries && v["address"].entries[a].Str?)
    && ("native_languages" in v ==> v["native_languages"].List? || v["native_languages"].Dict?)
  }

  // ---------------------------------------------------------------- properties

  /** A field whose required rule fails sinks the whole request. */
  lemma FieldFails(input: Attrs, currencies: set<int>, languages: set<int>, i: nat, j: nat)
    requires i < |RuleTable(currencies, languages)|
    requires var f := RuleTable(currencies, languages)[i];
      var found := Lookup(input, f.path);
      j < |f.rules| &&
      Checked(f.rules[j], found.Some?, found.GetOr(Null), Nullable in f.rules) &&
      !RulePasses(f.rules[j], found.GetOr(Null), input)
    ensures !Passes(input, currencies, languages)
  {
    assert !FieldPasses(input, RuleTable(currencies, languages)[i]);
  }

  /** An accepted payload carries a non-blank string of at most 255 characters as first and last name. */
  lemma AcceptedNames(input: Attrs, currencies: set<int>, languages: set<int>)
    requires Passes(input, currencies, languages)
    ensures "first_name" in input && input["first_name"].Str? && !Blank(input["first_name"].s) && |input["first_name"].s| <= 255
    ensures "last_name" in input && input["last_name"].Str? && !Blank(input["last_name"].s) && |input["last_name"].s| <= 255
  {
    var table := RuleTable(currencies, languages);
    assert FieldPasses(input, table[0]) && FieldPasses(input, table[1]);
    var f0 := table[0].rules;
    assert f0[0] == Required && f0[1] == IsString && f0[2] == Max(255);
    var f1 := table[1].rules;
    assert f1[0] == Required && f1[1] == IsString && f1[2] == Max(255);
  }

  /** A null `is_individual` is rejected: `boolean` is checked on a present null when the field is not nullable. */
  lemma NullIndividualFlagRejected(input: Attrs, currencies: set<int>, languages: set<int>)
    requires "is_individual" in input && input["is_individual"] == Null
    ensures !Passes(input, currencies, languages)
  {
    FieldFails(input, currencies, languages, 5, 0);
  }

  /**
   * Submitted native languages are an array of one or two entries, except a
   * blank string, which the array and size rules skip and which only
   * `required_with` refuses, when `is_individual` is filled.
   */
  lemma AcceptedLanguageCount(input: Attrs, currencies: set<int>, languages: set<int>)
    requires Passes(input, currencies, languages) && "native_languages" in input
    ensures var v := input["native_languages"];
      || ((v.List? || v.Dict?) && 1 <= Size(v) <= 2)
      || (v.Str? && Blank(v.s) && !Filled(Get(input, "is_individual")))
  {
    var table := RuleTable(currencies, languages);
    assert FieldPasses(input, table[10]);
    var rs := table[10].rules;
    assert rs[0] == RequiredWith("is_individual") && rs[1] == IsArray && rs[2] == Min(1) && rs[3] == Max(2);
    var v := input["native_languages"];
    if v.Str? && Blank(v.s) {
      assert Checked(rs[0], true, v, false);
      assert !Filled(v);
    } else {
      assert Checked(rs[1], true, v, false) && Checked(rs[2], true, v, false) && Checked(rs[3], true, v, false);
    }
  }

  /** Three or more native languages are refused. */
  lemma TooManyLanguagesRejected(input: Attrs, currencies: set<int>, languages: set<int>)
    requires "native_languages" in input && input["native_languages"].List? && |input["native_languages"].elems| > 2
    ensures !Passes(input, currencies, languages)
  {
    FieldFails(input, currencies, languages, 10, 3);
  }

  /** A blank first name, or none at all, is refused. */
  lemma BlankFirstNameRejected(input: Attrs, currencies: set<int>, languages: set<int>)
    requires !Filled(Get(input, "first_name"))
    ensures !Passes(input, currencies, languages)
  {
    FieldFails(input, currencies, languages, 0, 0);
  }

  /** A company (`is_individual` false, 0, "0" or "") must name itself. */
  lemma CompanyNameRequiredForCompanies(input: Attrs, currencies: set<int>, languages: set<int>)
    requires "is_individual" in input && OtherIs(input["is_individual"], false)
    requires !Filled(Get(input, "company_name"))
    ensures !Passes(input, currencies, languages)
  {
    FieldFails(input, currencies, languages, 2, 1);
  }

  /** An individual must give a date of birth. */
  lemma DateOfBirthRequiredForIndividuals(input: Attrs, currencies: set<int>, languages: set<int>)
    requires "is_individual" in input && OtherIs(input["is_individual"], true)
    requires !Filled(Get(input, "date_of_birth"))
    ensures !Passes(input, currencies, languages)
  {
    FieldFails(input, currencies, languages, 4, 1);
  }

  /** Once `is_individual` is answered either way, a currency and the native languages are required. */
  lemma AnsweredFlagRequiresCurrencyAndLanguages(input: Attrs, currencies: set<int>, languages: set<int>)
    requires Passes(input, currencies, languages) && Filled(Get(input, "is_individual"))
    ensures "preferred_currency_id" in input && input["preferred_currency_id"].Int? && input["preferred_currency_id"].i in currencies
    ensures "native_languages" in input && Filled(input["native_languages"])
  {
    var table := RuleTable(currencies, languages);
    assert FieldPasses(input, table[9]) && FieldPasses(input, table[10]);
    var rc := table[9].rules;
    assert rc[0] == Nullable && rc[1] == RequiredWith("is_individual") && rc[2] == Exists(currencies);
    var rl := table[10].rules;
    assert rl[0] == RequiredWith("is_individual");
    assert Lookup(input, ["is_individual"]).GetOr(Null) == Get(input, "is_individual");
    assert RulePasses(rc[1], Lookup(input, table[9].path).GetOr(Null), input);
    assert Checked(rc[2], true, input["preferred_currency_id"], true);
  }

  /** An accepted payload carries an address with the five required lines as strings. */
  lemma AcceptedAddress(input: Attrs, currencies: set<int>, languages: set<int>)
    requires Passes(input, currencies, languages)
    ensures "address" in input && input["address"].Dict?
    ensures forall a :: a in {"address_line_1", "city", "state", "postal_code", "country"} ==>
      a in input["address"].entries && input["address"].entries[a].Str?
  {
    var table := RuleTable(currencies, languages);
    AddressLine(input, table, 12, "address_line_1");
    AddressLine(input, table, 14, "city");
    AddressLine(input, table, 15, "state");
    AddressLine(input, table, 16, "postal_code");
    AddressLine(input, table, 17, "country");
  }

  /** One `required|string` address line. */
  lemma AddressLine(input: Attrs, table: seq<FieldRules>, i: nat, a: string)
    requires i < |table| && FieldPasses(input, table[i])
    requires table[i].path == ["address", a] && |table[i].rules| >= 2
    requires table[i].rules[0] == Required && table[i].rules[1] == IsString
    ensures "address" in input && input["address"].Dict?
    ensures a in input["address"].entries && input["address"].entries[a].Str?
  {
    var rs := table[i].rules;
    var found := Lookup(input, table[i].path);
    assert Checked(rs[0], found.Some?, found.GetOr(Null), Nullable in rs);
    assert found.Some?;
    assert Lookup(input, ["address", a]) == Lookup(input["address"].entries, [a]);
  }

  /** What an accepted payload hands the controller has the shape the controller relies on. */
  lemma AcceptedShape(input: Attrs, currencies: set<int>, languages: set<int>)
    requires Passes(input, currencies, languages)
    requires "native_languages" in input ==> input["native_languages"].List? || input["native_languages"].Dict?
    ensures ValidatedShape(Validated(input))
  {
    AcceptedAddress(input, currencies, languages);
    var m := input["address"].entries;
    var sub := map a | a in m && a in AddressKeys :: m[a];
    assert "address_line_1" in sub;
    assert sub != map[];
    var top := map k | k in input && k in RuleKeys && k != "address" :: input[k];
    assert Validated(input) == top["address" := Dict(sub)];
  }

  /** The payload of an individual translator filled in the way the profile form sends it. */
  function ExamplePayload(currency: int, language1: int, language2: int): Attrs {
    map[
      "first_name" := Str("Braxton"),
      "last_name" := Str("Cartwright"),
      "company_name" := Str("Braxton Inc."),
      "phone_number" := Str("+1 (831) 774-8192"),
      "date_of_birth" := Str("1980-09-09"),
      "is_individual" := Bool(true),
      "is_translator" := Bool(true),
      "is_interpreter" := Bool(false),
      "preferred_currency_id" := Int(currency),
      "native_languages" := List([Int(language1), Int(language2)]),
      "address" := Dict(map[
        "address_line_1" := Str("5678 Oak St"),
        "city" := Str("Shelbyville"),
        "state" := Str("IL"),
        "postal_code" := Str("62705"),
        "country" := Str("USA")])]
  }

  /** A non-blank string of bounded length passes `required|string|max:n`, with or without `nullable` in front. */
  lemma StringFieldPasses(input: Attrs, f: FieldRules, n: nat)
    requires f.rules == [Required, IsString, Max(n)] || f.rules == [Nullable, IsString, Max(n)]
    requires Lookup(input, f.path).Some? && Lookup(input, f.path).value.Str?
    requires var s := Lookup(input, f.path).value.s; 0 < |s| <= n && !IsTrimmed(s[0])
    ensures FieldPasses(input, f)
  {
  }

  /** That payload is accepted whenever the currency and both languages exist. */
  lemma ExamplePayloadAccepted(currency: int, language1: int, language2: int, currencies: set<int>, languages: set<int>)
    requires currency in currencies && language1 in languages && language2 in languages
    ensures Passes(ExamplePayload(currency, language1, language2), currencies, languages)
  {
    var input := ExamplePayload(currency, language1, language2);
    var table := RuleTable(currencies, languages);
    forall i | 0 <= i < |table|
      ensures FieldPasses(input, table[i])
    {
      if i < 4 {
        ExamplePersonalField(i, currency, language1, language2, currencies, languages);
      } else if i == 4 {
        ExampleDateField(currency, language1, language2, currencies, languages);
      } else if i < 9 {
        ExampleFlagField(i, currency, language1, language2, currencies, languages);
      } else if i < 12 {
        ExampleReferenceField(i, currency, language1, language2, currencies, languages);
      } else {
        ExampleAddressField(i, currency, language1, language2, currencies, languages);
      }
    }
  }

  lemma ExamplePersonalField(i: nat, currency: int, language1: int, language2: int, currencies: set<int>, languages: set<int>)
    requires i < 4
    ensures FieldPasses(ExamplePayload(currency, language1, language2), RuleTable(currencies, languages)[i])
  {
    var input := ExamplePayload(currency, language1, language2);
    var table := RuleTable(currencies, languages);
    if i == 0 {
      StringFieldPasses(input, table[0], 255);
    } else if i == 1 {
      StringFieldPasses(input, table[1], 255);
    } else if i == 2 {
      assert !IsTrimmed(input["company_name"].s[0]);
    } else {
      StringFieldPasses(input, table[3], 20);
    }
  }

  lemma ExampleDateField(currency: int, language1: int, language2: int, currencies: set<int>, languages: set<int>)
    ensures FieldPasses(ExamplePayload(currency, language1, language2), RuleTable(currencies, languages)[4])
  {
    assert IsIsoDate("1980-09-09");
  }

  lemma ExampleFlagField(i: nat, currency: int, language1: int, language2: int, currencies: set<int>, languages: set<int>)
    requires 5 <= i < 9
    ensures FieldPasses(ExamplePayload(currency, language1, language2), RuleTable(currencies, languages)[i])
  {
  }

  lemma ExampleReferenceField(i: nat, currency: int, language1: int, language2: int, currencies: set<int>, languages: set<int>)
    requires 9 <= i < 12
    requires currency in currencies && language1 in languages && language2 in languages
    ensures FieldPasses(ExamplePayload(currency, language1, language2), RuleTable(currencies, languages)[i])
  {
  }

  lemma ExampleAddressField(i: nat, currency: int, language1: int, language2: int, currencies: set<int>, languages: set<int>)
    requires 12 <= i < 19
    ensures FieldPasses(ExamplePayload(currency, language1, language2), RuleTable(currencies, languages)[i])
  {
    var input := ExamplePayload(currency, language1, language2);
    var address := input["address"].entries;
    var table := RuleTable(currencies, languages);
    if i == 12 {
      assert Lookup(input, ["address", "address_line_1"]) == Some(address["address_line_1"]);
      StringFieldPasses(input, table[12], 255);
    } else if i == 14 {
      assert Lookup(input, ["address", "city"]) == Some(address["city"]);
      StringFieldPasses(input, table[14], 100);
    } else if i == 15 {
      assert Lookup(input, ["address", "state"]) == Some(address["state"]);
      StringFieldPasses(input, table[15], 100);
    } else if i == 16 {
      assert Lookup(input, ["address", "postal_code"]) == Some(address["postal_code"]);
      StringFieldPasses(input, table[16], 20);
    } else if i == 17 {
      assert Lookup(input, ["address", "country"]) == Some(address["country"]);
      assert !IsTrimmed(address["country"].s[0]);
    }
  }
}
