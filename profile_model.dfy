/**
 * The `Profile` model: its mass-assignable attributes and the `isComplete`
 * check that decides whether a linguist still has to fill in the profile.
 */
module ProfileModel {
  import opened PhpValues

  /** `Profile::$fillable`: the only attributes `fill`, `create` and `update` may set. */
  const Fillable: set<string> := {
    "user_id", "is_individual", "first_name", "last_name", "company_name", "phone_number",
    "date_of_birth", "preferred_currency_id", "is_translator", "is_interpreter", "avatar"
  }

  /** `$profile->fill($data)`: fillable keys of `data` overwrite, every other key is silently discarded. */
  function Fill(attrs: Attrs, data: Attrs): Attrs {
    attrs + map k | k in data && k in Fillable :: data[k]
  }

  /** Mass assignment sets exactly the fillable keys the data carries and leaves every other attribute as it was. */
  lemma FillSetsOnlyFillable(attrs: Attrs, data: Attrs)
    ensures forall k :: k in data && k in Fillable ==> Get(Fill(attrs, data), k) == data[k]
    ensures forall k :: !(k in data && k in Fillable) ==> Get(Fill(attrs, data), k) == Get(attrs, k)
  {
  }

  /** Eleven attributes are fillable; the secondary contact columns are not among them. */
  lemma FillableAttributes()
    ensures |Fillable| == 11
    ensures "secondary_email" !in Fillable && "secondary_phone" !in Fillable
  {
  }

  /** A profile as `isComplete` sees it: its attributes, whether its address exists, and how many languages it has. */
  datatype ProfileView = ProfileView(attrs: Attrs, hasAddress: bool, languageCount: nat)

  /** `Profile::isComplete`, clause by clause in source order. */
  predicate IsComplete(p: ProfileView) {
    && Truthy(Get(p.attrs, "is_individual"))
    && Truthy(Get(p.attrs, "first_name"))
    && Truthy(Get(p.attrs, "last_name"))
    && Truthy(Get(p.attrs, "date_of_birth"))
    && Truthy(Get(p.attrs, "phone_number"))
    && Truthy(Get(p.attrs, "preferred_currency_id"))
    && p.hasAddress
    && p.languageCount > 0
    && Truthy(Get(p.attrs, "is_translator"))
    && Truthy(Get(p.attrs, "is_interpreter"))
    && p.languageCount >= 1
  }

  /** The attributes a complete profile must hold truthy values for. */
  const CompletionFields: set<string> := {
    "is_individual", "first_name", "last_name", "date_of_birth", "phone_number",
    "preferred_currency_id", "is_translator", "is_interpreter"
  }

  /** A profile is complete exactly when every completion field is truthy, its address exists and it has a language. */
  lemma IsCompleteIffFieldsFilled(p: ProfileView)
    ensures IsComplete(p) <==>
      (forall f :: f in CompletionFields ==> Truthy(Get(p.attrs, f))) && p.hasAddress && p.languageCount >= 1
  {
    if (forall f :: f in CompletionFields ==> Truthy(Get(p.attrs, f))) && p.hasAddress && p.languageCount >= 1 {
      assert "is_individual" in CompletionFields && "first_name" in CompletionFields;
      assert "last_name" in CompletionFields && "date_of_birth" in CompletionFields;
      assert "phone_number" in CompletionFields && "preferred_currency_id" in CompletionFields;
      assert "is_translator" in CompletionFields && "is_interpreter" in CompletionFields;
    }
  }

  /**
   * `is_individual` must be truthy, so a company profile is never complete:
   * false as submitted, 0 as read back from the uncast column, or never answered.
   */
  lemma CompanyProfileNeverComplete(p: ProfileView)
    requires !Truthy(Get(p.attrs, "is_individual"))
    ensures !IsComplete(p)
  {
  }

  /** A complete profile offers both translation and interpreting, has an address and at least one language. */
  lemma CompleteProfileOffersBothServices(p: ProfileView)
    requires IsComplete(p)
    ensures Truthy(Get(p.attrs, "is_translator"))
    ensures Truthy(Get(p.attrs, "is_interpreter")) && p.hasAddress && p.languageCount >= 1
  {
  }
}
