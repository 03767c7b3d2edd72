/** The `User` model's check whether the profile-completion prompt is due. */
module UserModel {
  import opened Wrappers
  import opened PhpValues
  import opened Roles
  import opened ProfileModel

  /** A user: the account with its roles, and the profile it has, if any. */
  datatype User = User(account: AuthUser, profile: Option<ProfileView>)

  /** `User::shouldCompleteProfile`. */
  predicate ShouldCompleteProfile(u: User) {
    HasRole(u.account, "linguist") && (u.profile.None? || !IsComplete(u.profile.value))
  }

  /** Only linguists are ever prompted. */
  lemma OnlyLinguistsArePrompted(u: User)
    requires !HasRole(u.account, "linguist")
    ensures !ShouldCompleteProfile(u)
  {
  }

  /** A linguist is prompted exactly when there is no complete profile. */
  lemma LinguistPromptedUnlessComplete(u: User)
    requires HasRole(u.account, "linguist")
    ensures ShouldCompleteProfile(u) <==> !(u.profile.Some? && IsComplete(u.profile.value))
  {
  }

  /** A linguist registered as a company (`is_individual` false, 0 or unanswered) is prompted forever, whatever else the profile holds. */
  lemma CompanyLinguistAlwaysPrompted(u: User)
    requires HasRole(u.account, "linguist") && u.profile.Some?
    requires !Truthy(Get(u.profile.value.attrs, "is_individual"))
    ensures ShouldCompleteProfile(u)
  {
    CompanyProfileNeverComplete(u.profile.value);
  }
}
