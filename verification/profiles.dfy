/** The application's user profile (one per signed-in identity) and the
    admin activity log entry; both are read by several controllers. */
module Profiles {

  import opened Common
  import opened Clock

  /** A `UserProfile` row. Its string properties may be null. */
  datatype UserProfile = UserProfile(
    id: int,
    userId: NullableString,
    firstName: NullableString,
    lastName: NullableString,
    phoneNumber: NullableString,
    email: NullableString,
    role: NullableString)

  /** The signed-in caller as a controller sees it: the identity name (null
      when absent), the profile row found for the identity (if any) and
      whether the identity is in the Admin role. */
  datatype Caller = Caller(identityName: NullableString, profile: Option<UserProfile>, isAdmin: bool)

  /** An `AdminActivity` log row. */
  datatype AdminActivity = AdminActivity(action: string, description: string, adminUser: string, createdDate: DateTime)
}
