/** The signed-in user as the stores read it from the auth store; the
    auth store itself is not part of this model, so every operation that
    consults it takes an `Option<User>` (None when logged out). */
module Session {
  import opened Wrappers

  datatype User = User(uid: string, email: string, displayName: Option<string>)

  const NotAuthenticated: string := "User not authenticated"
}
