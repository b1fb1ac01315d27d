/** The backend's request-body rule chains. Each chain first applies its
    sanitizers (`trim`) and then runs every validator, each failing one
    contributing its message; a bundle's errors are its chains' errors in
    order, and the request is refused with 422 "Validation failed" when
    there is any.
    `isEmail` and `isUUID` are library predicates and appear as the
    parameters `isEmail` and `isUuid`. An optional field is `None` when it is
    absent (or, where the chain allows it, null). */
module BackendRules {
  import opened Common
  import opened Text
  import opened Records
  import opened PasswordPolicy

  const NAME_MSG: string := "Name must be between 20 and 60 characters"
  const EMAIL_MSG: string := "Must be a valid email address"
  const ADDRESS_MSG: string := "Address must be at most 400 characters"
  const PASSWORD_LENGTH_MSG: string := "Password must be 8\U{2013}16 characters"
  const PASSWORD_FORMAT_MSG: string := "Password must contain at least one uppercase letter and one special character"
  const ROLE_MSG: string := "Role must be one of: admin, user, store_owner"
  const RATING_MSG: string := "Rating must be an integer between 1 and 5"
  const LOGIN_EMAIL_MSG: string := "Valid email required"
  const LOGIN_PASSWORD_MSG: string := "Password required"
  const OWNER_ID_MSG: string := "Invalid owner ID"
  const STORE_ID_MSG: string := "Valid store ID required"

  /** The message when the check fails, nothing when it passes. */
  function Check(ok: bool, message: string): seq<string> {
    if ok then [] else [message]
  }

  /** `trim().isLength({ min: 20, max: 60 })`. */
  function NameErrors(name: string): seq<string> {
    Check(20 <= |Trim(name)| <= 60, NAME_MSG)
  }

  function EmailErrors(email: string, isEmail: string -> bool): seq<string> {
    Check(isEmail(Trim(email)), EMAIL_MSG)
  }

  /** `optional({ nullable: true }).trim().isLength({ max: 400 })`. */
  function AddressErrors(address: Option<string>): seq<string> {
    if address.None? then [] else Check(|Trim(address.value)| <= 400, ADDRESS_MSG)
  }

  /** `isLength({ min: 8, max: 16 })` then `matches(PASSWORD_REGEX)`, both run. */
  function PasswordErrors(password: string): (errs: seq<string>)
    ensures errs == [] <==> PolicyHolds(password)
    ensures !(8 <= |password| <= 16) ==> errs == [PASSWORD_LENGTH_MSG, PASSWORD_FORMAT_MSG]
  {
    RegexIsPolicy(password);
    Check(8 <= |password| <= 16, PASSWORD_LENGTH_MSG) + Check(MatchesPasswordRegex(password), PASSWORD_FORMAT_MSG)
  }

  /** `optional().isIn(['admin', 'user', 'store_owner'])`. */
  function RoleErrors(role: Option<string>): seq<string> {
    if role.None? then [] else Check(IsRoleName(role.value), ROLE_MSG)
  }

  /** `isInt({ min: 1, max: 5 })` of a numeric body value: the number's
      text must be a whole number in range, so 2.5 is refused. */
  function RatingValueErrors(value: real): seq<string> {
    Check(IsWhole(value) && 1.0 <= value <= 5.0, RATING_MSG)
  }

  function RegisterErrors(name: string, email: string, address: Option<string>, password: string,
                          isEmail: string -> bool): seq<string> {
    NameErrors(name) + EmailErrors(email, isEmail) + AddressErrors(address) + PasswordErrors(password)
  }

  function CreateUserErrors(name: string, email: string, address: Option<string>, password: string,
                            role: Option<string>, isEmail: string -> bool): seq<string> {
    NameErrors(name) + EmailErrors(email, isEmail) + AddressErrors(address) + PasswordErrors(password)
      + RoleErrors(role)
  }

  function CreateStoreErrors(name: string, email: string, address: Option<string>, ownerId: Option<string>,
                             isEmail: string -> bool, isUuid: string -> bool): seq<string> {
    NameErrors(name) + EmailErrors(email, isEmail) + AddressErrors(address)
      + (if ownerId.None? then [] else Check(isUuid(ownerId.value), OWNER_ID_MSG))
  }

  function UpdatePasswordErrors(newPassword: string): seq<string> {
    PasswordErrors(newPassword)
  }

  function LoginErrors(email: string, password: string, isEmail: string -> bool): seq<string> {
    Check(isEmail(Trim(email)), LOGIN_EMAIL_MSG) + Check(password != [], LOGIN_PASSWORD_MSG)
  }

  function SubmitRatingErrors(storeId: string, value: real, isUuid: string -> bool): seq<string> {
    Check(isUuid(storeId), STORE_ID_MSG) + RatingValueErrors(value)
  }

  /** A registration body passes exactly when the trimmed name has 20 to 60
      characters, the trimmed email is an email, the trimmed address (if
      any) has at most 400 characters and the password meets the policy. */
  lemma RegisterPasses(name: string, email: string, address: Option<string>, password: string,
                       isEmail: string -> bool)
    ensures RegisterErrors(name, email, address, password, isEmail) == [] <==>
      && 20 <= |Trim(name)| <= 60
      && isEmail(Trim(email))
      && (address.None? || |Trim(address.value)| <= 400)
      && PolicyHolds(password)
  {
  }

  /** The admin's account body is the registration body plus an optional
      role that must be one of the three labels. */
  lemma CreateUserIsRegisterPlusRole(name: string, email: string, address: Option<string>, password: string,
                                     role: Option<string>, isEmail: string -> bool)
    ensures CreateUserErrors(name, email, address, password, role, isEmail) ==
            RegisterErrors(name, email, address, password, isEmail) + RoleErrors(role)
    ensures CreateUserErrors(name, email, address, password, role, isEmail) == [] <==>
      RegisterErrors(name, email, address, password, isEmail) == [] && (role.None? || IsRoleName(role.value))
  {
  }

  /** A rating passes its rules exactly when the store id is a UUID and the
      value is a whole number in 1..5, the range the Express ratings service
      itself never checks; a passing value is the integer it hands on. */
  lemma SubmitRatingPasses(storeId: string, value: real, isUuid: string -> bool)
    ensures SubmitRatingErrors(storeId, value, isUuid) == [] <==> isUuid(storeId) && IsWhole(value) && 1.0 <= value <= 5.0
    ensures SubmitRatingErrors(storeId, value, isUuid) == [] ==> 1 <= value.Floor <= 5 && value.Floor as real == value
    ensures !IsWhole(value) ==> SubmitRatingErrors(storeId, value, isUuid) != []
  {
  }

  /** A password change passes exactly the passwords a registration does. */
  lemma UpdatePasswordPasses(newPassword: string)
    ensures UpdatePasswordErrors(newPassword) == [] <==> PolicyHolds(newPassword)
  {
  }
}
