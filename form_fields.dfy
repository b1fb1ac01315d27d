/** The fields of the registration and user forms, as keys of the error
    objects the frontend validators fill. */
module FormFields {

  datatype Field = Name | Email | Address | Password

  /** The property of the error object a field's message is stored under. */
  function PropertyName(f: Field): string {
    match f
    case Name => "name"
    case Email => "email"
    case Address => "address"
    case Password => "password"
  }
}
