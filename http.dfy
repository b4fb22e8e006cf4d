/** What a handler answers: a success status with a value, or one of the
    service's error messages. Each handler message stands for one localized
    text in the source; ServerError stands for all the 500 texts of the catch
    blocks. Each tag is always sent with the same status code. */
module Http {

  datatype ErrorTag =
    // middleware/auth.js
    | TokenMissing
    | TokenExpired
    | TokenInvalid
    | AccessDenied
    // routes/orders.js
    | OrderFieldsRequired
    | EmptyCart
    | InvalidStatus
    | OrderNotFound
    // routes/users.js
    | RegistrationFieldsRequired
    | InvalidEmail
    | PasswordTooShort
    | EmailTaken
    | CredentialsRequired
    | WrongCredentials
    | UserNotFound
    // the catch blocks of routes/users.js and routes/orders.js, whatever
    // their text ("Ошибка сервера" or a variant naming the operation)
    | ServerError
  {
    /** The status code the source sends with this message: 4xx for every
        message a handler chooses, 500 for a failed query. */
    function Code(): (c: int)
      ensures this != ServerError ==> 400 <= c < 500
      ensures this == ServerError ==> c == 500
    {
      match this
      case TokenMissing => 401
      case TokenExpired => 401
      case TokenInvalid => 403
      case AccessDenied => 403
      case OrderFieldsRequired => 400
      case EmptyCart => 400
      case InvalidStatus => 400
      case OrderNotFound => 404
      case RegistrationFieldsRequired => 400
      case InvalidEmail => 400
      case PasswordTooShort => 400
      case EmailTaken => 409
      case CredentialsRequired => 400
      case WrongCredentials => 401
      case UserNotFound => 404
      case ServerError => 500
    }
  }

  const OK := 200
  const CREATED := 201

  datatype Result<T> = Ok(code: int, value: T) | Err(tag: ErrorTag)
}
