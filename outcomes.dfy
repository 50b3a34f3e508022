/** Option and the failure-carrying Outcome shared by the whole model, and the
    errors the trait raises. */
module Outcomes {

  datatype Option<T> = None | Some(value: T)

  /** The errors that reach a caller of the trait.
      - UndefinedProperty: the `\Error` of throwUndefinedPropertyException;
      - TypeMismatch: the `\TypeError` that magicSet throws when validation fails;
      - InvalidTypes: the `\RuntimeException` of getPropertyTypes;
      - MissingPredicate: the `TypeError` PHP raises when validateTypes hands
        call_user_func the name of an `is_<type>` function that does not exist. */
  datatype Error =
    | UndefinedProperty(message: string)
    | TypeMismatch(message: string)
    | InvalidTypes(message: string)
    | MissingPredicate(callback: string)

  datatype Outcome<T> = Ok(value: T) | Err(error: Error)
}
