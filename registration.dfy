/**
 * The checks `POST /bioqr/users/register` makes before it hashes the password:
 * every field present, the e-mail lookup succeeded, and no user has that
 * e-mail yet. Hashing and the insert itself are not modelled.
 */
module Registration {
  import opened Wrappers
  import opened Js

  datatype RegistrationForm = RegistrationForm(
    firstName: JsValue, lastName: JsValue, username: JsValue, email: JsValue, password: JsValue)

  predicate Complete(form: RegistrationForm) {
    Truthy(form.firstName) && Truthy(form.lastName) && Truthy(form.username)
    && Truthy(form.email) && Truthy(form.password)
  }

  /** A refusal carries the HTTP status actually sent: the handler answers a
      missing field and a taken e-mail with 200 and `success: false`. */
  datatype RegistrationGate = Refused(status: int, message: string) | HashAndInsert

  /** `emailRows` is the number of users the e-mail query found, `None` when
      the query failed. */
  function CheckRegistration(form: RegistrationForm, emailRows: Option<nat>): (g: RegistrationGate)
    ensures g.HashAndInsert? <==> Complete(form) && emailRows == Some(0)
    ensures !Complete(form) ==> g == Refused(200, "All fields are required")
    ensures Complete(form) && emailRows.None? ==> g == Refused(500, "Database error")
    ensures Complete(form) && emailRows.Some? && emailRows.value > 0 ==> g == Refused(200, "Email already registered")
  {
    if !Complete(form) then Refused(200, "All fields are required")
    else match emailRows
      case None => Refused(500, "Database error")
      case Some(n) => if n > 0 then Refused(200, "Email already registered") else HashAndInsert
  }

  /** A form with a missing field is refused before the database is consulted:
      what the e-mail query would have returned makes no difference. */
  lemma MissingFieldIgnoresDatabase(form: RegistrationForm, a: Option<nat>, b: Option<nat>)
    requires !Complete(form)
    ensures CheckRegistration(form, a) == CheckRegistration(form, b)
  {
  }
}
