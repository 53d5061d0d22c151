/**
 * The form-filling methods of the `RegisterPage` page object
 * (cypress/pages/register.ts), as the trace of driver actions they issue.
 */
module RegisterPage {
  import opened Wrappers

  const FirstNameInput: string := "#firstName"
  const LastNameInput: string := "#lastName"
  const UsernameInput: string := "#username"
  const PasswordInput: string := "#password"
  const ConfirmPasswordInput: string := "#confirmPassword"
  const SignUpButton: string := "[data-test=\"signup-submit\"]"

  /** The five form fields, in the order both fill methods visit them. */
  const FieldSelectors: seq<string> :=
    [FirstNameInput, LastNameInput, UsernameInput, PasswordInput, ConfirmPasswordInput]

  /** `cy.get(selector).type(value)` and `cy.get(selector).focus()`. */
  datatype Action = Type(selector: string, value: string) | Focus(selector: string)

  /** The five selectors and the button are pairwise distinct. */
  lemma SelectorsDistinct()
    ensures |FieldSelectors| == 5
    ensures forall i, j :: 0 <= i < j < 5 ==> FieldSelectors[i] != FieldSelectors[j]
    ensures SignUpButton !in FieldSelectors
  {
  }

  /** One field of `fillInvalidRegisterForm`: typed when its value is truthy, else focused. */
  function FieldAction(selector: string, value: Option<string>): (a: Action)
    ensures a.selector == selector
    ensures a.Type? <==> Truthy(value)
    ensures a.Type? ==> a.value == value.value && a.value != ""
  {
    if Truthy(value) then Type(selector, value.value) else Focus(selector)
  }

  /** `fillValidRegisterForm`: types each value into its own field, in field order. */
  function FillValidRegisterForm(firstName: string, lastName: string, username: string,
                                 password: string, confirmPassword: string): (trace: seq<Action>)
    ensures |trace| == 5
    ensures var values := [firstName, lastName, username, password, confirmPassword];
      forall i :: 0 <= i < 5 ==> trace[i] == Type(FieldSelectors[i], values[i])
  {
    [ Type(FirstNameInput, firstName),
      Type(LastNameInput, lastName),
      Type(UsernameInput, username),
      Type(PasswordInput, password),
      Type(ConfirmPasswordInput, confirmPassword) ]
  }

  /**
   * `fillInvalidRegisterForm`: each field in order is typed when its value is a
   * non-empty string and focused when it is null or empty; then the sign-up button is focused.
   */
  function FillInvalidRegisterForm(firstName: Option<string>, lastName: Option<string>,
                                   username: Option<string>, password: Option<string>,
                                   confirmPassword: Option<string>): (trace: seq<Action>)
    ensures |trace| == 6
    ensures trace[5] == Focus(SignUpButton)
    ensures var values := [firstName, lastName, username, password, confirmPassword];
      forall i :: 0 <= i < 5 ==>
        trace[i].selector == FieldSelectors[i] &&
        (trace[i].Type? <==> Truthy(values[i])) &&
        (Truthy(values[i]) ==> trace[i] == Type(FieldSelectors[i], values[i].value)) &&
        (!Truthy(values[i]) ==> trace[i] == Focus(FieldSelectors[i]))
    ensures forall a :: a in trace && a.Type? ==> a.value != ""
  {
    [ FieldAction(FirstNameInput, firstName),
      FieldAction(LastNameInput, lastName),
      FieldAction(UsernameInput, username),
      FieldAction(PasswordInput, password),
      FieldAction(ConfirmPasswordInput, confirmPassword),
      Focus(SignUpButton) ]
  }

  /** With every value non-empty, the invalid-form trace is the valid-form trace and then the button focus. */
  lemma InvalidExtendsValid(firstName: string, lastName: string, username: string,
                            password: string, confirmPassword: string)
    requires firstName != "" && lastName != "" && username != ""
    requires password != "" && confirmPassword != ""
    ensures FillInvalidRegisterForm(Some(firstName), Some(lastName), Some(username),
                                    Some(password), Some(confirmPassword))
         == FillValidRegisterForm(firstName, lastName, username, password, confirmPassword)
            + [Focus(SignUpButton)]
  {
  }

  /** A field given as null or `''` is focused and never typed into. */
  lemma EmptyFieldNeverTyped(values: seq<Option<string>>, k: nat)
    requires |values| == 5 && k < 5
    requires values[k] == None || values[k] == Some("")
    ensures var trace := FillInvalidRegisterForm(values[0], values[1], values[2], values[3], values[4]);
      trace[k] == Focus(FieldSelectors[k]) &&
      forall a :: a in trace && a.Type? ==> a.selector != FieldSelectors[k]
  {
    SelectorsDistinct();
  }
}
