/** The sign-up form (RegisterWindow.xaml.cs): four guards checked in order,
    each with its own message, then the request body. */
module Register {
  import opened Wrappers
  import opened Strings
  import opened Forms

  datatype RegisterForm = RegisterForm(name: string, mail: string, password: string, role: Selection)

  /** The body posted to the sign-up endpoint. */
  datatype RegisterRequest = RegisterRequest(name: string, mail: string, password: string, role: Option<string>)

  datatype RegisterError = InvalidName | InvalidEmail | MissingPassword | MissingRole

  const NamePlaceholder := "Enter name"
  const MailPlaceholder := "Enter email"
  const At := "@"

  /** The message box text of each rejection. */
  function Message(e: RegisterError): string {
    match e
    case InvalidName => "Please enter a valid name."
    case InvalidEmail => "Please enter a valid email."
    case MissingPassword => "Please enter a password."
    case MissingRole => "Please select a role."
  }

  predicate NameAccepted(name: string) {
    !Unfilled(name, NamePlaceholder)
  }

  predicate MailAccepted(mail: string) {
    !Unfilled(mail, MailPlaceholder) && Contains(mail, At)
  }

  /** btnRegister_Click up to the request: the first failing guard, or the
      body built from the fields as typed. */
  function ValidateRegistration(form: RegisterForm): (r: Result<RegisterRequest, RegisterError>)
    ensures r.Success? <==>
      NameAccepted(form.name) && MailAccepted(form.mail) && !IsBlank(form.password) && form.role.Selected?
    ensures r.Success? ==> r.value == RegisterRequest(form.name, form.mail, form.password, form.role.content)
  {
    if Unfilled(form.name, NamePlaceholder) then Failure(InvalidName)
    else if Unfilled(form.mail, MailPlaceholder) || !Contains(form.mail, At) then Failure(InvalidEmail)
    else if IsBlank(form.password) then Failure(MissingPassword)
    else if form.role.NoSelection? then Failure(MissingRole)
    else Success(RegisterRequest(form.name, form.mail, form.password, form.role.content))
  }

  /** Only the first failing guard is reported: each rejection names the
      earliest guard that fails. */
  lemma RegistrationFirstFailure(form: RegisterForm)
    ensures ValidateRegistration(form) == Failure(InvalidName) <==> !NameAccepted(form.name)
    ensures ValidateRegistration(form) == Failure(InvalidEmail)
      <==> NameAccepted(form.name) && !MailAccepted(form.mail)
    ensures ValidateRegistration(form) == Failure(MissingPassword)
      <==> NameAccepted(form.name) && MailAccepted(form.mail) && IsBlank(form.password)
    ensures ValidateRegistration(form) == Failure(MissingRole)
      <==> NameAccepted(form.name) && MailAccepted(form.mail) && !IsBlank(form.password) && form.role.NoSelection?
  {
  }

  /** An accepted address holds an "@" and a character that is not white
      space. */
  lemma AcceptedMail(mail: string)
    requires MailAccepted(mail)
    ensures '@' in mail
    ensures exists i :: 0 <= i < |mail| && !IsWhiteSpace(mail[i])
  {
    ContainsChar(mail, '@');
  }
}
