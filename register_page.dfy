/** The registration form of frontend/src/pages/RegisterPage.jsx:
    `validateForm`, which fills an error dictionary field by field, and the
    payload `handleSubmit` sends. */
module RegisterPage {
  import opened Wrappers
  import opened Text

  datatype RegisterForm = RegisterForm(name: string, email: string, password: string,
                                       confirmPassword: string, phone: string)

  /** The keys of the error dictionary. */
  datatype Field = Name | Email | Password | ConfirmPassword

  /** What `register` receives: the form without `confirmPassword`. */
  datatype RegisterData = RegisterData(name: string, email: string, password: string, phone: string)

  /** The error, if any, of each field, in the order the checks run. */
  function NameError(f: RegisterForm): (e: Option<string>)
    ensures e.None? <==> !IsBlank(f.name)
    ensures e.Some? ==> e.value == "Name is required"
  {
    if IsBlank(f.name) then Some("Name is required") else None
  }

  function EmailError(f: RegisterForm): (e: Option<string>)
    ensures e.None? <==> !IsBlank(f.email) && IsEmail(f.email)
    ensures e.Some? ==> e.value == (if IsBlank(f.email) then "Email is required" else "Invalid email format")
  {
    if IsBlank(f.email) then Some("Email is required")
    else if !IsEmail(f.email) then Some("Invalid email format")
    else None
  }

  function PasswordError(f: RegisterForm): (e: Option<string>)
    ensures e.None? <==> |f.password| >= 6
    ensures e.Some? ==> e.value == (if f.password == "" then "Password is required"
                                    else "Password must be at least 6 characters")
  {
    if f.password == "" then Some("Password is required")
    else if |f.password| < 6 then Some("Password must be at least 6 characters")
    else None
  }

  function ConfirmError(f: RegisterForm): (e: Option<string>)
    ensures e.None? <==> f.confirmPassword != "" && f.confirmPassword == f.password
    ensures e.Some? ==> e.value == (if f.confirmPassword == "" then "Please confirm your password"
                                    else "Passwords do not match")
  {
    if f.confirmPassword == "" then Some("Please confirm your password")
    else if f.password != f.confirmPassword then Some("Passwords do not match")
    else None
  }

  /** The message the dictionary holds for a field, if any. */
  function Entry(errors: map<Field, string>, key: Field): Option<string> {
    if key in errors then Some(errors[key]) else None
  }

  /** No field's check fails exactly when every rule holds. */
  lemma NoErrorsIff(f: RegisterForm)
    ensures NameError(f).None? && EmailError(f).None? && PasswordError(f).None? && ConfirmError(f).None? <==>
      !IsBlank(f.name) && !IsBlank(f.email) && IsEmail(f.email) &&
      |f.password| >= 6 && f.confirmPassword == f.password
  {
  }

  /** `newErrors[key] = message` when the field's check failed. */
  function Put(errors: map<Field, string>, key: Field, e: Option<string>): map<Field, string> {
    if e.Some? then errors[key := e.value] else errors
  }

  /** The dictionary `validateForm` fills, field by field in source order. */
  function ErrorsOf(f: RegisterForm): map<Field, string> {
    Put(Put(Put(Put(map[], Name, NameError(f)), Email, EmailError(f)), Password, PasswordError(f)),
        ConfirmPassword, ConfirmError(f))
  }

  /** One write changes only its own key's entry. */
  lemma EntryAfterPut(errors: map<Field, string>, key: Field, e: Option<string>, k: Field)
    ensures Entry(Put(errors, key, e), k) == if k == key && e.Some? then e else Entry(errors, k)
  {
  }

  /** One write on a fresh key grows the dictionary by one entry exactly
      when the check failed. */
  lemma SizeAfterPut(errors: map<Field, string>, key: Field, e: Option<string>)
    requires key !in errors
    ensures |Put(errors, key, e)| == |errors| + (if e.Some? then 1 else 0)
  {
  }

  /** Each field's entry is that field's message, if any. */
  lemma ErrorsOfEntries(f: RegisterForm)
    ensures Entry(ErrorsOf(f), Name) == NameError(f)
    ensures Entry(ErrorsOf(f), Email) == EmailError(f)
    ensures Entry(ErrorsOf(f), Password) == PasswordError(f)
    ensures Entry(ErrorsOf(f), ConfirmPassword) == ConfirmError(f)
  {
    var m1 := Put(map[], Name, NameError(f));
    var m2 := Put(m1, Email, EmailError(f));
    var m3 := Put(m2, Password, PasswordError(f));
    EntryAfterPut(map[], Name, NameError(f), Name);
    EntryAfterPut(m1, Email, EmailError(f), Name);
    EntryAfterPut(m2, Password, PasswordError(f), Name);
    EntryAfterPut(m3, ConfirmPassword, ConfirmError(f), Name);
    EntryAfterPut(map[], Name, NameError(f), Email);
    EntryAfterPut(m1, Email, EmailError(f), Email);
    EntryAfterPut(m2, Password, PasswordError(f), Email);
    EntryAfterPut(m3, ConfirmPassword, ConfirmError(f), Email);
    EntryAfterPut(map[], Name, NameError(f), Password);
    EntryAfterPut(m1, Email, EmailError(f), Password);
    EntryAfterPut(m2, Password, PasswordError(f), Password);
    EntryAfterPut(m3, ConfirmPassword, ConfirmError(f), Password);
    EntryAfterPut(map[], Name, NameError(f), ConfirmPassword);
    EntryAfterPut(m1, Email, EmailError(f), ConfirmPassword);
    EntryAfterPut(m2, Password, PasswordError(f), ConfirmPassword);
    EntryAfterPut(m3, ConfirmPassword, ConfirmError(f), ConfirmPassword);
  }

  /** At most four messages, and none exactly when every rule holds. */
  lemma ErrorsOfSize(f: RegisterForm)
    ensures |ErrorsOf(f)| <= 4
    ensures |ErrorsOf(f)| == 0 <==> !IsBlank(f.name) && !IsBlank(f.email) && IsEmail(f.email) &&
                                    |f.password| >= 6 && f.confirmPassword == f.password
  {
    var m1 := Put(map[], Name, NameError(f));
    var m2 := Put(m1, Email, EmailError(f));
    var m3 := Put(m2, Password, PasswordError(f));
    SizeAfterPut(map[], Name, NameError(f));
    EntryAfterPut(map[], Name, NameError(f), Email);
    SizeAfterPut(m1, Email, EmailError(f));
    EntryAfterPut(map[], Name, NameError(f), Password);
    EntryAfterPut(m1, Email, EmailError(f), Password);
    SizeAfterPut(m2, Password, PasswordError(f));
    EntryAfterPut(map[], Name, NameError(f), ConfirmPassword);
    EntryAfterPut(m1, Email, EmailError(f), ConfirmPassword);
    EntryAfterPut(m2, Password, PasswordError(f), ConfirmPassword);
    SizeAfterPut(m3, ConfirmPassword, ConfirmError(f));
    NoErrorsIff(f);
  }

  /** `validateForm`: at most one message per field, and the form is valid
      exactly when the dictionary stays empty, that is when the name is not
      blank, the email is not blank and matches the pattern, the password
      has at least six characters and the confirmation equals it. */
  method ValidateForm(f: RegisterForm) returns (errors: map<Field, string>, valid: bool)
    ensures errors == ErrorsOf(f)
    ensures |errors| <= 4
    ensures Entry(errors, Name) == NameError(f)
    ensures Entry(errors, Email) == EmailError(f)
    ensures Entry(errors, Password) == PasswordError(f)
    ensures Entry(errors, ConfirmPassword) == ConfirmError(f)
    ensures valid <==> |errors| == 0
    ensures valid <==> !IsBlank(f.name) && !IsBlank(f.email) && IsEmail(f.email) &&
                       |f.password| >= 6 && f.confirmPassword == f.password
  {
    errors := map[];
    errors := Put(errors, Name, NameError(f));
    errors := Put(errors, Email, EmailError(f));
    errors := Put(errors, Password, PasswordError(f));
    errors := Put(errors, ConfirmPassword, ConfirmError(f));
    valid := |errors| == 0;
    ErrorsOfEntries(f);
    ErrorsOfSize(f);
  }

  /** `const { confirmPassword, ...registerData } = formData`. */
  function Payload(f: RegisterForm): (d: RegisterData)
    ensures d.name == f.name && d.email == f.email && d.password == f.password && d.phone == f.phone
  {
    RegisterData(f.name, f.email, f.password, f.phone)
  }

  /** `handleSubmit`: an invalid form calls nothing; a valid one calls
      `register` with the payload, whose password is the confirmed one. */
  method HandleSubmit(f: RegisterForm) returns (call: Option<RegisterData>, errors: map<Field, string>)
    ensures call.Some? <==> |errors| == 0
    ensures call.Some? ==> call.value == Payload(f) && call.value.password == f.confirmPassword
    ensures call.Some? ==> |call.value.password| >= 6 && IsEmail(call.value.email)
  {
    var valid;
    errors, valid := ValidateForm(f);
    if !valid {
      return None, errors;
    }
    call := Some(Payload(f));
  }

  /** Forms that differ only in the confirmation send the same payload:
      the confirmation never reaches the server. */
  lemma PayloadOmitsConfirmation(f: RegisterForm, confirm: string)
    ensures Payload(f.(confirmPassword := confirm)) == Payload(f)
  {
  }
}
