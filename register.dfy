/**
 * The sign-up form of FrontEnd/src/pages/Register.jsx: each field's rule, the error
 * object `validateForm` fills in place, and the profile `handleSubmit` sends once the
 * form is valid.
 */
module Register {
  import opened Wrappers
  import opened Js
  import opened FormRules
  import Email

  /** The keys of the error object. */
  datatype Field = NameField | EmailField | PasswordField | ConfirmPasswordField

  datatype RegisterForm = RegisterForm(name: string, email: string, password: string, confirmPassword: string)

  /** The name rule: required, then at least 3 characters once trimmed. */
  function NameError(name: string): (e: Option<string>)
    ensures e == Some("Nome é obrigatório") <==> IsBlank(name)
    ensures e == Some("Nome deve ter no mínimo 3 caracteres") <==> !IsBlank(name) && |Trim(name)| < 3
    ensures e.None? <==> |Trim(name)| >= 3
  {
    if IsBlank(name) then Some("Nome é obrigatório")
    else if |Trim(name)| < 3 then Some("Nome deve ter no mínimo 3 caracteres")
    else None
  }

  /** The confirmation rule: required, then exactly the password. */
  function ConfirmError(password: string, confirmPassword: string): (e: Option<string>)
    ensures e == Some("Confirmação de senha é obrigatória") <==> IsBlank(confirmPassword)
    ensures e == Some("As senhas não coincidem") <==> !IsBlank(confirmPassword) && password != confirmPassword
    ensures e.None? <==> !IsBlank(confirmPassword) && password == confirmPassword
  {
    if IsBlank(confirmPassword) then Some("Confirmação de senha é obrigatória")
    else if password != confirmPassword then Some("As senhas não coincidem")
    else None
  }

  /** The error a field gets, if any. */
  function FieldError(form: RegisterForm, key: Field): Option<string> {
    match key
    case NameField => NameError(form.name)
    case EmailField => EmailError(form.email)
    case PasswordField => PasswordError(form.password)
    case ConfirmPasswordField => ConfirmError(form.password, form.confirmPassword)
  }

  /** The position at which `validateForm` checks a field. */
  function Rank(k: Field): (n: nat)
    ensures n < 4
  {
    match k
    case NameField => 0
    case EmailField => 1
    case PasswordField => 2
    case ConfirmPasswordField => 3
  }

  /** m holds exactly the errors of the fields ranked below n. */
  ghost predicate ErrorsOfFirst(m: map<Field, string>, form: RegisterForm, n: nat) {
    forall k ::
      (k in m <==> Rank(k) < n && FieldError(form, k).Some?)
      && (k in m ==> m[k] == FieldError(form, k).value)
  }

  /** Checking the next field in order extends the map by exactly that field's error. */
  lemma PutNext(m: map<Field, string>, form: RegisterForm, key: Field)
    requires ErrorsOfFirst(m, form, Rank(key))
    ensures ErrorsOfFirst(Put(m, key, FieldError(form, key)), form, Rank(key) + 1)
  {
    var m' := Put(m, key, FieldError(form, key));
    forall k
      ensures (k in m' <==> Rank(k) < Rank(key) + 1 && FieldError(form, k).Some?)
              && (k in m' ==> m'[k] == FieldError(form, k).value)
    {
      if k != key {
        assert Rank(k) != Rank(key);
      }
    }
  }

  /** `validateForm`: fills the error object field by field and reports whether it stayed empty. */
  method ValidateRegisterForm(form: RegisterForm) returns (errors: map<Field, string>, valid: bool)
    ensures forall k :: k in errors <==> FieldError(form, k).Some?
    ensures forall k :: k in errors ==> errors[k] == FieldError(form, k).value
    ensures valid <==> forall k :: FieldError(form, k).None?
  {
    errors := map[];
    errors := Put(errors, NameField, NameError(form.name));
    PutNext(map[], form, NameField);
    ghost var e1 := errors;
    errors := Put(errors, EmailField, EmailError(form.email));
    PutNext(e1, form, EmailField);
    ghost var e2 := errors;
    errors := Put(errors, PasswordField, PasswordError(form.password));
    PutNext(e2, form, PasswordField);
    ghost var e3 := errors;
    errors := Put(errors, ConfirmPasswordField, ConfirmError(form.password, form.confirmPassword));
    PutNext(e3, form, ConfirmPasswordField);
    valid := |errors| == 0;
    if valid {
      assert forall k :: k !in errors;
    } else {
      assert errors != map[];
    }
  }

  /** The form is free of errors exactly when every rule is met. */
  predicate RulesMet(form: RegisterForm) {
    |Trim(form.name)| >= 3
    && !IsBlank(form.email) && Email.IsValidEmail(form.email)
    && !IsBlank(form.password) && |form.password| >= 6
    && form.confirmPassword == form.password
  }

  lemma NoErrorsIffRulesMet(form: RegisterForm)
    ensures (forall k :: FieldError(form, k).None?) <==> RulesMet(form)
  {
    if forall k :: FieldError(form, k).None? {
      assert FieldError(form, NameField).None?;
      assert FieldError(form, EmailField).None?;
      assert FieldError(form, PasswordField).None?;
      assert FieldError(form, ConfirmPasswordField).None?;
    }
  }

  /** What the sign-up sends: the trimmed name and e-mail. */
  datatype Profile = Profile(name: string, email: string)

  /** `handleSubmit` up to the request: the warning for an invalid form, else the profile sent. */
  method Submit(form: RegisterForm) returns (r: Result<Profile, string>)
    ensures r.Err? <==> exists k :: FieldError(form, k).Some?
    ensures r.Err? ==> r.error == "Por favor, corrija os erros no formulário"
    ensures r.Ok? ==> r.value == Profile(Trim(form.name), Trim(form.email))
    ensures r.Ok? ==> RulesMet(form) && |r.value.name| >= 3
  {
    var errors, valid := ValidateRegisterForm(form);
    if !valid {
      return Err("Por favor, corrija os erros no formulário");
    }
    NoErrorsIffRulesMet(form);
    r := Ok(Profile(Trim(form.name), Trim(form.email)));
  }
}
