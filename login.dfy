/**
 * The sign-in form of FrontEnd/src/pages/Login.jsx: the e-mail and password rules, the
 * error object `validateForm` fills in place, and the credentials `handleLogin` passes on.
 */
module Login {
  import opened Wrappers
  import opened Js
  import opened FormRules
  import Email

  /** The keys of the error object. */
  datatype Field = EmailField | PasswordField

  /** The password is only required: sign-in has no length rule. */
  function LoginPasswordError(password: string): (e: Option<string>)
    ensures e.Some? <==> IsBlank(password)
    ensures e.Some? ==> e.value == "Senha é obrigatória"
  {
    Required(password, "Senha é obrigatória")
  }

  /** The error a field gets, if any. */
  function FieldError(email: string, password: string, key: Field): Option<string> {
    match key
    case EmailField => EmailError(email)
    case PasswordField => LoginPasswordError(password)
  }

  function Rank(k: Field): (n: nat)
    ensures n < 2
  {
    match k
    case EmailField => 0
    case PasswordField => 1
  }

  /** m holds exactly the errors of the fields ranked below n. */
  ghost predicate ErrorsOfFirst(m: map<Field, string>, email: string, password: string, n: nat) {
    forall k ::
      (k in m <==> Rank(k) < n && FieldError(email, password, k).Some?)
      && (k in m ==> m[k] == FieldError(email, password, k).value)
  }

  /** Checking the next field in order extends the map by exactly that field's error. */
  lemma PutNext(m: map<Field, string>, email: string, password: string, key: Field)
    requires ErrorsOfFirst(m, email, password, Rank(key))
    ensures ErrorsOfFirst(Put(m, key, FieldError(email, password, key)), email, password, Rank(key) + 1)
  {
    var m' := Put(m, key, FieldError(email, password, key));
    forall k
      ensures (k in m' <==> Rank(k) < Rank(key) + 1 && FieldError(email, password, k).Some?)
              && (k in m' ==> m'[k] == FieldError(email, password, k).value)
    {
      if k != key {
        assert Rank(k) != Rank(key);
      }
    }
  }

  /** `validateForm`: fills the error object and reports whether it stayed empty. */
  method ValidateLoginForm(email: string, password: string) returns (errors: map<Field, string>, valid: bool)
    ensures forall k :: k in errors <==> FieldError(email, password, k).Some?
    ensures forall k :: k in errors ==> errors[k] == FieldError(email, password, k).value
    ensures valid <==> forall k :: FieldError(email, password, k).None?
  {
    errors := map[];
    errors := Put(errors, EmailField, EmailError(email));
    PutNext(map[], email, password, EmailField);
    ghost var e1 := errors;
    errors := Put(errors, PasswordField, LoginPasswordError(password));
    PutNext(e1, email, password, PasswordField);
    valid := |errors| == 0;
    if valid {
      assert forall k :: k !in errors;
    } else {
      assert errors != map[];
    }
  }

  /** The form is free of errors exactly when the address is valid and a password is given. */
  lemma NoErrorsIffFilled(email: string, password: string)
    ensures (forall k :: FieldError(email, password, k).None?)
            <==> !IsBlank(email) && Email.IsValidEmail(email) && !IsBlank(password)
  {
    if forall k :: FieldError(email, password, k).None? {
      assert FieldError(email, password, EmailField).None?;
      assert FieldError(email, password, PasswordField).None?;
    }
  }

  /**
   * A short password that sign-up would refuse still passes the sign-in form: the
   * length rule belongs to sign-up alone.
   */
  lemma ShortPasswordPassesLogin(email: string, password: string)
    requires !IsBlank(password) && |password| < 6
    ensures FieldError(email, password, PasswordField).None?
    ensures PasswordError(password) == Some("Senha deve ter no mínimo 6 caracteres")
  {
  }

  /** `handleLogin` up to the request: the warning for an invalid form, else the raw credentials. */
  method SubmitLogin(email: string, password: string) returns (r: Result<(string, string), string>)
    ensures r.Err? <==> IsBlank(email) || !Email.IsValidEmail(email) || IsBlank(password)
    ensures r.Err? ==> r.error == "Por favor, preencha todos os campos"
    ensures r.Ok? ==> r.value == (email, password)
  {
    var errors, valid := ValidateLoginForm(email, password);
    NoErrorsIffFilled(email, password);
    if !valid {
      return Err("Por favor, preencha todos os campos");
    }
    r := Ok((email, password));
  }
}
