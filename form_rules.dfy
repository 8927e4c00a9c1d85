/**
 * The field rules the login, register and user forms share: a required text field
 * (blank after trimming is missing), the e-mail rule and the password rule.
 */
module FormRules {
  import opened Wrappers
  import opened Js
  import Email

  /** `if (!value.trim()) errors.x = message`. */
  function Required(value: string, message: string): (e: Option<string>)
    ensures e.Some? <==> IsBlank(value)
    ensures e.Some? ==> e.value == message
  {
    if IsBlank(value) then Some(message) else None
  }

  /** The e-mail rule: required, then the address pattern on the untrimmed text. */
  function EmailError(email: string): (e: Option<string>)
    ensures e == Some("Email é obrigatório") <==> IsBlank(email)
    ensures e == Some("Email inválido") <==> !IsBlank(email) && !Email.IsValidEmail(email)
    ensures e.None? <==> !IsBlank(email) && Email.IsValidEmail(email)
  {
    if IsBlank(email) then Some("Email é obrigatório")
    else if !Email.IsValidEmail(email) then Some("Email inválido")
    else None
  }

  /** The password rule: required after trimming, then at least 6 characters untrimmed. */
  function PasswordError(password: string): (e: Option<string>)
    ensures e == Some("Senha é obrigatória") <==> IsBlank(password)
    ensures e == Some("Senha deve ter no mínimo 6 caracteres") <==> !IsBlank(password) && |password| < 6
    ensures e.None? <==> !IsBlank(password) && |password| >= 6
  {
    if IsBlank(password) then Some("Senha é obrigatória")
    else if |password| < 6 then Some("Senha deve ter no mínimo 6 caracteres")
    else None
  }

  /** A password of six spaces is blank, so the length rule never sees it. */
  lemma SpacesArePasswordMissing()
    ensures PasswordError("      ") == Some("Senha é obrigatória")
  {
    BlankIsAllSpace("      ");
  }

  // ---------------------------------------------------------------------------
  // The error object the validators fill, one field after another

  /** `if (error) errors[key] = error`: m with key set to the error, when there is one. */
  function Put<K>(m: map<K, string>, key: K, e: Option<string>): map<K, string> {
    if e.Some? then m[key := e.value] else m
  }
}
