/**
 The message lookup of the error page (`get '/error'`): a two-level table
 keyed by error code and, for some codes, by reason, with a default.

 The page keeps whatever entry the code names, so a nested code whose reason
 is unknown or absent yields its whole sub-table rather than the default.
 */
module ErrorMessages {
  import opened Domain

  /** A table entry: a message, or a sub-table of messages keyed by reason. */
  datatype Message = Text(text: string) | Table(entries: map<string, string>)

  const DefaultMessage: string := "Ha ocurrido un error."
  const RegistrationErrorPrefix: string := "Ha ocurrido un error durante el registro: "

  /** Ruby's string interpolation of a possibly nil parameter. */
  function Interpolated(s: Option<string>): string {
    match s
    case Some(v) => v
    case None => ""
  }

  const RegistrationMessages: map<string, string> := map[
    "empty_inputs" := "Usuario, email o contraseña no pueden estar vacíos.",
    "password_mismatch" := "Las contraseñas no coinciden.",
    "username_taken" := "El nombre de usuario no está disponible. Intenta con otro.",
    "email_taken" := "El email no está disponible. Intenta con otro."
  ]

  const LoginMessages: map<string, string> := map[
    "empty_inputs" := "Usuario o contraseña no pueden estar vacíos.",
    "authenticate_failed" := "El usuario o la contraseña no coinciden. Por favor, vuelva a intentarlo."
  ]

  const ClaimMessages: map<string, string> := map[
    "failed_send_claim" := "No se pudo enviar su mensaje.",
    "malicious_block" := "Error en el mensaje."
  ]

  /** The registration sub-table, whose `registration_error` entry embeds the request's message. */
  function RegistrationTable(errorMessage: string): map<string, string> {
    RegistrationMessages["registration_error" := RegistrationErrorPrefix + errorMessage]
  }

  /** The table the page builds for the request's `error_message` parameter. */
  function MessageTable(errorMessage: string): map<string, Message> {
    map[
      "unanswered" := Text("Se intentó acceder directamente a una pregunta."),
      "answered" := Text("La pregunta ya ha sido respondida."),
      "registration" := Table(RegistrationTable(errorMessage)),
      "login" := Table(LoginMessages),
      "claim" := Table(ClaimMessages)
    ]
  }

  /** The message the error page shows for the `code`, `reason` and `error_message` parameters. */
  function Resolve(code: Option<string>, reason: Option<string>, errorMessage: Option<string>): (m: Message)
    ensures m.Text? || m in MessageTable(Interpolated(errorMessage)).Values
  {
    var table := MessageTable(Interpolated(errorMessage));
    var initial := if code.Some? && code.value in table then table[code.value] else Text(DefaultMessage);
    if code.Some? && code.value in table && table[code.value].Table?
       && reason.Some? && reason.value in table[code.value].entries
    then Text(table[code.value].entries[reason.value])
    else initial
  }

  /** The codes whose entry is a single message. */
  predicate IsFlatCode(code: string) {
    code == "unanswered" || code == "answered"
  }

  /** The codes whose entry is a sub-table keyed by reason. */
  predicate IsNestedCode(code: string) {
    code == "registration" || code == "login" || code == "claim"
  }

  /** The table holds exactly the flat and the nested codes, and they are of the expected shapes. */
  lemma TableShape(errorMessage: string, code: string)
    ensures code in MessageTable(errorMessage) <==> IsFlatCode(code) || IsNestedCode(code)
    ensures IsFlatCode(code) ==> MessageTable(errorMessage)[code].Text?
    ensures IsNestedCode(code) ==> MessageTable(errorMessage)[code].Table?
  {
  }

  /** A flat code yields its fixed message whatever the reason. */
  lemma FlatCodeIgnoresReason(code: string, reason: Option<string>, errorMessage: Option<string>)
    requires IsFlatCode(code)
    ensures Resolve(Some(code), reason, errorMessage) == Resolve(Some(code), None, errorMessage)
    ensures Resolve(Some(code), reason, errorMessage).Text?
    ensures Resolve(Some("unanswered"), reason, errorMessage) == Text("Se intentó acceder directamente a una pregunta.")
    ensures Resolve(Some("answered"), reason, errorMessage) == Text("La pregunta ya ha sido respondida.")
  {
  }

  /** The default message appears exactly when the code is missing or not in the table. */
  lemma DefaultIffUnknownCode(code: Option<string>, reason: Option<string>, errorMessage: Option<string>)
    ensures Resolve(code, reason, errorMessage) == Text(DefaultMessage)
            <==> code.None? || !(IsFlatCode(code.value) || IsNestedCode(code.value))
  {
    var table := MessageTable(Interpolated(errorMessage));
    if code.Some? && code.value in table && table[code.value].Table?
       && reason.Some? && reason.value in table[code.value].entries {
      NoSubTableMessageIsDefault(Interpolated(errorMessage), code.value, reason.value);
    }
  }

  /** No message of a sub-table is the default message. */
  lemma NoSubTableMessageIsDefault(errorMessage: string, code: string, reason: string)
    requires IsNestedCode(code)
    requires reason in MessageTable(errorMessage)[code].entries
    ensures MessageTable(errorMessage)[code].entries[reason] != DefaultMessage
  {
    var entries := MessageTable(errorMessage)[code].entries;
    if code == "registration" && reason == "registration_error" {
      assert |entries[reason]| >= |RegistrationErrorPrefix| > |DefaultMessage|;
    } else {
      assert |entries[reason]| != |DefaultMessage|;
    }
  }

  /** A nested code with a reason its sub-table knows yields that reason's message. */
  lemma NestedKnownReason(code: string, reason: string, errorMessage: Option<string>)
    requires IsNestedCode(code)
    requires reason in MessageTable(Interpolated(errorMessage))[code].entries
    ensures Resolve(Some(code), Some(reason), errorMessage)
            == Text(MessageTable(Interpolated(errorMessage))[code].entries[reason])
  {
  }

  /**
   A nested code with a missing or unknown reason yields the whole sub-table,
   not the default message.
   */
  lemma NestedUnknownReasonYieldsTable(code: string, reason: Option<string>, errorMessage: Option<string>)
    requires IsNestedCode(code)
    requires reason.None? || reason.value !in MessageTable(Interpolated(errorMessage))[code].entries
    ensures Resolve(Some(code), reason, errorMessage) == MessageTable(Interpolated(errorMessage))[code]
    ensures Resolve(Some(code), reason, errorMessage) != Text(DefaultMessage)
  {
  }

  /** `registration` / `registration_error` shows the fixed prefix followed by the request's message. */
  lemma RegistrationErrorEmbedsMessage(errorMessage: Option<string>)
    ensures Resolve(Some("registration"), Some("registration_error"), errorMessage)
            == Text(RegistrationErrorPrefix + Interpolated(errorMessage))
  {
  }
}
