/** Reserved owner keys in work metadata, as the SQL queue and the ledger read them. */
module Owners {
  import opened Wrappers

  /** One reserved key: not there, a string, or any other value. */
  datatype Field = Absent | Text(text: string) | OtherValue

  /** Parsed metadata: null, something that is no object, or an object with its three reserved keys. */
  datatype Metadata = Null | NotObject | Object(cwd: Field, sessionId: Field, scope: Field)

  datatype Owner = Owner(cwd: string, sessionId: string, scope: string)

  datatype OwnerError = InvalidOwner

  /** All three keys as valid strings, or none of them; anything else is invalid. */
  function OwnerOfObject(m: Metadata): (r: Result<Option<Owner>, OwnerError>)
    requires m.Object?
    ensures r == Ok(None) <==> m.cwd.Absent? && m.sessionId.Absent? && m.scope.Absent?
    ensures r.Ok? && r.value.Some? <==>
              m.cwd.Text? && m.sessionId.Text? && m.scope.Text? && m.cwd.text != "" && m.scope.text != ""
    ensures r.Ok? && r.value.Some? ==>
              r.value.value.cwd == m.cwd.text && r.value.value.sessionId == m.sessionId.text && r.value.value.scope == m.scope.text
  {
    if m.cwd.Absent? && m.sessionId.Absent? && m.scope.Absent? then Ok(None)
    else if m.cwd.Absent? || m.sessionId.Absent? || m.scope.Absent? then Err(InvalidOwner)
    else if !m.cwd.Text? || m.cwd.text == "" then Err(InvalidOwner)
    else if !m.sessionId.Text? then Err(InvalidOwner)
    else if !m.scope.Text? || m.scope.text == "" then Err(InvalidOwner)
    else Ok(Some(Owner(m.cwd.text, m.sessionId.text, m.scope.text)))
  }

  predicate OwnersConflict(existing: Option<Owner>, new_: Option<Owner>) {
    if existing.None? && new_.None? then false
    else if existing.None? || new_.None? then true
    else existing.value != new_.value
  }
}
