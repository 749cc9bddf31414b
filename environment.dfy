/** The environment actions run in: blocks called with the request, and
    errors raised by class or by the name of a potential error declared on
    the request's authenticator or endpoint. */
module Environments {
  import opened Wrappers
  import opened Values

  /** A declared error class: its Ruby class name and its definition id. */
  datatype ErrorClass = ErrorClass(className: string, definitionId: string)

  /** What the environment reads of its request: the potential errors of the
      authenticator and of the endpoint, each None when the request has no
      such collaborator. */
  datatype EnvRequest = EnvRequest(
    authenticatorErrors: Option<seq<ErrorClass>>,
    endpointErrors: Option<seq<ErrorClass>>)

  /** A block run in the environment, given the request and one argument. */
  type Block = (EnvRequest, Value) -> Value

  /** `call(response, &block)`: nil without a block. */
  function Call(block: Option<Block>, req: EnvRequest, response: Value): (r: Value)
    ensures block.None? ==> r == Nil
    ensures block.Some? ==> r == block.value(req, response)
  {
    if block.None? then Nil else block.value(req, response)
  }

  /** `find { |e| e.definition.id == name }` over one list. */
  function FindIn(errors: seq<ErrorClass>, name: Value): (r: Option<ErrorClass>)
    ensures r.Some? ==> r.value in errors && Str(r.value.definitionId) == name
    ensures r.None? ==> forall e :: e in errors ==> Str(e.definitionId) != name
    ensures r.Some? ==> (exists i :: 0 <= i < |errors| && errors[i] == r.value
                           && forall j :: 0 <= j < i ==> Str(errors[j].definitionId) != name)
  {
    if |errors| == 0 then None
    else if Str(errors[0].definitionId) == name then Some(errors[0])
    else
      var r := FindIn(errors[1..], name);
      assert forall j :: 1 <= j < |errors| ==> errors[j] == errors[1..][j - 1];
      r
  }

  /** `find_error_by_name`: the authenticator's errors first, then the
      endpoint's; a missing collaborator offers none. */
  function FindErrorByName(req: EnvRequest, name: Value): (r: Option<ErrorClass>)
    ensures r.Some? ==> Str(r.value.definitionId) == name
    ensures r.Some? ==>
              || (req.authenticatorErrors.Some? && r.value in req.authenticatorErrors.value)
              || (req.endpointErrors.Some? && r.value in req.endpointErrors.value)
    ensures r.None? <==>
              (req.authenticatorErrors.None? || forall e :: e in req.authenticatorErrors.value ==> Str(e.definitionId) != name)
              && (req.endpointErrors.None? || forall e :: e in req.endpointErrors.value ==> Str(e.definitionId) != name)
    ensures req.authenticatorErrors.Some? && FindIn(req.authenticatorErrors.value, name).Some? ==>
              r == FindIn(req.authenticatorErrors.value, name)
  {
    var fromAuthenticator := if req.authenticatorErrors.Some? then FindIn(req.authenticatorErrors.value, name) else None;
    if fromAuthenticator.Some? then fromAuthenticator
    else if req.endpointErrors.Some? then FindIn(req.endpointErrors.value, name)
    else None
  }

  /** What `raise_error` raises. */
  datatype Raised =
    | RaisedClass(errorClass: Value, fields: Value)
    | RaisedDefined(error: ErrorClass, fields: Value)
    | RaisedRuntime(message: string)

  /** Whether a value is a class inheriting from the framework's error class. */
  predicate IsErrorClass(v: Value) {
    v.Class? && "Rapid::Error" in v.ancestors
  }

  /** `raise_error(error, fields)` */
  function RaiseError(req: EnvRequest, error: Value, fields: Value): (r: Raised)
    ensures IsErrorClass(error) ==> r == RaisedClass(error, fields)
    ensures r.RaisedDefined? ==> !IsErrorClass(error) && FindErrorByName(req, error) == Some(r.error) && r.fields == fields
    ensures r.RaisedRuntime? <==> !IsErrorClass(error) && FindErrorByName(req, error).None?
    ensures r.RaisedRuntime? ==> r.message == "No error defined named " + ToS(error)
  {
    if IsErrorClass(error) then RaisedClass(error, fields)
    else
      match FindErrorByName(req, error)
      case Some(e) => RaisedDefined(e, fields)
      case None => RaisedRuntime("No error defined named " + ToS(error))
  }

  /** An error class is raised as given, with the given fields. */
  lemma RaiseClass(req: EnvRequest, error: Value, fields: Value)
    requires IsErrorClass(error)
    ensures RaiseError(req, error, fields) == RaisedClass(error, fields)
  {
  }

  /** A name is looked up on the authenticator first: a match there wins
      whatever the endpoint declares. */
  lemma AuthenticatorFirst(req: EnvRequest, name: Value, fields: Value)
    requires !IsErrorClass(name)
    requires req.authenticatorErrors.Some?
    requires exists e :: e in req.authenticatorErrors.value && Str(e.definitionId) == name
    ensures RaiseError(req, name, fields) == RaisedDefined(FindIn(req.authenticatorErrors.value, name).value, fields)
  {
  }

  /** Without a match on the authenticator (or without an authenticator) the
      endpoint's first match is raised. */
  lemma EndpointSecond(req: EnvRequest, name: Value, fields: Value)
    requires !IsErrorClass(name)
    requires req.authenticatorErrors.None? || forall e :: e in req.authenticatorErrors.value ==> Str(e.definitionId) != name
    requires req.endpointErrors.Some?
    requires exists e :: e in req.endpointErrors.value && Str(e.definitionId) == name
    ensures RaiseError(req, name, fields) == RaisedDefined(FindIn(req.endpointErrors.value, name).value, fields)
  {
  }

  /** A name found nowhere raises a runtime error naming it. */
  lemma UnknownName(req: EnvRequest, name: Value, fields: Value)
    requires !IsErrorClass(name)
    requires req.authenticatorErrors.None? || forall e :: e in req.authenticatorErrors.value ==> Str(e.definitionId) != name
    requires req.endpointErrors.None? || forall e :: e in req.endpointErrors.value ==> Str(e.definitionId) != name
    ensures RaiseError(req, name, fields) == RaisedRuntime("No error defined named " + ToS(name))
  {
  }

  /** The first exact id match wins when ids repeat. */
  lemma FirstMatchExample()
    ensures FindIn([ErrorClass("A", "Api/NotFound"), ErrorClass("B", "Api/NotFound")], Str("Api/NotFound"))
         == Some(ErrorClass("A", "Api/NotFound"))
    ensures RaiseError(EnvRequest(None, Some([ErrorClass("C", "Api/Denied")])), Str("Api/Denied"), Nil)
         == RaisedDefined(ErrorClass("C", "Api/Denied"), Nil)
    ensures RaiseError(EnvRequest(None, None), Str("Nope"), Nil) == RaisedRuntime("No error defined named Nope")
  {
  }
}
