/** A response under construction: status, fields and headers set by the
    endpoint's action, and the body rendered from the endpoint's field set
    once, on first demand. */
module Responses {
  import opened Wrappers
  import opened OrderedMaps
  import opened Values
  import opened Schema
  import opened FieldSets

  /** What a response reads of its endpoint's definition. */
  datatype EndpointDef = EndpointDef(httpStatusCode: int, fields: FieldSetDef)

  /** `name.to_sym` for the names fields are added under. */
  function ToSym(name: Value): (r: Value)
    requires name.Str? || name.Sym?
    ensures r.Sym?
    ensures name.Sym? ==> r == name
    ensures name.Str? ==> r.name == name.s
  {
    if name.Str? then Sym(name.s) else name
  }

  class Response {
    const request: Option<Request>
    const endpoint: EndpointDef
    var status: int
    /** The field values, under symbol keys. */
    var fields: OMap<Value, Value>
    var headers: OMap<string, Option<string>>
    /** What the body writer stored, nil until then. */
    var body: Value
    /** The rendered hash, once it has been rendered. */
    var hashMemo: Option<Value>

    /** `initialize(request, endpoint)` */
    constructor(request: Option<Request>, endpoint: EndpointDef)
      ensures this.request == request && this.endpoint == endpoint
      ensures status == endpoint.httpStatusCode
      ensures fields == [] && headers == []
      ensures body == Nil && hashMemo == None
    {
      this.request := request;
      this.endpoint := endpoint;
      status := endpoint.httpStatusCode;
      fields := [];
      headers := [];
      body := Nil;
      hashMemo := None;
    }

    /** `add_field(name, value)`: stored under the symbol key, replacing
        only that key. */
    method AddField(name: Value, value: Value)
      requires name.Str? || name.Sym?
      modifies this
      ensures fields == Put(old(fields), ToSym(name), value)
      ensures status == old(status) && headers == old(headers) && body == old(body) && hashMemo == old(hashMemo)
    {
      fields := Put(fields, ToSym(name), value);
    }

    /** `add_header(name, value)`: name and value stringified; a nil value
        stays nil. */
    method AddHeader(name: Value, value: Value)
      modifies this
      ensures headers == Put(old(headers), ToS(name), if value.Nil? then None else Some(ToS(value)))
      ensures status == old(status) && fields == old(fields) && body == old(body) && hashMemo == old(hashMemo)
    {
      headers := Put(headers, ToS(name), if value.Nil? then None else Some(ToS(value)));
    }

    /** `body=` */
    method SetBody(value: Value)
      modifies this
      ensures body == value
      ensures status == old(status) && fields == old(fields) && headers == old(headers) && hashMemo == old(hashMemo)
    {
      body := value;
    }

    /** `hash`: the endpoint's field set over the fields added so far,
        rendered on first success and answered from the memo afterwards. */
    method Hash() returns (r: Result<Value, SerializeError>)
      modifies this
      ensures old(hashMemo).Some? ==> r == Ok(old(hashMemo).value) && hashMemo == old(hashMemo)
      ensures old(hashMemo).None? ==>
                r == GenerateHash(endpoint.fields, Values.Hash(fields), request, [])
                && hashMemo == (if r.Ok? then Some(r.value) else None)
      ensures status == old(status) && fields == old(fields) && headers == old(headers) && body == old(body)
    {
      if hashMemo.Some? {
        r := Ok(hashMemo.value);
      } else {
        r := GenerateHash(endpoint.fields, Values.Hash(fields), request, []);
        if r.Ok? {
          hashMemo := Some(r.value);
        }
      }
    }

    /** `body`: the stored body when it is truthy, else `hash`. */
    method Body() returns (r: Result<Value, SerializeError>)
      modifies this
      ensures Truthy(old(body)) ==> r == Ok(old(body)) && hashMemo == old(hashMemo)
      ensures !Truthy(old(body)) && old(hashMemo).Some? ==> r == Ok(old(hashMemo).value)
      ensures !Truthy(old(body)) && old(hashMemo).None? ==>
                r == GenerateHash(endpoint.fields, Values.Hash(fields), request, [])
      ensures old(hashMemo).Some? ==> hashMemo == old(hashMemo)
      ensures !Truthy(old(body)) && old(hashMemo).None? ==> hashMemo == (if r.Ok? then Some(r.value) else None)
      ensures status == old(status) && fields == old(fields) && headers == old(headers) && body == old(body)
    {
      if Truthy(body) {
        r := Ok(body);
      } else {
        r := Hash();
      }
    }
  }

  /** Once rendered, the hash is not changed by fields added later. */
  method HashIgnoresLaterFields(resp: Response, name: Value, value: Value) returns (first: Result<Value, SerializeError>, second: Result<Value, SerializeError>)
    requires name.Str? || name.Sym?
    modifies resp
    ensures first.Ok? ==> second == first
  {
    first := resp.Hash();
    resp.AddField(name, value);
    second := resp.Hash();
  }
}
