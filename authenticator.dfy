/** An authenticator's class-level behaviour: whether a list of scopes is
    authorised by its scope validator, and the classes it hands to an
    object set. */
module Authenticators {
  import opened Wrappers
  import opened Values
  import opened Environments
  import ObjectSets

  /** What these operations read of an authenticator's definition. */
  datatype AuthenticatorDef = AuthenticatorDef(
    scopeValidator: Option<Block>,
    potentialErrors: seq<ErrorClass>)

  /** `scopes.any? { |s| environment.call(s, &validator) }` from `k` on. */
  function AnyScopeFrom(validator: Block, req: EnvRequest, scopes: seq<Value>, k: nat): (r: bool)
    requires k <= |scopes|
    ensures r <==> exists i :: k <= i < |scopes| && Truthy(Call(Some(validator), req, scopes[i]))
    decreases |scopes| - k
  {
    if k == |scopes| then false
    else Truthy(Call(Some(validator), req, scopes[k])) || AnyScopeFrom(validator, req, scopes, k + 1)
  }

  /** `authorized_scope?(environment, scopes)` */
  function AuthorizedScope(def: AuthenticatorDef, req: EnvRequest, scopes: seq<Value>): (r: bool)
    ensures def.scopeValidator.None? ==> r
    ensures |scopes| == 0 ==> r
    ensures def.scopeValidator.Some? && |scopes| > 0 ==>
              (r <==> exists i :: 0 <= i < |scopes| && Truthy(Call(def.scopeValidator, req, scopes[i])))
  {
    if def.scopeValidator.None? then true
    else if |scopes| == 0 then true
    else AnyScopeFrom(def.scopeValidator.value, req, scopes, 0)
  }

  /** One accepted scope is enough, wherever it is in the list; with every
      scope rejected the list is refused. */
  lemma AuthorizedScopeExamples(req: EnvRequest)
    ensures var onlyAdmin := AuthenticatorDef(Some((r: EnvRequest, s: Value) => Bool(s == Str("admin"))), []);
            AuthorizedScope(onlyAdmin, req, [Str("read"), Str("admin")])
            && !AuthorizedScope(onlyAdmin, req, [Str("read"), Str("write")])
            && AuthorizedScope(onlyAdmin, req, [])
            && AuthorizedScope(AuthenticatorDef(None, []), req, [Str("read")])
  {
    var onlyAdmin := AuthenticatorDef(Some((r: EnvRequest, s: Value) => Bool(s == Str("admin"))), []);
    assert Truthy(Call(onlyAdmin.scopeValidator, req, [Str("read"), Str("admin")][1]));
  }

  /** The ids `collate_objects` adds: every potential error, in order. */
  function ErrorIds(errors: seq<ErrorClass>): (ids: seq<string>)
    ensures |ids| == |errors|
    ensures forall i :: 0 <= i < |errors| ==> ids[i] == errors[i].definitionId
  {
    seq(|errors|, i requires 0 <= i < |errors| => errors[i].definitionId)
  }

  /** `collate_objects(set)` */
  method CollateObjects(def: AuthenticatorDef, objects: ObjectSets.ObjectSet)
    modifies objects
    ensures objects.added == old(objects.added) + ErrorIds(def.potentialErrors)
  {
    var errors := def.potentialErrors;
    var i := 0;
    while i < |errors|
      invariant 0 <= i <= |errors|
      invariant objects.added == old(objects.added) + ErrorIds(errors[..i])
    {
      assert ErrorIds(errors[..i + 1]) == ErrorIds(errors[..i]) + [errors[i].definitionId];
      objects.AddObject(errors[i].definitionId);
      i := i + 1;
    }
    assert errors[..i] == errors;
  }
}
