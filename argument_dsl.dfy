/** The `argument` method of the argument-set definition DSL
    (lib/apia/dsls/argument_set.rb): it builds one argument definition from
    the declaration and stores it in the set's definition. */
module ArgumentSetDsls {
  import opened Wrappers
  import opened OrderedMaps
  import opened Values
  import opened Schema

  /** A type as written in a declaration: nothing, a type, or an array
      literal `[T]` (whose first element is the element type). */
  datatype TypeToken = TypeNil | Single(t: TypeRef) | ArrayLiteral(elements: seq<TypeRef>)

  /** The keyword options that were passed; None where the key is absent.
      (Passing a key with nil gives the same definition as leaving it out.) */
  datatype ArgumentOptions = ArgumentOptions(required: Option<bool>, default: Option<Value>, description: Option<string>)

  /** `type = args[0] if type.nil?` */
  function EffectiveType(positional: seq<TypeToken>, typeKeyword: TypeToken): (t: TypeToken)
    ensures typeKeyword != TypeNil ==> t == typeKeyword
    ensures typeKeyword == TypeNil && |positional| > 0 ==> t == positional[0]
    ensures typeKeyword == TypeNil && |positional| == 0 ==> t == TypeNil
  {
    if typeKeyword != TypeNil then typeKeyword
    else if |positional| > 0 then positional[0]
    else TypeNil
  }

  /** The argument as declared, before the block runs: a fresh definition
      with the resolved type, array flag and the options that were given. */
  function Declared(setId: string, name: string, positional: seq<TypeToken>, typeKeyword: TypeToken,
                    options: ArgumentOptions, camelize: string -> string): (a: ArgumentDef)
    ensures a.name == name
    ensures a.id == setId + "/" + camelize(name) + "Argument"
    ensures var token := EffectiveType(positional, typeKeyword);
      && (a.isArray <==> token.ArrayLiteral?)
      && (token.Single? ==> a.argType == token.t)
      && (token.ArrayLiteral? && |token.elements| > 0 ==> a.argType == token.elements[0])
      && (token.TypeNil? ==> a.argType == NoType)
    ensures a.required == options.required.GetOr(false)
    ensures a.default == options.default.GetOr(Nil)
    ensures a.description == options.description
  {
    var token := EffectiveType(positional, typeKeyword);
    var (argType, isArray) :=
      match token
      case ArrayLiteral(elements) => (if |elements| > 0 then elements[0] else NoType, true)
      case Single(t) => (t, false)
      case TypeNil => (NoType, false);
    ArgumentDef(name, setId + "/" + camelize(name) + "Argument", argType, isArray,
                options.required.GetOr(false), options.default.GetOr(Nil), options.description,
                v => [])
  }

  /** The DSL object for one argument set definition. */
  class ArgumentSetDsl {
    var definition: ArgumentSetDef

    constructor(definition: ArgumentSetDef)
      ensures this.definition == definition
    {
      this.definition := definition;
    }

    /** `argument(name, *args, type:, **options, &block)`. `block` stands for
        the block run against the new argument's own DSL; `camelize` for
        `Helpers.camelize`. */
    method Argument(name: string, positional: seq<TypeToken>, typeKeyword: TypeToken, options: ArgumentOptions,
                    block: Option<ArgumentDef -> ArgumentDef>, camelize: string -> string)
      returns (a: ArgumentDef)
      modifies this
      ensures var declared := Declared(old(definition).id, name, positional, typeKeyword, options, camelize);
        a == if block.Some? then block.value(declared) else declared
      ensures definition == old(definition).(arguments := Put(old(definition).arguments, name, a))
    {
      a := Declared(definition.id, name, positional, typeKeyword, options, camelize);
      if block.Some? {
        a := block.value(a);
      }
      definition := definition.(arguments := Put(definition.arguments, name, a));
    }
  }

  /** Storing an argument under its own name keeps the definition's keys
      equal to the argument names and distinct; an earlier argument of the
      same name is replaced where it stood and every other one stays. */
  lemma {:induction false} StoreKeepsKeyed(args: OMap<string, ArgumentDef>, a: ArgumentDef)
    requires ArgumentsKeyed(args)
    ensures ArgumentsKeyed(Put(args, a.name, a))
    ensures Get(Put(args, a.name, a), a.name) == Some(a)
    ensures forall k :: k != a.name ==> Get(Put(args, a.name, a), k) == Get(args, k)
    ensures HasKey(args, a.name) ==> Keys(Put(args, a.name, a)) == Keys(args)
    ensures !HasKey(args, a.name) ==> Put(args, a.name, a) == args + [(a.name, a)]
  {
    PutUnique(args, a.name, a);
    PutEntries(args, a.name, a);
    forall k | k != a.name ensures Get(Put(args, a.name, a), k) == Get(args, k) {
      PutOther(args, a.name, a, k);
    }
    if HasKey(args, a.name) {
      PutKeepsKeys(args, a.name, a);
    } else {
      PutNew(args, a.name, a);
    }
  }

  /** Every entry of `Put(m, k, v)` is either the new one or an entry of `m`. */
  lemma {:induction false} PutEntries(m: OMap<string, ArgumentDef>, k: string, v: ArgumentDef)
    requires forall i :: 0 <= i < |m| ==> m[i].0 == m[i].1.name
    requires v.name == k
    ensures forall i :: 0 <= i < |Put(m, k, v)| ==> Put(m, k, v)[i].0 == Put(m, k, v)[i].1.name
  {
    if |m| > 0 && m[0].0 != k {
      PutEntries(m[1..], k, v);
      var r := Put(m[1..], k, v);
      assert Put(m, k, v) == [m[0]] + r;
      assert forall i :: 1 <= i < |Put(m, k, v)| ==> Put(m, k, v)[i] == r[i - 1];
    }
  }

  /** Declaring the same name twice leaves one argument, the later one. */
  lemma RedeclarationReplaces(args: OMap<string, ArgumentDef>, first: ArgumentDef, second: ArgumentDef)
    requires ArgumentsKeyed(args) && first.name == second.name
    ensures var once := Put(args, first.name, first);
      var twice := Put(once, second.name, second);
      Get(twice, second.name) == Some(second) && |twice| == |once| && Keys(twice) == Keys(once)
  {
    StoreKeepsKeyed(args, first);
    var once := Put(args, first.name, first);
    StoreKeepsKeyed(once, second);
  }
}
