/** The Ruby values that flow through the engines: raw request input, the
    objects being serialised, parsed arguments and generated output. */
module Values {
  import opened Wrappers
  import opened OrderedMaps

  datatype Value =
    | Nil
    | Bool(b: bool)
    | Int(i: int)
    /** A Float, as the exact real it stands for (rounding is not modelled). */
    | Float(r: real)
    | Str(s: string)
    | Sym(name: string)
    | Arr(items: seq<Value>)
    /** A Hash; keys are any values, usually strings or symbols. */
    | Hash(entries: OMap<Value, Value>)
    /** Any other object, seen through the reader methods it answers. */
    | Obj(readers: OMap<string, Value>)
    /** A parsed argument set, seen through its symbol-keyed source. */
    | ArgSet(source: OMap<string, Value>)
    /** A block or lambda, identified by an opaque number. */
    | Proc(id: nat)
    /** A class, with the names of all its ancestors. */
    | Class(name: string, ancestors: seq<string>)
    /** `ArgumentSet::MissingValue.singleton`: "absent", as opposed to nil. */
    | Missing

  /** Ruby truthiness: everything but nil and false. */
  predicate Truthy(v: Value) {
    !(v.Nil? || v == Bool(false))
  }

  /** One step of the path from a response's root to a serialised value. */
  datatype PathSeg = FieldSeg(field: string) | IndexSeg(index: nat)

  /** What the engines read of an incoming request. `routeArguments` is what
      the matched route extracts from the request path (None: no route);
      `includeField` is the endpoint's sparse-fieldset test (None: no
      endpoint). Both are computed by collaborators outside this model. */
  datatype Request = Request(
    routeArguments: Option<OMap<string, Value>>,
    includeField: Option<seq<PathSeg> -> bool>)

  function DigitChar(d: nat): char
    requires d < 10
  {
    "0123456789"[d]
  }

  /** Decimal digits of a natural number, as `Integer#to_s` writes them. */
  function NatToString(n: nat): (s: string)
    ensures |s| > 0
    ensures forall i :: 0 <= i < |s| ==> '0' <= s[i] <= '9'
    decreases n
  {
    if n < 10 then [DigitChar(n)] else NatToString(n / 10) + [DigitChar(n % 10)]
  }

  function IntToString(i: int): string {
    if i < 0 then "-" + NatToString(-i) else NatToString(i)
  }

  /** Values whose `to_s` and `inspect` the model spells out. */
  predicate Stringable(v: Value) {
    v.Nil? || v.Bool? || v.Int? || v.Str? || v.Sym? || v.Class?
  }

  /** The spelling the model gives every other value (floats, arrays,
      hashes, objects, blocks, the absent marker). */
  const Unspelled: string := "#<value>"

  /** `to_s` */
  function ToS(v: Value): (s: string)
    ensures v.Nil? ==> s == ""
    ensures v.Str? ==> s == v.s
    ensures v.Sym? ==> s == v.name
    ensures !Stringable(v) ==> s == Unspelled
  {
    match v
    case Nil => ""
    case Bool(b) => if b then "true" else "false"
    case Int(i) => IntToString(i)
    case Str(s) => s
    case Sym(n) => n
    case Class(n, _) => n
    case _ => Unspelled
  }

  /** `inspect` */
  function Inspect(v: Value): (s: string)
    ensures v.Str? ==> |s| == |v.s| + 2 && s[0] == '"' && s[|s| - 1] == '"' && s[1..|s| - 1] == v.s
    ensures v.Sym? ==> s == ":" + ToS(v)
    ensures v.Nil? ==> s == "nil"
    ensures !(v.Nil? || v.Str? || v.Sym?) ==> s == ToS(v)
  {
    match v
    case Nil => "nil"
    case Str(s) => "\"" + s + "\""
    case Sym(n) => ":" + n
    case _ => ToS(v)
  }
}
