/** The definition of an authenticator and the manifest check that reports
    a missing or unknown type, a missing or non-block action and every
    potential error that is not an error class. */
module AuthenticatorDefinitions {
  import opened Values
  import opened Manifests
  import FieldSets

  /** `TYPES` */
  const Types: seq<Value> := [Sym("bearer")]

  /** `TYPES.join(', ')` */
  function TypesText(): string {
    FieldSets.Join(seq(|Types|, i requires 0 <= i < |Types| => ToS(Types[i])), ", ")
  }

  /** Whether a potential error is a class inheriting from the framework's
      error class. */
  predicate IsErrorClass(v: Value) {
    v.Class? && "APeye::Error" in v.ancestors
  }

  const MissingTypeMessage := "A type must be defined for authenticators"
  const MissingActionMessage := "An action must be defined for authenticators"
  const InvalidActionMessage := "The action provided must be a Proc"

  function InvalidTypeMessage(t: Value): string {
    "The type must be one of " + TypesText() + " (was: " + Inspect(t) + ")"
  }

  /** The errors the type check reports. */
  function TypeErrors(objectId: string, t: Value): (errs: seq<ManifestError>)
    ensures |errs| <= 1
    ensures errs == [] <==> t in Types
    ensures forall e :: e in errs ==> e.objectId == objectId
  {
    if t.Nil? then [ManifestError(objectId, "MissingType", MissingTypeMessage)]
    else if t !in Types then [ManifestError(objectId, "InvalidType", InvalidTypeMessage(t))]
    else []
  }

  /** The errors the action check reports. */
  function ActionErrors(objectId: string, action: Value): (errs: seq<ManifestError>)
    ensures |errs| <= 1
    ensures errs == [] <==> action.Proc?
    ensures forall e :: e in errs ==> e.objectId == objectId
  {
    if action.Nil? then [ManifestError(objectId, "MissingAction", MissingActionMessage)]
    else if !action.Proc? then [ManifestError(objectId, "InvalidAction", InvalidActionMessage)]
    else []
  }

  function PotentialErrorMessage(index: nat): string {
    "Potential error at index " + NatToString(index) + " must be a class that inherits from APeye::Error"
  }

  /** The errors reported for the first `n` potential errors, in order. */
  function PotentialErrorErrors(objectId: string, pes: seq<Value>, n: nat): (errs: seq<ManifestError>)
    requires n <= |pes|
    ensures |errs| <= n
    ensures forall e :: e in errs ==> e.objectId == objectId && e.code == "InvalidPotentialError"
  {
    if n == 0 then []
    else PotentialErrorErrors(objectId, pes, n - 1)
         + (if IsErrorClass(pes[n - 1]) then [] else [ManifestError(objectId, "InvalidPotentialError", PotentialErrorMessage(n - 1))])
  }

  /** Everything `validate` reports, in the order it reports it. */
  function ExpectedErrors(objectId: string, t: Value, action: Value, pes: seq<Value>): (errs: seq<ManifestError>)
    ensures |errs| <= 2 + |pes|
    ensures errs == [] <==> t in Types && action.Proc? && forall j :: 0 <= j < |pes| ==> IsErrorClass(pes[j])
    ensures forall e :: e in errs ==> e.objectId == objectId
  {
    PotentialErrorsNone(objectId, pes, |pes|);
    TypeErrors(objectId, t) + ActionErrors(objectId, action) + PotentialErrorErrors(objectId, pes, |pes|)
  }

  function Codes(errs: seq<ManifestError>): (cs: seq<string>)
    ensures |cs| == |errs|
    ensures forall i :: 0 <= i < |errs| ==> cs[i] == errs[i].code
  {
    seq(|errs|, i requires 0 <= i < |errs| => errs[i].code)
  }

  class AuthenticatorDefinition {
    var name: string
    var authType: Value
    var action: Value
    var potentialErrors: seq<Value>

    /** `initialize(name)` */
    constructor(name: string)
      ensures this.name == name && authType == Nil && action == Nil && potentialErrors == []
    {
      this.name := name;
      authType := Nil;
      action := Nil;
      potentialErrors := [];
    }

    /** `validate(errors)`: the type check, the action check and the
        potential-error loop, in that order. */
    method Validate(errors: ManifestErrors)
      modifies errors
      ensures errors.errors == old(errors.errors) + ExpectedErrors(name, authType, action, potentialErrors)
    {
      ghost var before := errors.errors;
      ValidateType(errors);
      ValidateAction(errors);
      ValidatePotentialErrors(errors);
      AppendThree(before, TypeErrors(name, authType), ActionErrors(name, action),
                  PotentialErrorErrors(name, potentialErrors, |potentialErrors|));
    }

    method ValidateType(errors: ManifestErrors)
      modifies errors
      ensures errors.errors == old(errors.errors) + TypeErrors(name, authType)
    {
      if authType.Nil? {
        errors.Add(name, "MissingType", MissingTypeMessage);
      } else if authType !in Types {
        errors.Add(name, "InvalidType", InvalidTypeMessage(authType));
      }
    }

    method ValidateAction(errors: ManifestErrors)
      modifies errors
      ensures errors.errors == old(errors.errors) + ActionErrors(name, action)
    {
      if action.Nil? {
        errors.Add(name, "MissingAction", MissingActionMessage);
      } else if !action.Proc? {
        errors.Add(name, "InvalidAction", InvalidActionMessage);
      }
    }

    method ValidatePotentialErrors(errors: ManifestErrors)
      modifies errors
      ensures errors.errors == old(errors.errors) + PotentialErrorErrors(name, potentialErrors, |potentialErrors|)
    {
      var i := 0;
      while i < |potentialErrors|
        invariant 0 <= i <= |potentialErrors|
        invariant errors.errors == old(errors.errors) + PotentialErrorErrors(name, potentialErrors, i)
      {
        PotentialErrorStep(name, potentialErrors, i + 1);
        if !IsErrorClass(potentialErrors[i]) {
          errors.Add(name, "InvalidPotentialError", PotentialErrorMessage(i));
        }
        i := i + 1;
      }
    }
  }

  lemma AppendThree(o: seq<ManifestError>, a: seq<ManifestError>, b: seq<ManifestError>, c: seq<ManifestError>)
    ensures o + a + b + c == o + (a + b + c)
  {
  }

  /** The type check: a nil type is reported missing and never invalid; any
      other type outside `TYPES` is reported invalid; at most one of the two. */
  lemma TypeChecked(objectId: string, t: Value)
    ensures "MissingType" in Codes(TypeErrors(objectId, t)) <==> t.Nil?
    ensures "InvalidType" in Codes(TypeErrors(objectId, t)) <==> !t.Nil? && t !in Types
    ensures |TypeErrors(objectId, t)| <= 1
    ensures forall c :: c in Codes(TypeErrors(objectId, t)) ==> c == "MissingType" || c == "InvalidType"
  {
    var te := TypeErrors(objectId, t);
    if te != [] {
      assert Codes(te)[0] == te[0].code;
    }
  }

  /** The action check: a nil action is reported missing and never invalid;
      any other non-block is reported invalid; at most one of the two. */
  lemma ActionChecked(objectId: string, action: Value)
    ensures "MissingAction" in Codes(ActionErrors(objectId, action)) <==> action.Nil?
    ensures "InvalidAction" in Codes(ActionErrors(objectId, action)) <==> !action.Nil? && !action.Proc?
    ensures |ActionErrors(objectId, action)| <= 1
    ensures forall c :: c in Codes(ActionErrors(objectId, action)) ==> c == "MissingAction" || c == "InvalidAction"
  {
    var ae := ActionErrors(objectId, action);
    if ae != [] {
      assert Codes(ae)[0] == ae[0].code;
    }
  }

  /** Every potential-error report names the index of an entry that is not
      an error class. */
  lemma {:induction false} PotentialErrorsSound(objectId: string, pes: seq<Value>, n: nat)
    requires n <= |pes|
    ensures forall e :: e in PotentialErrorErrors(objectId, pes, n) ==>
              exists j :: 0 <= j < n && !IsErrorClass(pes[j])
                          && e == ManifestError(objectId, "InvalidPotentialError", PotentialErrorMessage(j))
  {
    if n > 0 {
      PotentialErrorsSound(objectId, pes, n - 1);
      PotentialErrorStep(objectId, pes, n);
    }
  }

  /** Every entry that is not an error class is reported, by its index. */
  lemma {:induction false} PotentialErrorsComplete(objectId: string, pes: seq<Value>, n: nat)
    requires n <= |pes|
    ensures forall j :: 0 <= j < n && !IsErrorClass(pes[j]) ==>
              ManifestError(objectId, "InvalidPotentialError", PotentialErrorMessage(j)) in PotentialErrorErrors(objectId, pes, n)
  {
    if n > 0 {
      PotentialErrorsComplete(objectId, pes, n - 1);
      PotentialErrorStep(objectId, pes, n);
    }
  }

  /** Nothing is reported iff every entry is an error class. */
  lemma {:induction false} PotentialErrorsNone(objectId: string, pes: seq<Value>, n: nat)
    requires n <= |pes|
    ensures PotentialErrorErrors(objectId, pes, n) == [] <==> forall j :: 0 <= j < n ==> IsErrorClass(pes[j])
  {
    if n > 0 {
      PotentialErrorsNone(objectId, pes, n - 1);
      PotentialErrorStep(objectId, pes, n);
    }
  }

  /** Reports for distinct indices carry distinct messages. */
  lemma PotentialErrorMessagesDistinct(i: nat, j: nat)
    requires PotentialErrorMessage(i) == PotentialErrorMessage(j)
    ensures i == j
  {
    var pre, suf := "Potential error at index ", " must be a class that inherits from APeye::Error";
    var si, sj := NatToString(i), NatToString(j);
    assert |si| == |sj|;
    assert si == PotentialErrorMessage(i)[|pre|..|pre| + |si|];
    assert sj == PotentialErrorMessage(j)[|pre|..|pre| + |sj|];
    NatToStringInjective(i, j);
  }

  /** One more potential error adds a report exactly when it is not an error class. */
  lemma PotentialErrorStep(objectId: string, pes: seq<Value>, n: nat)
    requires 0 < n <= |pes|
    ensures PotentialErrorErrors(objectId, pes, n) == PotentialErrorErrors(objectId, pes, n - 1)
              + (if IsErrorClass(pes[n - 1]) then [] else [ManifestError(objectId, "InvalidPotentialError", PotentialErrorMessage(n - 1))])
  {
  }

  /** Distinct digits have distinct characters. */
  lemma DigitCharInjective(a: nat, b: nat)
    requires a < 10 && b < 10 && DigitChar(a) == DigitChar(b)
    ensures a == b
  {
  }

  /** A number from ten up has at least two digits. */
  lemma LongNumeral(n: nat)
    ensures n >= 10 ==> |NatToString(n)| >= 2
    ensures n < 10 ==> |NatToString(n)| == 1
  {
  }

  /** Distinct indices give distinct messages. */
  lemma {:induction false} NatToStringInjective(a: nat, b: nat)
    requires NatToString(a) == NatToString(b)
    ensures a == b
    decreases a
  {
    LongNumeral(a);
    LongNumeral(b);
    if a < 10 && b < 10 {
      DigitCharInjective(a, b);
    } else if a >= 10 && b >= 10 {
      var sa, sb := NatToString(a), NatToString(b);
      var pa, pb := NatToString(a / 10), NatToString(b / 10);
      assert sa == pa + [DigitChar(a % 10)] && sb == pb + [DigitChar(b % 10)];
      assert pa == sa[..|sa| - 1] && pb == sb[..|sb| - 1];
      NatToStringInjective(a / 10, b / 10);
      DigitCharInjective(a % 10, b % 10);
    }
    // Otherwise one numeral is a single digit and the other is longer.
  }

  lemma CodesAppend(a: seq<ManifestError>, b: seq<ManifestError>)
    ensures Codes(a + b) == Codes(a) + Codes(b)
  {
  }

  /** Every potential-error report carries the same code, and there is one
      iff some potential error is not an error class. */
  lemma {:induction false} PotentialErrorCodes(objectId: string, pes: seq<Value>, n: nat)
    requires n <= |pes|
    ensures forall c :: c in Codes(PotentialErrorErrors(objectId, pes, n)) ==> c == "InvalidPotentialError"
    ensures "InvalidPotentialError" in Codes(PotentialErrorErrors(objectId, pes, n))
            <==> exists j :: 0 <= j < n && !IsErrorClass(pes[j])
  {
    if n > 0 {
      PotentialErrorCodes(objectId, pes, n - 1);
      PotentialErrorStep(objectId, pes, n);
      var last := if IsErrorClass(pes[n - 1]) then [] else [ManifestError(objectId, "InvalidPotentialError", PotentialErrorMessage(n - 1))];
      CodesAppend(PotentialErrorErrors(objectId, pes, n - 1), last);
      if !IsErrorClass(pes[n - 1]) {
        assert Codes(last) == ["InvalidPotentialError"];
      } else {
        assert Codes(last) == [];
      }
    }
  }

  /** Which codes `validate` reports, each independently of the others. */
  lemma ValidateCodes(objectId: string, t: Value, action: Value, pes: seq<Value>)
    ensures var cs := Codes(ExpectedErrors(objectId, t, action, pes));
            && ("MissingType" in cs <==> t.Nil?)
            && ("InvalidType" in cs <==> !t.Nil? && t !in Types)
            && ("MissingAction" in cs <==> action.Nil?)
            && ("InvalidAction" in cs <==> !action.Nil? && !action.Proc?)
            && ("InvalidPotentialError" in cs <==> exists j :: 0 <= j < |pes| && !IsErrorClass(pes[j]))
  {
    var te, ae, pe := TypeErrors(objectId, t), ActionErrors(objectId, action), PotentialErrorErrors(objectId, pes, |pes|);
    TypeChecked(objectId, t);
    ActionChecked(objectId, action);
    PotentialErrorCodes(objectId, pes, |pes|);
    CodesAppend(te, ae);
    CodesAppend(te + ae, pe);
    CodesSplit(Codes(te), Codes(ae), Codes(pe));
  }

  /** The three checks report disjoint sets of codes. */
  lemma CodesSplit(tc: seq<string>, ac: seq<string>, pc: seq<string>)
    requires forall c :: c in tc ==> c == "MissingType" || c == "InvalidType"
    requires forall c :: c in ac ==> c == "MissingAction" || c == "InvalidAction"
    requires forall c :: c in pc ==> c == "InvalidPotentialError"
    ensures "MissingType" in tc + ac + pc <==> "MissingType" in tc
    ensures "InvalidType" in tc + ac + pc <==> "InvalidType" in tc
    ensures "MissingAction" in tc + ac + pc <==> "MissingAction" in ac
    ensures "InvalidAction" in tc + ac + pc <==> "InvalidAction" in ac
    ensures "InvalidPotentialError" in tc + ac + pc <==> "InvalidPotentialError" in pc
  {
  }

  /** A bearer type, a block action and error classes only: nothing is
      reported. */
  lemma ValidDefinitionClean(objectId: string, action: Value, pes: seq<Value>)
    requires action.Proc?
    requires forall j :: 0 <= j < |pes| ==> IsErrorClass(pes[j])
    ensures ExpectedErrors(objectId, Sym("bearer"), action, pes) == []
  {
    PotentialErrorsNone(objectId, pes, |pes|);
  }

  /** With `bearer` the only type, the list of types reads `bearer`. */
  lemma TypesTextBearer()
    ensures TypesText() == "bearer"
  {
    var names := seq(|Types|, i requires 0 <= i < |Types| => ToS(Types[i]));
    assert names == ["bearer"];
  }

  /** The type message names the offending value as `inspect` writes it. */
  lemma InvalidTypeExample(objectId: string)
    ensures TypeErrors(objectId, Sym("invalid"))
         == [ManifestError(objectId, "InvalidType", "The type must be one of " + "bearer" + " (was: " + ":invalid" + ")")]
  {
    TypesTextBearer();
    assert Inspect(Sym("invalid")) == ":invalid";
  }

  /** Only the entry that is not an error class is reported, by its index. */
  lemma InvalidPotentialErrorExample(objectId: string)
    ensures PotentialErrorErrors(objectId, [Class("MyError", ["APeye::Error"]), Class("MyController", [])], 2)
         == [ManifestError(objectId, "InvalidPotentialError", "Potential error at index " + "1" + " must be a class that inherits from APeye::Error")]
  {
    var pes := [Class("MyError", ["APeye::Error"]), Class("MyController", [])];
    assert IsErrorClass(pes[0]) && !IsErrorClass(pes[1]);
    assert PotentialErrorErrors(objectId, pes, 1) == [];
    assert NatToString(1) == "1";
    assert PotentialErrorMessage(1) == "Potential error at index " + "1" + " must be a class that inherits from APeye::Error";
  }
}
