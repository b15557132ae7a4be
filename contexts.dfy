/**
 * The naming environment: a LocalContext owns the Variables of one
 * evaluation frame, keyed by identifier; a GlobalContext holds the table of
 * builtin functions fixed at construction.
 */
module Contexts {
  import opened Values

  /** A named slot holding one Value; the evaluator may reassign the value in place. */
  class Variable {
    const name: string
    var value: Value

    constructor (name: string, value: Value)
      ensures this.name == name && this.value == value
    {
      this.name := name;
      this.value := value;
    }
  }

  class LocalContext {
    var vars: map<string, Variable>

    /** Every binding is filed under its Variable's own name. */
    ghost predicate Valid()
      reads this
    {
      forall n :: n in vars ==> vars[n].name == n
    }

    /** The value currently bound to each identifier. */
    ghost function Bindings(): map<string, Value>
      reads this, vars.Values
    {
      map n | n in vars :: vars[n].value
    }

    constructor ()
      ensures Valid() && vars == map[] && Bindings() == map[]
    {
      vars := map[];
    }

    /** `LocalContext::hasVariable` */
    method HasVariable(name: string) returns (bound: bool)
      ensures bound <==> name in vars
    {
      bound := name in vars;
    }

    /** `LocalContext::findVariable`: the bound Variable, or null when `name` is unbound. */
    method FindVariable(name: string) returns (found: Variable?)
      requires Valid()
      ensures found == null <==> name !in vars
      ensures found != null ==> found == vars[name] && found.name == name
      ensures found != null ==> found.value == Bindings()[name]
    {
      if name in vars {
        found := vars[name];
      } else {
        found := null;
      }
    }

    /**
     * `LocalContext::addVariable`. A fresh Variable is allocated every time,
     * but the insertion (`emplace`) leaves an existing binding in place, so
     * rebinding a name changes nothing.
     */
    method AddVariable(name: string, value: Value)
      requires Valid()
      modifies this
      ensures Valid()
      ensures name in old(vars) ==> vars == old(vars) && Bindings() == old(Bindings())
      ensures name !in old(vars) ==>
        && name in vars && fresh(vars[name])
        && vars == old(vars)[name := vars[name]]
        && Bindings() == old(Bindings())[name := value]
    {
      var v := new Variable(name, value);
      if name !in vars {
        vars := vars[name := v];
      }
    }

    /** `LocalContext::removeVariable`: true exactly when `name` was bound; it is unbound afterwards. */
    method RemoveVariable(name: string) returns (removed: bool)
      requires Valid()
      modifies this
      ensures Valid()
      ensures removed <==> name in old(vars)
      ensures vars == old(vars) - {name}
      ensures Bindings() == old(Bindings()) - {name}
    {
      removed := name in vars;
      vars := vars - {name};
    }
  }

  /**
   * Binding `x` to 1 and then to 2 leaves `x` bound to 1; removing an absent
   * name reports false and leaves `x` in place.
   */
  method RebindingKeepsFirstBinding() returns (x: Value, removedMissing: bool, stillBound: bool)
    ensures x == Int(1)
    ensures !removedMissing && stillBound
  {
    var ctx := new LocalContext();
    ctx.AddVariable("x", Int(1));
    ctx.AddVariable("x", Int(2));
    var v := ctx.FindVariable("x");
    x := v.value;
    removedMissing := ctx.RemoveVariable("missing");
    stillBound := ctx.HasVariable("x");
  }

  /** The native functions the builtin table refers to. */
  datatype Builtin = NyxPrint | NyxTypeof | NyxInput

  class GlobalContext {
    var builtin: map<string, Builtin>

    /** `GlobalContext::GlobalContext`: registers `print`, `typeof` and `input`, and nothing else. */
    constructor ()
      ensures builtin.Keys == {"print", "typeof", "input"}
      ensures builtin["print"] == NyxPrint
      ensures builtin["typeof"] == NyxTypeof
      ensures builtin["input"] == NyxInput
    {
      var table := map[];
      table := table["print" := NyxPrint];
      table := table["typeof" := NyxTypeof];
      table := table["input" := NyxInput];
      builtin := table;
    }
  }
}
