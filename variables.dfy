/** Job and template variables: the variant a variable object carries, its
    name, value and kind, and resolving a dotted reference such as
    `$warp.variable.price` against a list of variables. */
module Variables {
  import opened Wrappers
  import opened Text

  /** The fields every variable variant carries. */
  datatype VarBody = VarBody(kind: string, name: string, value: Option<string>)

  /** A variable object: which of the keys `static`, `external` and `query`
      it has, each with its body. */
  datatype VariableObject = VariableObject(staticVar: Option<VarBody>, externalVar: Option<VarBody>, queryVar: Option<VarBody>)

  /** A variable object has at least one of the three keys. */
  type Variable = v: VariableObject | v.staticVar.Some? || v.externalVar.Some? || v.queryVar.Some?
    witness VariableObject(None, None, Some(VarBody("", "", None)))

  function StaticVariable(b: VarBody): Variable { VariableObject(Some(b), None, None) }
  function ExternalVariable(b: VarBody): Variable { VariableObject(None, Some(b), None) }
  function QueryVariable(b: VarBody): Variable { VariableObject(None, None, Some(b)) }

  /** The name of the `static` body if present, else of the `external` body,
      else of the `query` body. */
  function VariableName(v: Variable): string {
    if v.staticVar.Some? then v.staticVar.value.name
    else if v.externalVar.Some? then v.externalVar.value.name
    else v.queryVar.value.name
  }

  function VariableValue(v: Variable): Option<string> {
    if v.staticVar.Some? then v.staticVar.value.value
    else if v.externalVar.Some? then v.externalVar.value.value
    else v.queryVar.value.value
  }

  function VariableKind(v: Variable): string {
    if v.staticVar.Some? then v.staticVar.value.kind
    else if v.externalVar.Some? then v.externalVar.value.kind
    else v.queryVar.value.kind
  }

  /** A variable of a single variant reads back that variant's fields. */
  lemma AccessorsOfVariant(b: VarBody)
    ensures VariableName(StaticVariable(b)) == b.name && VariableValue(StaticVariable(b)) == b.value && VariableKind(StaticVariable(b)) == b.kind
    ensures VariableName(ExternalVariable(b)) == b.name && VariableValue(ExternalVariable(b)) == b.value && VariableKind(ExternalVariable(b)) == b.kind
    ensures VariableName(QueryVariable(b)) == b.name && VariableValue(QueryVariable(b)) == b.value && VariableKind(QueryVariable(b)) == b.kind
  {
  }

  /** Name, value and kind all come from one body of the variable: the
      `static` one when present, else the `external` one when present, else
      the `query` one. */
  lemma AccessorsAgree(v: Variable)
    ensures exists b ::
      && (v.staticVar == Some(b) || v.externalVar == Some(b) || v.queryVar == Some(b))
      && VariableName(v) == b.name && VariableValue(v) == b.value && VariableKind(v) == b.kind
      && (v.staticVar.Some? ==> v.staticVar == Some(b))
      && (v.staticVar.None? && v.externalVar.Some? ==> v.externalVar == Some(b))
  {
    var b := if v.staticVar.Some? then v.staticVar.value
      else if v.externalVar.Some? then v.externalVar.value
      else v.queryVar.value;
    assert v.staticVar == Some(b) || v.externalVar == Some(b) || v.queryVar == Some(b);
  }

  /** The segment after the last `.` of `str`. */
  function ExtractName(str: string): (r: string)
    ensures Excludes(r, '.')
    ensures Excludes(str, '.') ==> r == str
  {
    var parts := Split(str, '.');
    parts[|parts| - 1]
  }

  /** The extracted name is the longest `.`-free suffix: it ends `str`, and
      when it is shorter than `str` a `.` comes right before it. */
  lemma ExtractNameIsLastSegment(str: string)
    ensures |ExtractName(str)| <= |str|
    ensures str[|str| - |ExtractName(str)|..] == ExtractName(str)
    ensures |ExtractName(str)| < |str| ==> str[|str| - |ExtractName(str)| - 1] == '.'
  {
    var parts := Split(str, '.');
    JoinSplit(str, '.');
    if |parts| >= 2 {
      JoinLast(parts, '.');
      var head := Join(parts[..|parts| - 1], '.');
      assert str == head + ['.'] + parts[|parts| - 1];
      assert str[|head| + 1..] == parts[|parts| - 1];
    } else {
      assert str == parts[0];
    }
  }

  /** A reference `prefix.name` with a `.`-free `name` extracts `name`. */
  lemma ExtractNameOfDotted(prefix: string, name: string)
    requires Excludes(name, '.')
    ensures ExtractName(prefix + "." + name) == name
  {
    var str := prefix + "." + name;
    var r := ExtractName(str);
    ExtractNameIsLastSegment(str);
    assert str[|prefix|] == '.';
    assert str[|prefix| + 1..] == name;
  }

  /** The position of the first variable named `name`, if any (`find` and
      `findIndex` by name). */
  function FirstIndexNamed(vars: seq<Variable>, name: string): (r: Option<nat>)
    ensures r.Some? ==> (r.value < |vars| && VariableName(vars[r.value]) == name &&
                         forall j :: 0 <= j < r.value ==> VariableName(vars[j]) != name)
    ensures r.None? ==> forall j :: 0 <= j < |vars| ==> VariableName(vars[j]) != name
  {
    if |vars| == 0 then None
    else if VariableName(vars[0]) == name then Some(0)
    else
      match FirstIndexNamed(vars[1..], name)
      case None => None
      case Some(i) => Some(i + 1)
  }

  /** Some variable of the list is named `name`. */
  predicate HasName(vars: seq<Variable>, name: string) {
    exists i :: 0 <= i < |vars| && VariableName(vars[i]) == name
  }

  /** The first variable, in list order, named like the last segment of
      `ref`; `None` when there is none. */
  function ResolveVariableRef(ref: string, vars: seq<Variable>): (r: Option<Variable>)
    ensures r.None? <==> !HasName(vars, ExtractName(ref))
    ensures r.Some? ==> exists i ::
      && 0 <= i < |vars| && r.value == vars[i]
      && VariableName(vars[i]) == ExtractName(ref)
      && forall j :: 0 <= j < i ==> VariableName(vars[j]) != ExtractName(ref)
  {
    var name := ExtractName(ref);
    match FirstIndexNamed(vars, name)
    case None => None
    case Some(i) => Some(vars[i])
  }

  /** `$warp.variable.x` resolves exactly as `x`. */
  lemma ResolveDotted(prefix: string, name: string, vars: seq<Variable>)
    requires Excludes(name, '.')
    ensures ResolveVariableRef(prefix + "." + name, vars) == ResolveVariableRef(name, vars)
  {
    ExtractNameOfDotted(prefix, name);
  }
}
