/** The new-template form: turning an existing template into form input, the
    initial state, and the validation that runs on every input. The submit
    flag reads the message error of the previous state, so it lags one
    validation behind a change of the message. */
module TemplateNewForm {
  import opened Wrappers
  import opened FormFields

  datatype TemplateNewInput = TemplateNewInput(name: string, kind: string, vars: seq<TemplateVar>, formattedStr: string, msg: string)

  /** A partial input: the keys one change of the form carries. */
  datatype TemplateNewFormInput = TemplateNewFormInput(
    name: Field<string>, kind: Field<string>, vars: Field<seq<TemplateVar>>, formattedStr: Field<string>, msg: Field<string>)

  datatype TemplateNewState = TemplateNewState(
    name: string, kind: string, vars: seq<TemplateVar>, formattedStr: string, msg: string,
    submitDisabled: bool,
    nameError: Option<string>, msgError: Option<string>, varsError: Option<string>,
    kindError: Option<string>, formattedStrError: Option<string>)

  /** The form input of a template: its fields, or `''` and `[]` without one. */
  function TemplateToInput(template: Option<Template>): (r: TemplateNewInput)
    ensures template.None? ==> r == TemplateNewInput("", "", [], "", "")
    ensures template.Some? ==> (r.name == template.value.name && r.kind == template.value.kind &&
                                r.vars == template.value.vars && r.formattedStr == template.value.formattedStr &&
                                r.msg == template.value.msg)
  {
    match template
    case None => TemplateNewInput("", "", [], "", "")
    case Some(t) => TemplateNewInput(t.name, t.kind, t.vars, t.formattedStr, t.msg)
  }

  /** The state the form opens with: submit disabled, no errors. */
  function InitialState(template: Option<Template>): (r: TemplateNewState)
    ensures r.submitDisabled
    ensures r.nameError.None? && r.msgError.None? && r.varsError.None? && r.kindError.None? && r.formattedStrError.None?
    ensures TemplateNewInput(r.name, r.kind, r.vars, r.formattedStr, r.msg) == TemplateToInput(template)
  {
    var x := TemplateToInput(template);
    TemplateNewState(x.name, x.kind, x.vars, x.formattedStr, x.msg, true, None, None, None, None, None)
  }

  /** `{ ...state, ...input }`. */
  function Merge(s: TemplateNewState, i: TemplateNewFormInput): TemplateNewState {
    s.(name := Apply(i.name, s.name), kind := Apply(i.kind, s.kind), vars := Apply(i.vars, s.vars),
       formattedStr := Apply(i.formattedStr, s.formattedStr), msg := Apply(i.msg, s.msg))
  }

  /** Some variable slot lacks its kind, name or path. */
  predicate HasUnfilledVar(vars: seq<TemplateVar>) {
    exists k :: 0 <= k < |vars| && (vars[k].kind == "" || vars[k].name == "" || vars[k].path == "")
  }

  /** The message error of a message: a non-empty message that is not JSON. */
  function MsgError(msg: string, isJson: string -> bool): Option<string> {
    if msg != "" && !isJson(msg) then Some(MessageInvalid) else None
  }

  /** The fields other than the message error are all valid. */
  predicate FieldsValid(m: TemplateNewState) {
    1 <= Utf16Length(m.name) <= 140 && !HasUnfilledVar(m.vars) && m.kind != "" && m.msg != ""
  }

  /** The state validation dispatches: the merged state with the errors
      computed afresh, but with the submit flag computed from the message
      error carried in the merged state, that is, the previous one. */
  function Form(s: TemplateNewState, i: TemplateNewFormInput, isJson: string -> bool): TemplateNewState {
    var m := Merge(s, i);
    var msgError := MsgError(m.msg, isJson);
    var nameError := if Utf16Length(m.name) > MaxNameLength then Some(NameTooLong) else None;
    var varsError := if HasUnfilledVar(m.vars) then Some(VariablesNotFilled) else None;
    var kindError := if m.kind == "" then Some(KindNotAssigned) else None;
    var formattedStrError := if m.msg == "" then Some(TemplateNotSet) else None;
    var submitDisabled :=
      Utf16Length(m.name) < 1 || nameError.Some? || m.msgError.Some? || varsError.Some? || kindError.Some? || formattedStrError.Some?;
    m.(nameError := nameError, msgError := msgError, submitDisabled := submitDisabled,
       varsError := varsError, kindError := kindError, formattedStrError := formattedStrError)
  }

  /** Each error is set exactly when its condition holds on the merged state;
      the template-text error tests the message, not the formatted string. */
  lemma FormErrors(s: TemplateNewState, i: TemplateNewFormInput, isJson: string -> bool)
    ensures var m, r := Merge(s, i), Form(s, i, isJson);
      && (r.nameError.Some? <==> Utf16Length(m.name) > 140)
      && (r.msgError.Some? <==> m.msg != "" && !isJson(m.msg))
      && (r.varsError.Some? <==> exists k :: 0 <= k < |m.vars| && (m.vars[k].kind == "" || m.vars[k].name == "" || m.vars[k].path == ""))
      && (r.kindError.Some? <==> m.kind == "")
      && (r.formattedStrError.Some? <==> m.msg == "")
  {
  }

  /** A name of 71 characters outside the Basic Multilingual Plane is 142
      code units long: over the limit, so it is reported and submit is off. */
  lemma WideNameTooLong(s: TemplateNewState, i: TemplateNewFormInput, isJson: string -> bool)
    requires i.name == Set(seq(71, k => '\U{1F600}'))
    ensures Form(s, i, isJson).nameError == Some(NameTooLong)
    ensures Form(s, i, isJson).submitDisabled
  {
    Utf16LengthRepeated('\U{1F600}', 71);
  }

  /** The formatted string is never validated: changing it changes no error
      and not the submit flag. */
  lemma FormattedStrIgnored(s: TemplateNewState, i: TemplateNewFormInput, f: string, isJson: string -> bool)
    ensures var r, r' := Form(s, i, isJson), Form(s, i.(formattedStr := Set(f)), isJson);
      r' == r.(formattedStr := f)
  {
  }

  /** Submit is enabled exactly when the fields are valid and the previous
      state carried no message error. */
  lemma SubmitEnabledIff(s: TemplateNewState, i: TemplateNewFormInput, isJson: string -> bool)
    ensures !Form(s, i, isJson).submitDisabled <==> FieldsValid(Merge(s, i)) && s.msgError.None?
  {
  }

  /** The lag: from a fresh form, entering a valid template whose message is
      not JSON enables submit while reporting the message error. */
  lemma StaleMessageError(isJson: string -> bool)
    requires !isJson("{")
    ensures var r := Form(InitialState(None), TemplateNewFormInput(Set("t"), Set("query"), Keep, Keep, Set("{")), isJson);
      r.msgError == Some(MessageInvalid) && !r.submitDisabled
  {
    var s := InitialState(None);
    var i := TemplateNewFormInput(Set("t"), Set("query"), Keep, Keep, Set("{"));
    var m := Merge(s, i);
    assert m.vars == [];
    assert !HasUnfilledVar(m.vars);
  }

  /** Validating the same input a second time settles the lag: submit is then
      enabled exactly when the fields are valid and the message is JSON, and
      further validations change nothing. */
  lemma SecondValidation(s: TemplateNewState, i: TemplateNewFormInput, isJson: string -> bool)
    ensures var r1 := Form(s, i, isJson);
      && (!Form(r1, i, isJson).submitDisabled <==> FieldsValid(Merge(s, i)) && isJson(Merge(s, i).msg))
      && Form(Form(r1, i, isJson), i, isJson) == Form(r1, i, isJson)
  {
    var r1 := Form(s, i, isJson);
    assert Merge(r1, i).msgError == MsgError(Merge(s, i).msg, isJson);
    assert Merge(Form(r1, i, isJson), i).msgError == MsgError(Merge(s, i).msg, isJson);
  }
}
