/** The details step of the new-job form: its initial state and the
    validation that runs on every input, deriving the error messages and
    whether the job can be submitted. */
module DetailsForm {
  import opened Wrappers
  import opened FormFields

  /** A token the job is funded with; only its decimals matter here. */
  datatype Token = Token(key: string, decimals: int)

  datatype TabType = TemplateTab | MessageTab

  /** A variable of a template as the template-variable listing returns it;
      only its value is tested. */
  datatype TemplateVariable = TemplateVariable(name: string, value: Option<string>)

  /** The conversions the form calls: the JSON check standing for
      `JSON.parse` not throwing, `microfy` turning a decimal amount into
      micro-units, and the listing of a template's variables. */
  datatype Env = Env(isJson: string -> bool, microfy: (string, int) -> int, templateVariables: Template -> seq<TemplateVariable>)

  /** A complete input, as given when the form is opened. */
  datatype DetailsFormInput = DetailsFormInput(
    name: string, description: string, durationDays: string, message: string, recurring: bool,
    fundingAccount: Option<string>, template: Option<Template>, token: Option<Token>,
    amount: Option<string>, selectedTabType: Option<TabType>)

  /** A partial input: the keys one change of the form carries. */
  datatype DetailsInput = DetailsInput(
    name: Field<string>, description: Field<string>, durationDays: Field<string>, message: Field<string>,
    recurring: Field<bool>, fundingAccount: Field<Option<string>>, template: Field<Option<Template>>,
    token: Field<Option<Token>>, amount: Field<Option<string>>, selectedTabType: Field<Option<TabType>>)

  /** The input fields, the balances, and what validation derives from them.
      `messageValid` and `amountValid` start out `undefined`, read as false. */
  datatype DetailsState = DetailsState(
    name: string, description: string, durationDays: string, message: string, recurring: bool,
    fundingAccount: Option<string>, template: Option<Template>, token: Option<Token>,
    amount: Option<string>, selectedTabType: Option<TabType>,
    submitDisabled: bool, tokenBalance: int, tokenBalanceLoading: bool,
    nativeBalance: int, nativeBalanceLoading: bool,
    nameError: Option<string>, descriptionError: Option<string>, messageError: Option<string>,
    amountError: Option<string>, templateError: Option<string>,
    messageValid: bool, amountValid: bool)

  /** The state the form opens with: the given input's fields, or empty
      defaults; submit is enabled exactly when an input was given. */
  function InitialState(input: Option<DetailsFormInput>): DetailsState {
    match input
    case None =>
      DetailsState("", "", "", "", false, None, None, None, None, Some(MessageTab),
        true, 0, false, 0, false, None, None, None, None, None, false, false)
    case Some(x) =>
      DetailsState(x.name, x.description, x.durationDays, x.message, x.recurring,
        None, x.template, x.token, x.amount,
        Some(if x.selectedTabType.Some? then x.selectedTabType.value else MessageTab),
        false, 0, false, 0, false, None, None, None, None, None, false, false)
  }

  lemma InitialStateDefaults(input: Option<DetailsFormInput>)
    ensures !InitialState(input).submitDisabled <==> input.Some?
    ensures input.None? ==> InitialState(input).selectedTabType == Some(MessageTab)
    ensures input.Some? && input.value.selectedTabType.None? ==> InitialState(input).selectedTabType == Some(MessageTab)
    ensures input.None? ==> !InitialState(input).recurring
    ensures input.None? ==> InitialState(input).name == "" && InitialState(input).description == "" &&
                            InitialState(input).durationDays == "" && InitialState(input).message == ""
    ensures input.Some? ==> InitialState(input).name == input.value.name && InitialState(input).message == input.value.message &&
                            InitialState(input).token == input.value.token && InitialState(input).amount == input.value.amount
    ensures InitialState(input).fundingAccount == None
    ensures InitialState(input).tokenBalance == 0 && InitialState(input).nativeBalance == 0
    ensures !InitialState(input).tokenBalanceLoading && !InitialState(input).nativeBalanceLoading
  {
  }

  /** `{ ...state, ...input }`. */
  function Merge(s: DetailsState, i: DetailsInput): DetailsState {
    s.(name := Apply(i.name, s.name), description := Apply(i.description, s.description),
       durationDays := Apply(i.durationDays, s.durationDays), message := Apply(i.message, s.message),
       recurring := Apply(i.recurring, s.recurring), fundingAccount := Apply(i.fundingAccount, s.fundingAccount),
       template := Apply(i.template, s.template), token := Apply(i.token, s.token),
       amount := Apply(i.amount, s.amount), selectedTabType := Apply(i.selectedTabType, s.selectedTabType))
  }

  /** The amount in micro-units: 0 unless both a token and a non-empty amount
      are given. */
  function MicroAmount(s: DetailsState, env: Env): int {
    if s.token.Some? && Truthy(s.amount) then env.microfy(s.amount.value, s.token.value.decimals) else 0
  }

  /** Some variable of the template has no value. */
  predicate HasUnfilledVariable(t: Template, env: Env) {
    exists k :: 0 <= k < |env.templateVariables(t)| && IsEmptyText(env.templateVariables(t)[k].value)
  }

  /** The state validation dispatches: the merged state with every derived
      field computed afresh from it. */
  function Form(s: DetailsState, i: DetailsInput, env: Env): DetailsState {
    var m := Merge(s, i);
    var messageError := if m.message != "" && !env.isJson(m.message) then Some(MessageInvalid) else None;
    var uAmount := MicroAmount(m, env);
    var amountError := if uAmount > m.tokenBalance then Some(AmountTooLarge) else None;
    var amountValid := uAmount > 0 && amountError.None?;
    var nameError := if Utf16Length(m.name) > MaxNameLength then Some(NameTooLong) else None;
    var descriptionError := if Utf16Length(m.description) > MaxDescriptionLength then Some(DescriptionTooLong) else None;
    var messageValid := m.message != "" && messageError.None?;
    var templateError := if m.template.Some? && HasUnfilledVariable(m.template.value, env) then Some(VariablesNotFilled) else None;
    var submitDisabled :=
      (m.token.Some? && !amountValid) ||
      Utf16Length(m.name) < 1 || Utf16Length(m.durationDays) < 1 ||
      nameError.Some? || descriptionError.Some? || messageError.Some? || !messageValid || templateError.Some?;
    m.(nameError := nameError, messageValid := messageValid, messageError := messageError,
       amountError := amountError, amountValid := amountValid, descriptionError := descriptionError,
       templateError := templateError, submitDisabled := submitDisabled)
  }

  /** Each message is set exactly when its condition holds on the merged
      state, and the two validity flags are what their conditions say. */
  lemma FormErrors(s: DetailsState, i: DetailsInput, env: Env)
    ensures var m, r := Merge(s, i), Form(s, i, env);
      && (r.nameError.Some? <==> Utf16Length(m.name) > 140)
      && (r.descriptionError.Some? <==> Utf16Length(m.description) > 200)
      && (r.messageError.Some? <==> m.message != "" && !env.isJson(m.message))
      && (r.messageValid <==> m.message != "" && env.isJson(m.message))
      && (!(m.token.Some? && Truthy(m.amount)) ==> !r.amountValid && (r.amountError.Some? <==> m.tokenBalance < 0))
      && (r.amountError.Some? <==> MicroAmount(m, env) > m.tokenBalance)
      && (r.amountValid <==> 0 < MicroAmount(m, env) <= m.tokenBalance)
      && (r.templateError.Some? <==> m.template.Some? && HasUnfilledVariable(m.template.value, env))
  {
  }

  /** Submit is enabled exactly when the name and duration are given, the
      name and description are within their limits, the message is non-empty
      JSON, a token (if chosen) has an amount above 0 and within the balance,
      and every variable of the template (if chosen) is filled. */
  lemma SubmitEnabledIff(s: DetailsState, i: DetailsInput, env: Env)
    ensures var m := Merge(s, i);
      !Form(s, i, env).submitDisabled <==>
        && 1 <= Utf16Length(m.name) <= 140
        && 1 <= Utf16Length(m.durationDays)
        && Utf16Length(m.description) <= 200
        && m.message != "" && env.isJson(m.message)
        && (m.token.Some? ==> Truthy(m.amount) && 0 < env.microfy(m.amount.value, m.token.value.decimals) <= m.tokenBalance)
        && (m.template.Some? ==> forall k :: 0 <= k < |env.templateVariables(m.template.value)| ==>
              !IsEmptyText(env.templateVariables(m.template.value)[k].value))
  {
  }

  /** A name of 71 characters outside the Basic Multilingual Plane is 142
      code units long: over the limit, so it is reported and submit is off. */
  lemma WideNameTooLong(s: DetailsState, i: DetailsInput, env: Env)
    requires i.name == Set(seq(71, k => '\U{1F600}'))
    ensures Form(s, i, env).nameError == Some(NameTooLong)
    ensures Form(s, i, env).submitDisabled
  {
    Utf16LengthRepeated('\U{1F600}', 71);
  }

  /** Validation keeps every input field as merged and touches neither the
      balances nor their loading flags. */
  lemma FormKeepsFields(s: DetailsState, i: DetailsInput, env: Env)
    ensures var r := Form(s, i, env);
      && r.name == Apply(i.name, s.name) && r.description == Apply(i.description, s.description)
      && r.durationDays == Apply(i.durationDays, s.durationDays) && r.message == Apply(i.message, s.message)
      && r.recurring == Apply(i.recurring, s.recurring) && r.fundingAccount == Apply(i.fundingAccount, s.fundingAccount)
      && r.template == Apply(i.template, s.template) && r.token == Apply(i.token, s.token)
      && r.amount == Apply(i.amount, s.amount) && r.selectedTabType == Apply(i.selectedTabType, s.selectedTabType)
      && r.tokenBalance == s.tokenBalance && r.nativeBalance == s.nativeBalance
      && r.tokenBalanceLoading == s.tokenBalanceLoading && r.nativeBalanceLoading == s.nativeBalanceLoading
  {
  }

  /** The state with every derived field reset. */
  function Underived(s: DetailsState): DetailsState {
    s.(submitDisabled := false, nameError := None, descriptionError := None, messageError := None,
       amountError := None, templateError := None, messageValid := false, amountValid := false)
  }

  /** Validation does not read the derived fields it overwrites: the
      previous errors and flags make no difference. */
  lemma FormIgnoresDerived(s: DetailsState, i: DetailsInput, env: Env)
    ensures Form(Underived(s), i, env) == Form(s, i, env)
  {
  }

  /** Validating the same input again changes nothing. */
  lemma FormIdempotent(s: DetailsState, i: DetailsInput, env: Env)
    ensures Form(Form(s, i, env), i, env) == Form(s, i, env)
  {
  }
}
