/** What the job and template forms share: a partial input that overrides
    some fields of the form state, lodash's `isEmpty` on the values the forms
    test, the messages they show and the controller's template types. */
module FormFields {
  import opened Wrappers

  /** One key of a partial form input: absent (`Keep`), or present with a
      value, possibly `undefined`, that replaces the state's value. */
  datatype Field<T> = Keep | Set(value: T)

  /** The value of a key after `{ ...state, ...input }`. */
  function Apply<T>(f: Field<T>, current: T): (r: T)
    ensures f.Keep? ==> r == current
    ensures f.Set? ==> r == f.value
  {
    match f
    case Keep => current
    case Set(v) => v
  }

  /** lodash `isEmpty` on an optional string: `undefined` or `''`. */
  predicate IsEmptyText(v: Option<string>) {
    v.None? || v.value == ""
  }

  /** The truthiness of an optional string: present and not `''`. */
  predicate Truthy(v: Option<string>) {
    v.Some? && v.value != ""
  }

  lemma TruthyIsNotEmpty(v: Option<string>)
    ensures Truthy(v) <==> !IsEmptyText(v)
  {
  }

  /** The UTF-16 code units of one character: two for a character outside the
      Basic Multilingual Plane (a surrogate pair), one otherwise. */
  function CodeUnits(c: char): nat {
    if c as int >= 0x1_0000 then 2 else 1
  }

  /** JavaScript's `length` of a string: its UTF-16 code units. */
  function Utf16Length(s: string): (n: nat)
    ensures |s| <= n <= 2 * |s|
    ensures n == 0 <==> s == ""
  {
    if |s| == 0 then 0 else Utf16Length(s[..|s| - 1]) + CodeUnits(s[|s| - 1])
  }

  lemma {:induction false} Utf16LengthAppend(a: string, b: string)
    ensures Utf16Length(a + b) == Utf16Length(a) + Utf16Length(b)
    decreases |b|
  {
    if |b| == 0 {
      assert a + b == a;
    } else {
      assert (a + b)[..|a + b| - 1] == a + b[..|b| - 1];
      Utf16LengthAppend(a, b[..|b| - 1]);
    }
  }

  /** The code units equal the characters exactly when no character lies
      outside the Basic Multilingual Plane. */
  lemma {:induction false} Utf16LengthBmp(s: string)
    ensures Utf16Length(s) == |s| <==> forall k :: 0 <= k < |s| ==> s[k] as int < 0x1_0000
  {
    if |s| > 0 {
      var init := s[..|s| - 1];
      Utf16LengthBmp(init);
      assert forall k :: 0 <= k < |init| ==> init[k] == s[k];
    }
  }

  /** `n` copies of one character have `n` times its code units. */
  lemma {:induction false} Utf16LengthRepeated(c: char, n: nat)
    ensures Utf16Length(seq(n, k => c)) == n * CodeUnits(c)
  {
    if n > 0 {
      Utf16LengthRepeated(c, n - 1);
      assert seq(n, k => c)[..n - 1] == seq(n - 1, k => c);
    }
  }

  const MaxNameLength := 140
  const MaxDescriptionLength := 200

  const MessageInvalid := "Message format invalid."
  const NameTooLong := "The name can not exceed the maximum of 140 characters"
  const DescriptionTooLong := "The description can not exceed the maximum of 200 characters"
  const AmountTooLarge := "The amount can not exceed the maximum balance"
  const VariablesNotFilled := "All variables must be filled."
  const KindNotAssigned := "Template type must be assigned."
  const TemplateNotSet := "Template must must be set"

  /** A variable slot of a template: its kind, name and JSON path. */
  datatype TemplateVar = TemplateVar(kind: string, name: string, path: string)

  /** A controller template. */
  datatype Template = Template(name: string, kind: string, vars: seq<TemplateVar>, formattedStr: string, msg: string)
}
