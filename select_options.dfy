/** What the category and language selectors share
    (CategorySelector.tsx and LanguageSelector.tsx under
    frontend/src/components/Items/Selectors): a list of label/value
    options, the selected option, and the "create if absent" step. */
module SelectOptions {
  import opened Common

  datatype Choice = Choice(caption: string, value: string)

  function Values(options: seq<Choice>): (r: seq<string>)
    ensures |r| == |options|
    ensures forall i :: 0 <= i < |options| ==> r[i] == options[i].value
  {
    seq(|options|, i requires 0 <= i < |options| => options[i].value)
  }

  /** `options.find((opt) => opt.value === fieldValue) ?? null`: the first
      option with that value; an undefined field value matches none. */
  function Selected(options: seq<Choice>, fieldValue: Option<string>): (r: Option<Choice>)
    ensures r.Some? <==> fieldValue.Some? && fieldValue.value in Values(options)
    ensures r.Some? ==> r.value in options && r.value.value == fieldValue.value
    ensures r.Some? ==> r.value == options[FirstIndex(Values(options), fieldValue.value)]
  {
    if fieldValue.None? || |options| == 0 then None
    else if options[0].value == fieldValue.value then Some(options[0])
    else
      var rest := Selected(options[1..], fieldValue);
      assert Values(options[1..]) == Values(options)[1..];
      rest
  }

  /** The created options after a change to `newValue`: one more, captioned
      `caption`, when the value is defined, non-empty and not yet an option. */
  function Remember(options: seq<Choice>, created: seq<Choice>, newValue: Option<string>, caption: string): (r: seq<Choice>)
    ensures newValue.Some? && newValue.value != "" && newValue.value !in Values(options) ==>
              r == created + [Choice(caption, newValue.value)]
    ensures !(newValue.Some? && newValue.value != "" && newValue.value !in Values(options)) ==> r == created
  {
    if newValue.Some? && newValue.value != "" && newValue.value !in Values(options)
    then created + [Choice(caption, newValue.value)]
    else created
  }

  lemma ValuesAppend(a: seq<Choice>, b: seq<Choice>)
    ensures Values(a + b) == Values(a) + Values(b)
  {
  }

  /** A change never adds a value that is already an option: when the
      options were free of duplicates they stay so, and the new value is
      then an option. */
  lemma RememberAddsNoDuplicate(base: seq<Choice>, created: seq<Choice>, newValue: Option<string>, caption: string)
    requires NoDuplicates(Values(base + created))
    ensures var after := Remember(base + created, created, newValue, caption);
      NoDuplicates(Values(base + after))
      && (newValue.Some? && newValue.value != "" ==> newValue.value in Values(base + after))
  {
    var after := Remember(base + created, created, newValue, caption);
    ValuesAppend(base, after);
    ValuesAppend(base, created);
    if after != created {
      ValuesAppend(base + created, [Choice(caption, newValue.value)]);
      assert base + after == (base + created) + [Choice(caption, newValue.value)];
      assert Values(base + after)[|base + after| - 1] == newValue.value;
    }
  }
}
