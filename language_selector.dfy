/** The language picker of the item forms
    (frontend/src/components/Items/Selectors/LanguageSelector.tsx): captions
    are upper case, the stored value is lower case, and a new value becomes
    an option of its own. */
module LanguageSelector {
  import opened Common
  import opened SelectOptions

  /** The options: the given codes captioned in upper case, then the
      created ones. */
  function LanguageOptions(languages: seq<string>, created: seq<Choice>): (r: seq<Choice>)
    ensures |r| == |languages| + |created|
    ensures forall i :: 0 <= i < |languages| ==> r[i] == Choice(Upper(languages[i]), languages[i])
    ensures r[|languages|..] == created
  {
    seq(|languages|, i requires 0 <= i < |languages| => Choice(Upper(languages[i]), languages[i])) + created
  }

  class LanguagePicker {
    const languages: seq<string>
    var created: seq<Choice>
    var fieldValue: Option<string>

    constructor (languages: seq<string>, fieldValue: Option<string>)
      ensures this.languages == languages && created == [] && this.fieldValue == fieldValue
    {
      this.languages := languages;
      created := [];
      this.fieldValue := fieldValue;
    }

    function Options(): seq<Choice>
      reads this
    {
      LanguageOptions(languages, created)
    }

    /** A choice (None when cleared): the field gets the lower-cased value,
        and a non-empty one that is not an option yet becomes one, captioned
        in upper case. */
    method OnChange(choice: Option<string>)
      modifies this`created, this`fieldValue
      ensures fieldValue == (if choice.Some? then Some(Lower(choice.value)) else None)
      ensures created == Remember(old(Options()), old(created), fieldValue,
                                  if fieldValue.Some? then Upper(fieldValue.value) else "")
    {
      var newValue := if choice.Some? then Some(Lower(choice.value)) else None;
      var options := Options();
      fieldValue := newValue;
      created := Remember(options, created, newValue, if newValue.Some? then Upper(newValue.value) else "");
    }
  }

  /** Typing a known code in any case selects the known option and creates
      nothing. */
  lemma KnownCodeInAnyCase(languages: seq<string>, created: seq<Choice>, typed: string, k: int)
    requires 0 <= k < |languages| && languages[k] == Lower(typed)
    ensures var options := LanguageOptions(languages, created);
      Remember(options, created, Some(Lower(typed)), Upper(Lower(typed))) == created
      && Selected(options, Some(Lower(typed))).Some?
      && Selected(options, Some(Lower(typed))).value.value == languages[k]
  {
    var options := LanguageOptions(languages, created);
    assert Values(options)[k] == Lower(typed);
  }

  /** A created option's caption and value name the same code: the caption
      is the upper-cased value. */
  lemma CreatedCaptionIsUpperValue(languages: seq<string>, created: seq<Choice>, typed: string)
    requires Lower(typed) != "" && Lower(typed) !in Values(LanguageOptions(languages, created))
    ensures var after := Remember(LanguageOptions(languages, created), created, Some(Lower(typed)), Upper(Lower(typed)));
      after == created + [Choice(Upper(Lower(typed)), Lower(typed))]
      && Lower(after[|after| - 1].caption) == after[|after| - 1].value
  {
    var v := Lower(typed);
    assert forall i :: 0 <= i < |v| ==> LowerChar(UpperChar(v[i])) == v[i];
    assert Lower(Upper(v)) == v;
  }
}
