/** The category picker of the item forms
    (frontend/src/components/Items/Selectors/CategorySelector.tsx): labels
    are normalised, the stored value is the trimmed choice, and a new value
    becomes an option of its own. */
module CategorySelector {
  import opened Common
  import opened SelectOptions

  /** The white space `String.prototype.trim` removes, restricted to ASCII. */
  predicate IsSpace(c: char)
  {
    c == ' ' || c == '\t' || c == '\n' || c == '\r' || c == '\U{B}' || c == '\U{C}'
  }

  /** `\w` of a regular expression without the `u` flag. */
  predicate IsWordChar(c: char)
  {
    'a' <= c <= 'z' || 'A' <= c <= 'Z' || '0' <= c <= '9' || c == '_'
  }

  function TrimStart(s: string): (r: string)
    ensures |r| <= |s| && r == s[|s| - |r|..]
    ensures |r| > 0 ==> !IsSpace(r[0])
    ensures forall i :: 0 <= i < |s| - |r| ==> IsSpace(s[i])
  {
    if |s| > 0 && IsSpace(s[0]) then TrimStart(s[1..]) else s
  }

  function TrimEnd(s: string): (r: string)
    ensures |r| <= |s| && r == s[..|r|]
    ensures |r| > 0 ==> !IsSpace(r[|r| - 1])
    ensures forall i :: |r| <= i < |s| ==> IsSpace(s[i])
  {
    if |s| > 0 && IsSpace(s[|s| - 1]) then TrimEnd(s[..|s| - 1]) else s
  }

  /** No white space at either end. */
  predicate Trimmed(s: string)
  {
    |s| == 0 || (!IsSpace(s[0]) && !IsSpace(s[|s| - 1]))
  }

  /** `s.trim()`: the string without white space at either end; a string
      that has none is left as it is. */
  function Trim(s: string): (r: string)
    ensures Trimmed(r)
    ensures Trimmed(s) ==> r == s
  {
    TrimEnd(TrimStart(s))
  }

  /** `replace(/^\w/, (c) => c.toUpperCase())`. */
  function CapitalizeFirst(s: string): (r: string)
    ensures |r| == |s|
    ensures |s| > 0 ==> r[1..] == s[1..]
    ensures |s| > 0 && IsWordChar(s[0]) ==> r[0] == UpperChar(s[0])
    ensures |s| > 0 && !IsWordChar(s[0]) ==> r[0] == s[0]
  {
    if |s| > 0 && IsWordChar(s[0]) then [UpperChar(s[0])] + s[1..] else s
  }

  /** `normalizeLabel`: trimmed, lower-cased, first word character upper-cased. */
  function NormalizeLabel(s: string): string
  {
    CapitalizeFirst(Lower(Trim(s)))
  }

  lemma LowerKeepsTrimmed(s: string)
    requires Trimmed(s)
    ensures Trimmed(Lower(s))
  {
  }

  lemma LowerIdempotent(s: string)
    ensures Lower(Lower(s)) == Lower(s)
  {
  }

  /** A label is trimmed, as long as the trimmed input, and lower case
      after its first character. */
  lemma NormalizeLabelShape(s: string)
    ensures var r := NormalizeLabel(s);
      Trimmed(r) && |r| == |Trim(s)|
      && (|r| > 0 ==> r[1..] == Lower(Trim(s))[1..])
  {
    LowerKeepsTrimmed(Trim(s));
  }

  lemma CapitalizeKeepsTrimmed(l: string)
    requires Trimmed(l)
    ensures Trimmed(CapitalizeFirst(l))
  {
  }

  lemma LowerOfCapitalized(l: string)
    requires Lower(l) == l
    ensures Lower(CapitalizeFirst(l)) == l
  {
    var c := CapitalizeFirst(l);
    forall i | 0 <= i < |l| ensures Lower(c)[i] == l[i] {
      assert Lower(l)[i] == LowerChar(l[i]);
      if i > 0 {
        assert c[i] == c[1..][i - 1] == l[1..][i - 1] == l[i];
      }
    }
  }

  /** Normalising a label twice is normalising it once. */
  lemma NormalizeLabelIdempotent(s: string)
    ensures NormalizeLabel(NormalizeLabel(s)) == NormalizeLabel(s)
  {
    var l := Lower(Trim(s));
    var c := CapitalizeFirst(l);
    LowerKeepsTrimmed(Trim(s));
    CapitalizeKeepsTrimmed(l);
    assert Trim(c) == c;
    LowerIdempotent(Trim(s));
    LowerOfCapitalized(l);
  }

  /** The options: the given categories with normalised captions, then the
      created ones. */
  function CategoryOptions(categories: seq<string>, created: seq<Choice>): (r: seq<Choice>)
    ensures |r| == |categories| + |created|
    ensures forall i :: 0 <= i < |categories| ==> r[i] == Choice(NormalizeLabel(categories[i]), categories[i])
    ensures r[|categories|..] == created
  {
    seq(|categories|, i requires 0 <= i < |categories| => Choice(NormalizeLabel(categories[i]), categories[i])) + created
  }

  /** The picker's state: the categories it was given, the options created
      so far and the form field's value. */
  class CategoryPicker {
    const categories: seq<string>
    var created: seq<Choice>
    var fieldValue: Option<string>

    constructor (categories: seq<string>, fieldValue: Option<string>)
      ensures this.categories == categories && created == [] && this.fieldValue == fieldValue
    {
      this.categories := categories;
      created := [];
      this.fieldValue := fieldValue;
    }

    function Options(): seq<Choice>
      reads this
    {
      CategoryOptions(categories, created)
    }

    /** The option shown as selected. */
    function Shown(): Option<Choice>
      reads this
    {
      Selected(Options(), fieldValue)
    }

    /** A choice (None when cleared): the field gets the trimmed value, and a
        non-empty trimmed value that is not an option yet becomes one. */
    method OnChange(choice: Option<string>)
      modifies this`created, this`fieldValue
      ensures fieldValue == (if choice.Some? then Some(Trim(choice.value)) else None)
      ensures created == Remember(old(Options()), old(created), fieldValue,
                                  if fieldValue.Some? then NormalizeLabel(fieldValue.value) else "")
    {
      var newValue := if choice.Some? then Some(Trim(choice.value)) else None;
      var options := Options();
      fieldValue := newValue;
      created := Remember(options, created, newValue, if newValue.Some? then NormalizeLabel(newValue.value) else "");
    }
  }

  /** After a change to a non-empty value, that value is selected, and no
      option value appears twice when none did before. */
  lemma ChangeSelectsTheValue(categories: seq<string>, created: seq<Choice>, v: string)
    requires Trim(v) != ""
    requires NoDuplicates(Values(CategoryOptions(categories, created)))
    ensures var after := Remember(CategoryOptions(categories, created), created, Some(Trim(v)), NormalizeLabel(Trim(v)));
      var options := CategoryOptions(categories, after);
      NoDuplicates(Values(options))
      && Selected(options, Some(Trim(v))).Some?
  {
    var t := Trim(v);
    var caption := NormalizeLabel(t);
    var base := CategoryOptions(categories, []);
    OptionsSplit(categories, created);
    var after := Remember(base + created, created, Some(t), caption);
    OptionsSplit(categories, after);
    RememberAddsNoDuplicate(base, created, Some(t), caption);
  }

  lemma OptionsSplit(categories: seq<string>, created: seq<Choice>)
    ensures CategoryOptions(categories, created) == CategoryOptions(categories, []) + created
  {
  }
}
