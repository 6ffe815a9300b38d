/** What the form pages share: a combo box selection and the "blank or
    still showing its placeholder" test of a text box. */
module Forms {
  import opened Wrappers
  import opened Strings

  /** A combo box's SelectedItem: nothing, or an item whose content, as
      text, may be missing (an item that is not a ComboBoxItem, or null
      content). */
  datatype Selection = NoSelection | Selected(content: Option<string>)

  /** The text box is blank or still shows its placeholder. */
  predicate Unfilled(text: string, placeholder: string) {
    IsBlank(text) || text == placeholder
  }

  /** string.Contains with a one-character needle tests membership. */
  lemma {:induction false} ContainsChar(s: string, c: char)
    ensures Contains(s, [c]) <==> c in s
    decreases |s|
  {
    if s != [] {
      ContainsChar(s[1..], c);
      assert s == [s[0]] + s[1..];
      assert IsPrefix([c], s) <==> s[0] == c;
    }
  }
}
