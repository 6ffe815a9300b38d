/** The list view's value converter for tags (TagsConverter.cs). */
module Tags {
  import opened Wrappers
  import opened Strings

  /** The bound value: a string array (whose elements may be null), or
      anything else, null included. */
  datatype BoundValue = StringArray(tags: seq<Option<string>>) | OtherValue

  const Separator := ", "

  /** string.Join writes a null element as "". */
  function TagTexts(tags: seq<Option<string>>): (r: seq<string>)
    ensures |r| == |tags|
    ensures forall i :: 0 <= i < |tags| ==> r[i] == tags[i].GetOr("")
  {
    if tags == [] then [] else [tags[0].GetOr("")] + TagTexts(tags[1..])
  }

  /** Convert: the tags joined with ", ", or "" for any other value. */
  function Convert(value: BoundValue): (r: string)
    ensures value.OtherValue? ==> r == []
  {
    match value
    case StringArray(tags) => JoinWith(TagTexts(tags), Separator)
    case OtherValue => ""
  }

  /** ConvertBack: NotImplementedException, whatever the text. */
  function ConvertBack(text: string): (r: Result<BoundValue, string>)
    ensures r.Failure?
  {
    Failure("NotImplementedException")
  }

  /** An empty array shows nothing, a single tag shows as itself. */
  lemma ConvertShortArrays(tag: Option<string>)
    ensures Convert(StringArray([])) == []
    ensures Convert(StringArray([tag])) == tag.GetOr("")
  {
  }

  /** Joining one more part appends the separator and that part. */
  lemma {:induction false} JoinSnoc(parts: seq<string>, last: string, sep: string)
    requires parts != []
    ensures JoinWith(parts + [last], sep) == JoinWith(parts, sep) + sep + last
    decreases |parts|
  {
    var all := parts + [last];
    assert all[0] == parts[0];
    if |parts| == 1 {
      assert all[1..] == [last];
    } else {
      assert all[1..] == parts[1..] + [last];
      JoinSnoc(parts[1..], last, sep);
    }
  }

  /** Tags appear in array order, separated by ", ". */
  lemma ConvertAppend(tags: seq<Option<string>>, tag: Option<string>)
    requires tags != []
    ensures Convert(StringArray(tags + [tag])) == Convert(StringArray(tags)) + Separator + tag.GetOr("")
  {
    assert TagTexts(tags + [tag]) == TagTexts(tags) + [tag.GetOr("")];
    JoinSnoc(TagTexts(tags), tag.GetOr(""), Separator);
  }

  /** The total length of the tag texts. */
  function TextLength(texts: seq<string>): nat {
    if texts == [] then 0 else |texts[0]| + TextLength(texts[1..])
  }

  /** The text is the tags' characters plus two per separator. */
  lemma {:induction false} JoinLength(parts: seq<string>, sep: string)
    requires parts != []
    ensures |JoinWith(parts, sep)| == TextLength(parts) + |sep| * (|parts| - 1)
    decreases |parts|
  {
    if |parts| > 1 {
      JoinLength(parts[1..], sep);
    }
  }

  lemma ConvertLength(tags: seq<Option<string>>)
    requires tags != []
    ensures |Convert(StringArray(tags))| == TextLength(TagTexts(tags)) + 2 * (|tags| - 1)
  {
    JoinLength(TagTexts(tags), Separator);
  }
}
