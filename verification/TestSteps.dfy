/** The step table of a test case (TestStepsPage.xaml.cs, LoadTestSteps):
    the response's parallel arrays of step texts and arguments become
    numbered rows. */
module TestSteps {
  import opened Wrappers

  /** The deserialised response; each array, and each element, may be
      null. */
  datatype TestStepsResponse = TestStepsResponse(steps: Option<seq<Option<string>>>, args: Option<seq<Option<string>>>)

  /** A row of the list view. */
  datatype TestStep = TestStep(stepNumber: int, stepDescription: string, argument: string)

  /** The argument shown beside step i: the i-th argument when there is
      one and it is not null, else "". */
  function ArgumentAt(args: Option<seq<Option<string>>>, i: nat): string {
    if args.Some? && i < |args.value| then args.value[i].GetOr("") else ""
  }

  /** rows is the table for the response: one row per step, in order,
      numbered from 1, with "" for a null step text. */
  predicate RowsFor(response: TestStepsResponse, rows: seq<TestStep>) {
    var steps := response.steps.GetOr([]);
    && |rows| == |steps|
    && forall i :: 0 <= i < |rows| ==>
         rows[i] == TestStep(i + 1, steps[i].GetOr(""), ArgumentAt(response.args, i))
  }

  /** The indexed for loop that fills the list. */
  method BuildStepRows(response: TestStepsResponse) returns (rows: seq<TestStep>)
    ensures RowsFor(response, rows)
  {
    rows := [];
    if response.steps.Some? {
      var steps := response.steps.value;
      for i := 0 to |steps|
        invariant |rows| == i
        invariant forall k :: 0 <= k < i ==>
          rows[k] == TestStep(k + 1, steps[k].GetOr(""), ArgumentAt(response.args, k))
      {
        var argument := "";
        if response.args.Some? && i < |response.args.value| {
          argument := response.args.value[i].GetOr("");
        }
        rows := rows + [TestStep(i + 1, steps[i].GetOr(""), argument)];
      }
    }
  }

  /** A response that did not deserialise builds no list at all. */
  method LoadTestSteps(response: Option<TestStepsResponse>) returns (rows: Option<seq<TestStep>>)
    ensures rows.Some? <==> response.Some?
    ensures rows.Some? ==> RowsFor(response.value, rows.value)
  {
    if response.None? {
      return None;
    }
    var built := BuildStepRows(response.value);
    rows := Some(built);
  }

  /** The table is determined by the response. */
  lemma RowsDetermined(response: TestStepsResponse, a: seq<TestStep>, b: seq<TestStep>)
    requires RowsFor(response, a) && RowsFor(response, b)
    ensures a == b
  {
    assert forall i :: 0 <= i < |a| ==> a[i] == b[i];
  }

  /** Step numbers run 1, 2, ..., n without gaps, and no steps means no
      rows. */
  lemma RowsNumbered(response: TestStepsResponse, rows: seq<TestStep>)
    requires RowsFor(response, rows)
    ensures forall i :: 0 <= i < |rows| ==> rows[i].stepNumber == i + 1
    ensures response.steps.None? ==> rows == []
    ensures |rows| > 0 ==> rows[|rows| - 1].stepNumber == |rows|
  {
  }

  /** Arguments beyond the last step are ignored, and a missing argument
      array shows the same table as an empty one. */
  lemma ExtraArgumentsIgnored(steps: Option<seq<Option<string>>>, args: seq<Option<string>>, extra: seq<Option<string>>, rows: seq<TestStep>)
    requires |args| >= |steps.GetOr([])|
    ensures RowsFor(TestStepsResponse(steps, Some(args + extra)), rows) <==> RowsFor(TestStepsResponse(steps, Some(args)), rows)
    ensures RowsFor(TestStepsResponse(steps, None), rows) <==> RowsFor(TestStepsResponse(steps, Some([])), rows)
  {
    var n := |steps.GetOr([])|;
    assert forall i :: 0 <= i < n ==> ArgumentAt(Some(args + extra), i) == ArgumentAt(Some(args), i);
  }
}
