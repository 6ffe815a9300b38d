/** The script page (GenerateScriptPage.xaml.cs): the compiler from a test
    plan's "current - bdd steps" object to a Playwright script in Python, the
    escaping of test data, and the classification of the runner's plain-text
    reply into log entries. */
module ScriptGeneration {
  import opened Wrappers
  import opened Strings
  import opened Models

  /** One property of the "current - bdd steps" object, in document order:
      the step phrase and its test data (None for a JSON null). */
  type BddStep = (string, Option<string>)

  /** The text StringBuilder.AppendLine produces for these lines: each line
      followed by the platform newline nl. */
  function Render(lines: seq<string>, nl: string): string {
    if lines == [] then [] else lines[0] + nl + Render(lines[1..], nl)
  }

  lemma {:induction false} RenderAppend(a: seq<string>, b: seq<string>, nl: string)
    ensures Render(a + b, nl) == Render(a, nl) + Render(b, nl)
  {
    if a == [] {
      assert a + b == b;
    } else {
      assert (a + b)[0] == a[0];
      assert (a + b)[1..] == a[1..] + b;
      RenderAppend(a[1..], b, nl);
    }
  }

  // ---------------------------------------------------------------------
  // The fixed frame of every script

  const PrologueLines: seq<string> := [
    "import asyncio",
    "import re",
    "from playwright.async_api import async_playwright, expect",
    "",
    "async def run_test():",
    "    \"\"\"Test Case for current test ID.\"\"\"",
    "    async with async_playwright() as p:",
    "        browser = await p.chromium.launch(headless=False)",
    "        page = await browser.new_page()",
    "        try:"
  ]

  const EpilogueLines: seq<string> := [
    "            print(\"Test Passed - Execution completed successfully.\")",
    "        except Exception as e:",
    "            print(f\"Test Failed - An error occurred: {str(e)}\")",
    "        finally:",
    "            await browser.close()",
    "",
    "if __name__ == \"__main__\":",
    "    asyncio.run(run_test())"
  ]

  // ---------------------------------------------------------------------
  // Escaping of test data

  /** The replacement of one character by the three chained Replace calls:
      '"' becomes \", LF becomes \n, CR becomes \r; nothing else changes
      (in particular a backslash stays a single backslash). */
  function EscapeChar(c: char): string {
    if c == '"' then "\\\""
    else if c == '\n' then "\\n"
    else if c == '\r' then "\\r"
    else [c]
  }

  predicate IsEscaped(c: char) {
    c == '"' || c == '\n' || c == '\r'
  }

  /** The escape, one character at a time. */
  function Escape(s: string): string {
    if s == [] then [] else EscapeChar(s[0]) + Escape(s[1..])
  }

  /** The test data as the source computes it: null becomes "", then three
      string.Replace passes in the order quote, LF, CR. */
  function EscapeTestData(data: Option<string>): string {
    ReplaceAll(ReplaceAll(ReplaceAll(data.GetOr(""), "\"", "\\\""), "\n", "\\n"), "\r", "\\r")
  }

  lemma {:induction false} ChainedSubstIsEscape(s: string)
    ensures SubstChar(SubstChar(SubstChar(s, '"', "\\\""), '\n', "\\n"), '\r', "\\r") == Escape(s)
  {
    if s != [] {
      ChainedSubstIsEscape(s[1..]);
      var head := if s[0] == '"' then "\\\"" else [s[0]];
      var rest := SubstChar(s[1..], '"', "\\\"");
      assert SubstChar(s, '"', "\\\"") == head + rest;
      SubstCharAppend(head, rest, '\n', "\\n");
      var head2 := SubstChar(head, '\n', "\\n");
      var rest2 := SubstChar(rest, '\n', "\\n");
      SubstCharAppend(head2, rest2, '\r', "\\r");
      assert SubstChar(SubstChar(head, '\n', "\\n"), '\r', "\\r") == EscapeChar(s[0]);
    }
  }

  /** The three chained passes are the single per-character escape: no pass
      rewrites what an earlier pass inserted. */
  lemma EscapeTestDataIsEscape(data: Option<string>)
    ensures EscapeTestData(data) == Escape(data.GetOr(""))
  {
    var s := data.GetOr("");
    ReplaceOneChar(s, '"', "\\\"");
    var s1 := SubstChar(s, '"', "\\\"");
    ReplaceOneChar(s1, '\n', "\\n");
    var s2 := SubstChar(s1, '\n', "\\n");
    ReplaceOneChar(s2, '\r', "\\r");
    ChainedSubstIsEscape(s);
  }

  function CountEscaped(s: string): nat {
    if s == [] then 0 else (if IsEscaped(s[0]) then 1 else 0) + CountEscaped(s[1..])
  }

  /** The escaped text has no raw line break, and it is longer than the data
      by exactly the number of quotes, LFs and CRs in the data. */
  lemma {:induction false} EscapeShape(s: string)
    ensures '\n' !in Escape(s) && '\r' !in Escape(s)
    ensures |Escape(s)| == |s| + CountEscaped(s)
  {
    if s != [] {
      EscapeShape(s[1..]);
      assert Escape(s) == EscapeChar(s[0]) + Escape(s[1..]);
    }
  }

  /** What Python makes of the escapes inside a string literal: \", \n, \r
      and \\ stand for one character; any other character stands for itself. */
  function PythonUnescape(s: string): string
    decreases |s|
  {
    if s == [] then []
    else if |s| >= 2 && s[0] == '\\' && s[1] == '"' then ['"'] + PythonUnescape(s[2..])
    else if |s| >= 2 && s[0] == '\\' && s[1] == 'n' then ['\n'] + PythonUnescape(s[2..])
    else if |s| >= 2 && s[0] == '\\' && s[1] == 'r' then ['\r'] + PythonUnescape(s[2..])
    else if |s| >= 2 && s[0] == '\\' && s[1] == '\\' then ['\\'] + PythonUnescape(s[2..])
    else [s[0]] + PythonUnescape(s[1..])
  }

  /** For data without a backslash, the Python literal the script contains
      denotes exactly the test data. */
  lemma {:induction false} EscapeRoundTrip(s: string)
    requires '\\' !in s
    ensures PythonUnescape(Escape(s)) == s
  {
    if s != [] {
      EscapeRoundTrip(s[1..]);
      var e := Escape(s);
      assert e == EscapeChar(s[0]) + Escape(s[1..]);
      if IsEscaped(s[0]) {
        assert e[2..] == Escape(s[1..]);
      } else {
        assert e[1..] == Escape(s[1..]);
      }
      assert s == [s[0]] + s[1..];
    }
  }

  /** Backslashes are not escaped, so the escape is not injective: the data
      LF and the two-character data \n give the same text, which Python reads
      as a line feed. */
  lemma BackslashNotEscaped()
    ensures Escape("\\") == "\\"
    ensures Escape("\n") == Escape("\\n") == "\\n"
    ensures PythonUnescape(Escape("\\n")) == "\n" != "\\n"
  {
    assert Escape("\\n") == EscapeChar('\\') + Escape("n");
  }

  // ---------------------------------------------------------------------
  // The step table

  /** The closed table of recognised steps: what each case of the switch
      emits. */
  datatype StepRule =
    | Navigate | EnterUsername | EnterPassword | ClickLogin
    | ClickForgotPassword | VerifyDashboard | VerifyResetLink

  // The phrases of the table.
  const NavigatePhrase := "Given the user is on the OrangeHRM login page"
  const UsernamePhrase := "When the user enters the username"
  const UsernameAliasPhrase := "And enters their username"
  const PasswordPhrase := "And the user enters the password"
  const LoginClickPhrase := "And clicks the login button"
  const ResetClickPhrase := "And clicks the 'Reset Password' button"
  const ForgotPasswordPhrase := "When the user clicks on 'Forgot your Password?'"
  const DashboardPhrase := "Then the user should be redirected to the dashboard"
  const ResetLinkPhrase := "Then a password reset link should be sent successfully"

  /** The switch on the step phrase: exact, case-sensitive matching; two
      pairs of phrases share a case. */
  function RuleFor(phrase: string): Option<StepRule> {
    if phrase == NavigatePhrase then Some(Navigate)
    else if phrase == UsernamePhrase then Some(EnterUsername)
    else if phrase == UsernameAliasPhrase then Some(EnterUsername)
    else if phrase == PasswordPhrase then Some(EnterPassword)
    else if phrase == LoginClickPhrase then Some(ClickLogin)
    else if phrase == ResetClickPhrase then Some(ClickLogin)
    else if phrase == ForgotPasswordPhrase then Some(ClickForgotPassword)
    else if phrase == DashboardPhrase then Some(VerifyDashboard)
    else if phrase == ResetLinkPhrase then Some(VerifyResetLink)
    else None
  }

  /** The rules whose block embeds the test data. */
  predicate UsesData(rule: StepRule) {
    rule.Navigate? || rule.EnterUsername? || rule.EnterPassword?
  }

  // The lines the cases emit; a data line is a prefix, the escaped data and
  // the closing quote and parenthesis.
  const NavigatePrint := "            print(\"Step: Navigating to the OrangeHRM login page...\")"
  const GotoPrefix := "            await page.goto(\""
  const UsernamePrint := "            print(\"Step: Entering username...\")"
  const UsernameFillPrefix := "            await page.get_by_placeholder(\"Username\").fill(\""
  const PasswordPrint := "            print(\"Step: Entering password...\")"
  const PasswordFillPrefix := "            await page.get_by_placeholder(\"Password\").fill(\""
  const DataLineEnd := "\")"
  const ClickPrint := "            print(\"Step: Clicking the button...\")"
  const ClickLoginLine := "            await page.get_by_role(\"button\", name=\"Login\").click()"
  const ForgotPrint := "            print(\"Step: Clicking 'Forgot your Password?'...\")"
  const ForgotClickLine := "            await page.get_by_text(\"Forgot your Password?\").click()"
  const DashboardPrint := "            print(\"Step: Verifying redirection to the dashboard...\")"
  const DashboardUrlLine := "            await expect(page).to_have_url(re.compile(r\".*/dashboard/index\"))"
  const DashboardHeaderLine := "            dashboard_header = page.get_by_role(\"heading\", name=\"Dashboard\")"
  const DashboardVisibleLine := "            await expect(dashboard_header).to_be_visible()"
  const ResetLinkPrint := "            print(\"Step: Verifying password reset link...\")"
  const ResetLinkLine := "            await expect(page.get_by_text(\"Reset link sent successfully\")).to_be_visible()"

  /** The prefix of the data line of a data rule. */
  function DataLinePrefix(rule: StepRule): string
    requires UsesData(rule)
  {
    match rule
    case Navigate => GotoPrefix
    case EnterUsername => UsernameFillPrefix
    case EnterPassword => PasswordFillPrefix
  }

  /** The lines one case of the switch emits, given the escaped data. */
  function RuleLines(rule: StepRule, data: string): seq<string> {
    match rule
    case Navigate => [NavigatePrint, GotoPrefix + data + DataLineEnd]
    case EnterUsername => [UsernamePrint, UsernameFillPrefix + data + DataLineEnd]
    case EnterPassword => [PasswordPrint, PasswordFillPrefix + data + DataLineEnd]
    case ClickLogin => [ClickPrint, ClickLoginLine]
    case ClickForgotPassword => [ForgotPrint, ForgotClickLine]
    case VerifyDashboard => [DashboardPrint, DashboardUrlLine, DashboardHeaderLine, DashboardVisibleLine]
    case VerifyResetLink => [ResetLinkPrint, ResetLinkLine]
  }

  /** The block of one plan entry: nothing for a phrase outside the table,
      else its rule's lines with the escaped data. */
  function Block(step: BddStep): seq<string> {
    match RuleFor(step.0)
    case None => []
    case Some(rule) => RuleLines(rule, EscapeTestData(step.1))
  }

  /** The lines f gives each element, concatenated in order. */
  function Emit<T>(xs: seq<T>, f: T -> seq<string>): seq<string> {
    if xs == [] then [] else f(xs[0]) + Emit(xs[1..], f)
  }

  /** The blocks of all entries, in plan order. */
  function BodyLines(steps: seq<BddStep>): seq<string> {
    Emit(steps, Block)
  }

  /** The whole script: prologue, the blocks (none when the plan has no
      "current - bdd steps" property), epilogue. */
  function ScriptLines(steps: Option<seq<BddStep>>): seq<string> {
    PrologueLines + (if steps.Some? then BodyLines(steps.value) else []) + EpilogueLines
  }

  /** One iteration of the foreach: the switch on the phrase appends the
      case's lines, with the escaped data, or nothing. */
  method AppendStep(script: string, step: BddStep, nl: string) returns (r: string)
    ensures r == script + Render(Block(step), nl)
  {
    var testData := EscapeTestData(step.1);
    r := script;
    match RuleFor(step.0) {
      case None =>
        assert Render([], nl) == [];
      case Some(rule) =>
        r := r + Render(RuleLines(rule, testData), nl);
    }
  }

  /** The foreach over the plan's entries, in order. */
  method AppendBlocks(script: string, plan: seq<BddStep>, nl: string) returns (r: string)
    ensures r == script + Render(BodyLines(plan), nl)
  {
    r := script;
    for i := 0 to |plan|
      invariant r == script + Render(BodyLines(plan[..i]), nl)
    {
      EmitRenderStep(plan, i, Block, nl);
      r := AppendStep(r, plan[i], nl);
    }
    assert plan[..|plan|] == plan;
  }

  /** GenerateScriptFromBddSteps: appends the prologue, then one block per
      entry of the plan, then the epilogue, to a growing text. */
  method GenerateScriptFromBddSteps(steps: Option<seq<BddStep>>, nl: string) returns (script: string)
    ensures script == Render(ScriptLines(steps), nl)
  {
    script := Render(PrologueLines, nl);
    if steps.Some? {
      script := AppendBlocks(script, steps.value, nl);
    }
    script := script + Render(EpilogueLines, nl);
    ScriptFrame(steps, nl);
  }

  // ---------------------------------------------------------------------
  // Properties of the compiler

  /** Blocks of a concatenated plan are the concatenated blocks: the order of
      the plan is the order of the script. */
  lemma {:induction false} EmitAppend<T>(a: seq<T>, b: seq<T>, f: T -> seq<string>)
    ensures Emit(a + b, f) == Emit(a, f) + Emit(b, f)
  {
    if a == [] {
      assert a + b == b;
    } else {
      assert (a + b)[0] == a[0];
      assert (a + b)[1..] == a[1..] + b;
      EmitAppend(a[1..], b, f);
    }
  }

  lemma BodyLinesAppend(a: seq<BddStep>, b: seq<BddStep>)
    ensures BodyLines(a + b) == BodyLines(a) + BodyLines(b)
  {
    EmitAppend(a, b, Block);
  }

  /** Every script starts with the fixed prologue and ends with the fixed
      epilogue; with no steps property there is nothing in between. */
  lemma ScriptFrame(steps: Option<seq<BddStep>>, nl: string)
    ensures steps.Some? ==>
      (Render(ScriptLines(steps), nl)
       == Render(PrologueLines, nl) + Render(BodyLines(steps.value), nl) + Render(EpilogueLines, nl))
    ensures steps.None? ==>
      (Render(ScriptLines(steps), nl) == Render(PrologueLines, nl) + Render(EpilogueLines, nl))
  {
    var body := if steps.Some? then BodyLines(steps.value) else [];
    RenderFrame(PrologueLines, body, EpilogueLines, nl);
    assert Render([], nl) == [];
  }

  lemma RenderFrame(pre: seq<string>, body: seq<string>, post: seq<string>, nl: string)
    ensures Render(pre + body + post, nl) == Render(pre, nl) + Render(body, nl) + Render(post, nl)
  {
    RenderAppend(pre + body, post, nl);
    RenderAppend(pre, body, nl);
  }

  lemma EmitSingle<T>(x: T, f: T -> seq<string>)
    ensures Emit([x], f) == f(x)
  {
    assert [x][1..] == [];
  }

  /** Emitting one more element appends its lines to the rendered text. */
  lemma EmitRenderStep<T>(xs: seq<T>, i: nat, f: T -> seq<string>, nl: string)
    requires i < |xs|
    ensures Render(Emit(xs[..i + 1], f), nl) == Render(Emit(xs[..i], f), nl) + Render(f(xs[i]), nl)
  {
    assert xs[..i + 1] == xs[..i] + [xs[i]];
    EmitAppend(xs[..i], [xs[i]], f);
    EmitSingle(xs[i], f);
    RenderAppend(Emit(xs[..i], f), f(xs[i]), nl);
  }

  lemma EmitSkip<T>(xs: seq<T>, i: nat, f: T -> seq<string>)
    requires i < |xs| && f(xs[i]) == []
    ensures Emit(xs, f) == Emit(xs[..i] + xs[i + 1..], f)
  {
    assert xs == xs[..i] + ([xs[i]] + xs[i + 1..]);
    EmitAppend(xs[..i], [xs[i]] + xs[i + 1..], f);
    EmitAppend([xs[i]], xs[i + 1..], f);
    EmitSingle(xs[i], f);
    EmitAppend(xs[..i], xs[i + 1..], f);
  }

  function Repeat(lines: seq<string>, n: nat): seq<string> {
    if n == 0 then [] else lines + Repeat(lines, n - 1)
  }

  lemma {:induction false} EmitRepeat<T>(x: T, n: nat, f: T -> seq<string>)
    ensures Emit(seq(n, _ => x), f) == Repeat(f(x), n)
  {
    if n > 0 {
      var xs := seq(n, _ => x);
      assert xs == [x] + seq(n - 1, _ => x);
      EmitAppend([x], seq(n - 1, _ => x), f);
      EmitSingle(x, f);
      EmitRepeat(x, n - 1, f);
    }
  }

  /** A phrase outside the table contributes nothing and fails nothing: the
      script is the one of the plan without that entry. */
  lemma UnknownStepSkipped(steps: seq<BddStep>, i: nat)
    requires i < |steps| && RuleFor(steps[i].0).None?
    ensures BodyLines(steps) == BodyLines(steps[..i] + steps[i + 1..])
  {
    EmitSkip(steps, i, Block);
  }

  /** Each occurrence of a repeated entry emits its own block. */
  lemma DuplicatesRepeat(step: BddStep, n: nat)
    ensures BodyLines(seq(n, _ => step)) == Repeat(Block(step), n)
  {
    EmitRepeat(step, n, Block);
  }

  /** The two username phrases share a case, and so do the login and the
      reset-password button phrases; the latter clicks the Login button. */
  lemma AliasedPhrases(data: string)
    ensures RuleFor(UsernamePhrase) == RuleFor(UsernameAliasPhrase) == Some(EnterUsername)
    ensures RuleFor(LoginClickPhrase) == RuleFor(ResetClickPhrase) == Some(ClickLogin)
    ensures RuleLines(ClickLogin, data)[1] == ClickLoginLine
  {
  }

  /** Matching is exact: a phrase differing only in case is not in the table. */
  lemma PhraseMatchIsCaseSensitive()
    ensures RuleFor(NavigatePhrase) == Some(Navigate)
    ensures RuleFor("given the user is on the OrangeHRM login page") == None
  {
  }

  /** Click and verification blocks do not depend on the test data. */
  lemma FixedRulesIgnoreData(rule: StepRule, d1: string, d2: string)
    requires !UsesData(rule)
    ensures RuleLines(rule, d1) == RuleLines(rule, d2) != []
  {
  }

  lemma QuotedInjective(pre: string, d1: string, d2: string, post: string)
    requires pre + d1 + post == pre + d2 + post
    ensures d1 == d2
  {
    var a, b := pre + d1 + post, pre + d2 + post;
    assert |d1| == |d2|;
    forall k | 0 <= k < |d1| ensures d1[k] == d2[k] {
      assert a[|pre| + k] == d1[k];
      assert b[|pre| + k] == d2[k];
    }
  }

  /** Navigate, username and password blocks embed the escaped data: two
      such blocks are equal exactly when the escaped data are. */
  lemma DataRulesDependOnData(rule: StepRule, d1: string, d2: string)
    requires UsesData(rule)
    ensures RuleLines(rule, d1) == RuleLines(rule, d2) <==> d1 == d2
  {
    if RuleLines(rule, d1) == RuleLines(rule, d2) {
      assert RuleLines(rule, d1)[1] == RuleLines(rule, d2)[1];
      QuotedInjective(DataLinePrefix(rule), d1, d2, DataLineEnd);
    }
  }

  /** The data line of a navigate, username or password block quotes the
      per-character escape of the data, which holds no raw line break: the
      data cannot end the Python literal's line or start a line of its own. */
  lemma DataLineQuotesEscapedData(step: BddStep)
    requires RuleFor(step.0).Some? && UsesData(RuleFor(step.0).value)
    ensures |Block(step)| == 2
    ensures Block(step)[1]
      == DataLinePrefix(RuleFor(step.0).value) + Escape(step.1.GetOr("")) + DataLineEnd
    ensures '\n' !in Escape(step.1.GetOr("")) && '\r' !in Escape(step.1.GetOr(""))
  {
    EscapeTestDataIsEscape(step.1);
    EscapeShape(step.1.GetOr(""));
  }

  // ---------------------------------------------------------------------
  // The runner's reply

  const TestCaseIdPlaceholder := "Enter Test Case ID"

  /** FetchAndExecuteTestPlanAsync goes on only with an id that is neither
      blank nor the placeholder text. */
  predicate AcceptsTestCaseId(id: string) {
    !IsNullOrWhiteSpace(Some(id)) && id != TestCaseIdPlaceholder
  }

  /** Equivalently: the trimmed id is not empty and the id is not the
      placeholder. */
  lemma AcceptsTestCaseIdTrimmed(id: string)
    ensures AcceptsTestCaseId(id) <==> Trim(id) != [] && id != TestCaseIdPlaceholder
    ensures !AcceptsTestCaseId("") && !AcceptsTestCaseId(TestCaseIdPlaceholder)
  {
    TrimBlank(id);
  }

  const PassedMarker := "Test Passed"
  const FailedMarker := "Test Failed"

  /** The status of one reply line: "Test Passed" wins over "Test Failed". */
  function LineStatus(line: string): (status: string)
    ensures status == SUCCESS <==> Contains(line, PassedMarker)
    ensures status == ERROR <==> !Contains(line, PassedMarker) && Contains(line, FailedMarker)
    ensures status == INFO <==> !Contains(line, PassedMarker) && !Contains(line, FailedMarker)
  {
    if Contains(line, PassedMarker) then SUCCESS
    else if Contains(line, FailedMarker) then ERROR
    else INFO
  }

  function LineEntry(line: string, ts: string): ExecutionLogEntry {
    Entry(ts, Trim(line), LineStatus(line))
  }

  /** The lines of the reply that get an entry: split on LF, empty pieces
      dropped. */
  function ReplyLines(reply: string): seq<string> {
    SplitRemoveEmpty(reply, '\n')
  }

  /** One entry per line, in order. */
  function LineEntries(lines: seq<string>, ts: string): (entries: seq<ExecutionLogEntry>)
    ensures |entries| == |lines|
  {
    if lines == [] then [] else [LineEntry(lines[0], ts)] + LineEntries(lines[1..], ts)
  }

  lemma {:induction false} LineEntriesAt(lines: seq<string>, ts: string, k: nat)
    requires k < |lines|
    ensures LineEntries(lines, ts)[k] == LineEntry(lines[k], ts)
  {
    if k > 0 {
      LineEntriesAt(lines[1..], ts, k - 1);
    }
  }

  lemma LineEntriesSnoc(lines: seq<string>, i: nat, ts: string)
    requires i < |lines|
    ensures LineEntries(lines[..i + 1], ts) == LineEntries(lines[..i], ts) + [LineEntry(lines[i], ts)]
  {
    assert lines[..i + 1] == lines[..i] + [lines[i]];
    LineEntriesAppend(lines[..i], [lines[i]], ts);
    assert [lines[i]][1..] == [];
  }

  lemma {:induction false} LineEntriesAppend(a: seq<string>, b: seq<string>, ts: string)
    ensures LineEntries(a + b, ts) == LineEntries(a, ts) + LineEntries(b, ts)
  {
    if a == [] {
      assert a + b == b;
    } else {
      assert (a + b)[0] == a[0];
      assert (a + b)[1..] == a[1..] + b;
      LineEntriesAppend(a[1..], b, ts);
    }
  }

  /** One entry per non-empty line, in order, message trimmed; the lines
      spell out the whole reply except its LFs. */
  lemma ReplyClassification(reply: string, ts: string)
    ensures |LineEntries(ReplyLines(reply), ts)| == |ReplyLines(reply)|
    ensures forall k :: 0 <= k < |ReplyLines(reply)| ==>
      var line := ReplyLines(reply)[k];
      && line != [] && '\n' !in line
      && LineEntries(ReplyLines(reply), ts)[k] == Entry(ts, Trim(line), LineStatus(line))
    ensures Concat(ReplyLines(reply)) == Without(reply, '\n')
  {
    forall k | 0 <= k < |ReplyLines(reply)| {
      LineEntriesAt(ReplyLines(reply), ts, k);
    }
    SplitRemoveEmptySpells(reply, '\n');
  }

  /** The DEBUG entry quotes at most 200 characters of the raw reply: a
      prefix, and the whole reply when it is short enough. */
  function Preview(raw: string): (p: string)
    ensures |p| <= 200 && IsPrefix(p, raw)
    ensures |raw| <= 200 ==> p == raw
  {
    raw[..if |raw| < 200 then |raw| else 200]
  }

  /** The structured error body of a failed request, as far as it parsed. */
  datatype ErrorBody =
    | Detail(detail: Option<string>)   // parsed; None when the body or its detail is null
    | Unparseable(exceptionMessage: string)

  /** The runner's answer to the upload, already read as text. */
  datatype ScriptResponse =
    | Succeeded(body: string)
    | Rejected(body: string, error: ErrorBody)

  const ErrorParsePrefix := "Error parsing error response: "
  const ExecuteFailedMessage := "Failed to execute script."
  const RawResponsePrefix := "Raw response: "
  const Ellipsis := "..."

  /** The entries of a rejected upload: the parse failure, if any, then one
      ERROR entry with the body's detail or the default message. */
  function RejectionEntries(error: ErrorBody, ts: string): seq<ExecutionLogEntry> {
    match error
    case Unparseable(m) =>
      [Entry(ts, ErrorParsePrefix + m, DEBUG), Entry(ts, ExecuteFailedMessage, ERROR)]
    case Detail(d) => [Entry(ts, d.GetOr(ExecuteFailedMessage), ERROR)]
  }

  /** The DEBUG entry quoting the start of the raw reply. */
  function RawResponseEntry(raw: string, ts: string): ExecutionLogEntry {
    Entry(ts, RawResponsePrefix + Preview(raw) + Ellipsis, DEBUG)
  }

  /** The entries that follow the DEBUG entry: one per reply line, or the
      rejection's entries. */
  function OutcomeEntries(response: ScriptResponse, ts: string): seq<ExecutionLogEntry> {
    match response
    case Succeeded(body) => LineEntries(ReplyLines(body), ts)
    case Rejected(_, error) => RejectionEntries(error, ts)
  }

  /** The page's log list, which ExecuteScript appends to. */
  const VerifyingEndpointsMessage := "Verifying endpoints..."

  class GenerateScriptPage {
    var logs: seq<ExecutionLogEntry>

    /** The page's constructor: the log list starts empty, and
        VerifyEndpoints adds its first entry before it awaits anything. */
    constructor (ts: string)
      ensures logs == [Entry(ts, VerifyingEndpointsMessage, INFO)]
    {
      logs := [];
      logs := logs + [Entry(ts, VerifyingEndpointsMessage, INFO)];
    }

    /** ExecuteScript, after the upload: one DEBUG entry quoting the reply,
        then one entry per reply line, or the error entries. */
    method ExecuteScript(response: ScriptResponse, ts: string)
      modifies this
      ensures logs == old(logs) + [RawResponseEntry(response.body, ts)] + OutcomeEntries(response, ts)
    {
      logs := logs + [RawResponseEntry(response.body, ts)];
      LogOutcome(response, ts);
    }

    /** The branch on the response's status code. */
    method LogOutcome(response: ScriptResponse, ts: string)
      modifies this
      ensures logs == old(logs) + OutcomeEntries(response, ts)
    {
      if response.Succeeded? {
        LogReplyLines(response.body, ts);
      } else {
        LogRejection(response.error, ts);
      }
    }

    /** The failure branch of ExecuteScript. */
    method LogRejection(error: ErrorBody, ts: string)
      modifies this
      ensures logs == old(logs) + RejectionEntries(error, ts)
    {
      var errorMessage := ExecuteFailedMessage;
      match error {
        case Detail(d) =>
          errorMessage := d.GetOr(errorMessage);
        case Unparseable(m) =>
          logs := logs + [Entry(ts, ErrorParsePrefix + m, DEBUG)];
      }
      logs := logs + [Entry(ts, errorMessage, ERROR)];
    }

    /** The success branch of ExecuteScript: one entry per non-empty line. */
    method LogReplyLines(rawResponse: string, ts: string)
      modifies this
      ensures logs == old(logs) + LineEntries(ReplyLines(rawResponse), ts)
    {
      var logLines := SplitRemoveEmpty(rawResponse, '\n');
      for i := 0 to |logLines|
        invariant logs == old(logs) + LineEntries(logLines[..i], ts)
      {
        var line := logLines[i];
        var status := LineStatus(line);
        LineEntriesSnoc(logLines, i, ts);
        logs := logs + [Entry(ts, Trim(line), status)];
      }
      assert logLines[..|logLines|] == logLines;
    }
  }
}
