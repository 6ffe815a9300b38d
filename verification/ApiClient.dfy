/** The HTTP client's configuration (Services/ApiClient.cs): the settings and
    their defaults, the case-insensitive endpoint table with its first-wins
    normalisation and its fallback, placeholder substitution in Resolve, and
    the Authorization header SetBearer maintains. */
module ApiClient {
  import opened Wrappers
  import opened Strings
  import opened UriEscaping

  /** An endpoint table, in the order its dictionary enumerates: name and
      path template. */
  type Endpoints = seq<(string, string)>

  /** The "Api" section of the configuration. A null Endpoints is None. */
  datatype ApiSettings = ApiSettings(
    baseUrl: string,
    apiKey: string,
    timeoutSeconds: int,
    endpoints: Option<Endpoints>)

  const DefaultBaseUrl := "http://127.0.0.1:8002/"
  const DefaultTimeoutSeconds := 100

  /** The settings used when none could be loaded. */
  const DefaultSettings := ApiSettings(DefaultBaseUrl, "", DefaultTimeoutSeconds, Some([]))

  function SettingsOrDefault(loaded: Option<ApiSettings>): (r: ApiSettings)
    ensures loaded.None? ==> r.baseUrl == DefaultBaseUrl && r.apiKey == [] && r.timeoutSeconds == 100
    ensures loaded.Some? ==> r == loaded.value
  {
    loaded.GetOr(DefaultSettings)
  }

  // ---------------------------------------------------------------------
  // The case-insensitive table

  /** Some entry's name equals the key, ignoring case. */
  predicate HasKey(table: Endpoints, key: string) {
    exists i :: 0 <= i < |table| && EqualsIgnoreCase(table[i].0, key)
  }

  /** Entry i is the first whose name equals the key, ignoring case. */
  predicate FirstMatch(table: Endpoints, key: string, i: int) {
    && 0 <= i < |table| && EqualsIgnoreCase(table[i].0, key)
    && forall j :: 0 <= j < i ==> !EqualsIgnoreCase(table[j].0, key)
  }

  /** TryGetValue with an OrdinalIgnoreCase comparer: the template of the
      first entry whose name matches. */
  function Lookup(table: Endpoints, key: string): (r: Option<string>)
    ensures r.Some? <==> HasKey(table, key)
    ensures r.Some? ==> exists i :: FirstMatch(table, key, i) && table[i].1 == r.value
  {
    if table == [] then None
    else if EqualsIgnoreCase(table[0].0, key) then
      assert FirstMatch(table, key, 0);
      Some(table[0].1)
    else
      var r := Lookup(table[1..], key);
      if r.Some? then
        var i :| FirstMatch(table[1..], key, i) && table[1..][i].1 == r.value;
        assert FirstMatch(table, key, i + 1);
        r
      else
        r
  }

  /** No two names differ only by case. */
  predicate DistinctKeys(table: Endpoints) {
    forall i, j :: 0 <= i < j < |table| ==> !EqualsIgnoreCase(table[i].0, table[j].0)
  }

  lemma EqualsIgnoreCaseEquivalence(a: string, b: string, c: string)
    ensures EqualsIgnoreCase(a, a)
    ensures EqualsIgnoreCase(a, b) ==> EqualsIgnoreCase(b, a)
    ensures EqualsIgnoreCase(a, b) && EqualsIgnoreCase(b, c) ==> EqualsIgnoreCase(a, c)
  {
  }

  /** The constructor's foreach: an entry is added only when no entry with
      the same name, ignoring case, was added before it. */
  function Normalize(entries: Endpoints): (r: Endpoints)
    ensures DistinctKeys(r)
    ensures |r| <= |entries|
    ensures forall i :: 0 <= i < |r| ==> r[i] in entries
    decreases |entries|
  {
    if entries == [] then []
    else
      var previous := Normalize(entries[..|entries| - 1]);
      var kv := entries[|entries| - 1];
      if HasKey(previous, kv.0) then previous
      else
        forall i | 0 <= i < |previous|
          ensures !EqualsIgnoreCase(previous[i].0, kv.0)
        {
        }
        previous + [kv]
  }

  /** Looking up in a table with one more entry at the end. */
  lemma {:induction false} LookupSnoc(table: Endpoints, kv: (string, string), key: string)
    ensures Lookup(table + [kv], key) ==
      if HasKey(table, key) then Lookup(table, key)
      else if EqualsIgnoreCase(kv.0, key) then Some(kv.1)
      else None
    decreases |table|
  {
    var t := table + [kv];
    if table == [] {
      assert t == [kv];
    } else {
      assert t[0] == table[0] && t[1..] == table[1..] + [kv];
      if !EqualsIgnoreCase(table[0].0, key) {
        LookupSnoc(table[1..], kv, key);
        assert HasKey(table, key) <==> HasKey(table[1..], key) by {
          if HasKey(table, key) {
            var i :| 0 <= i < |table| && EqualsIgnoreCase(table[i].0, key);
            assert table[1..][i - 1] == table[i];
          }
          if HasKey(table[1..], key) {
            var i :| 0 <= i < |table[1..]| && EqualsIgnoreCase(table[1..][i].0, key);
            assert table[i + 1] == table[1..][i];
          }
        }
      } else {
        assert HasKey(table, key) by { assert EqualsIgnoreCase(table[0].0, key); }
      }
    }
  }

  /** First wins: looking a name up in the normalised table finds what the
      first matching entry of the loaded table says, and nothing when no
      entry matches. */
  lemma {:induction false} NormalizeLookup(entries: Endpoints, key: string)
    ensures Lookup(Normalize(entries), key) == Lookup(entries, key)
    decreases |entries|
  {
    if entries != [] {
      var init := entries[..|entries| - 1];
      var kv := entries[|entries| - 1];
      var previous := Normalize(init);
      assert entries == init + [kv];
      NormalizeLookup(init, key);
      LookupSnoc(init, kv, key);
      NormalizeLookup(init, kv.0);
      if !HasKey(previous, kv.0) {
        LookupSnoc(previous, kv, key);
      }
    }
  }

  /** Normalisation keeps every name, and empties only an empty table. */
  lemma NormalizeKeys(entries: Endpoints, key: string)
    ensures HasKey(Normalize(entries), key) <==> HasKey(entries, key)
    ensures Normalize(entries) == [] <==> entries == []
  {
    NormalizeLookup(entries, key);
    if entries != [] {
      NormalizeLookup(entries, entries[0].0);
      assert EqualsIgnoreCase(entries[0].0, entries[0].0);
    }
  }

  /** A table whose names already differ beyond case is kept as it is. */
  lemma {:induction false} NormalizeDistinct(entries: Endpoints)
    requires DistinctKeys(entries)
    ensures Normalize(entries) == entries
    decreases |entries|
  {
    if entries != [] {
      var init := entries[..|entries| - 1];
      var kv := entries[|entries| - 1];
      assert DistinctKeys(init);
      NormalizeDistinct(init);
      NormalizeKeys(init, kv.0);
      assert entries == init + [kv];
    }
  }

  // ---------------------------------------------------------------------
  // The fallback table

  const GetTestStepsKey := "GetTestSteps"
  const GetTestCasesKey := "GetTestCases"
  const GetProjectsKey := "GetProjects"
  const CreateProjectKey := "CreateProject"
  const LoginKey := "Login"
  const TestPlanKey := "TestPlan"
  const ExecuteCodeKey := "ExecuteCode"
  const ExecutionLogsKey := "ExecutionLogs"

  const GetTestStepsTemplate := "testcases/{testCaseId}/steps"
  const GetTestCasesTemplate := "projects/{projectId}/testcases"
  const GetProjectsTemplate := "my-projects"
  const CreateProjectTemplate := "project/"
  const LoginTemplate := "login/"
  const TestPlanTemplate := "testplan/{testCaseId}"
  const ExecuteCodeTemplate := "execute-code?script_type={script_type}"
  const ExecutionLogsTemplate := "execution"

  /** The eight endpoints used when the configuration supplies none. */
  const DefaultEndpoints: Endpoints := [
    (GetTestStepsKey, GetTestStepsTemplate),
    (GetTestCasesKey, GetTestCasesTemplate),
    (GetProjectsKey, GetProjectsTemplate),
    (CreateProjectKey, CreateProjectTemplate),
    (LoginKey, LoginTemplate),
    (TestPlanKey, TestPlanTemplate),
    (ExecuteCodeKey, ExecuteCodeTemplate),
    (ExecutionLogsKey, ExecutionLogsTemplate)
  ]

  /** The eight default names differ beyond case. */
  lemma DefaultEndpointsDistinct()
    ensures |DefaultEndpoints| == 8 && DefaultEndpoints != []
    ensures DistinctKeys(DefaultEndpoints)
  {
    assert LowerChar(GetTestStepsKey[7]) != LowerChar(GetTestCasesKey[7]);
    assert LowerChar(GetProjectsKey[0]) != LowerChar(ExecuteCodeKey[0]);
    assert LowerChar(CreateProjectKey[0]) != LowerChar(ExecutionLogsKey[0]);
  }

  /** The table the constructor leaves: the normalised loaded table, or the
      defaults when that is empty (a null table counts as empty). */
  function EndpointTable(endpoints: Option<Endpoints>): (r: Endpoints)
    ensures r != [] && DistinctKeys(r)
  {
    DefaultEndpointsDistinct();
    var normalized := match endpoints case None => [] case Some(e) => Normalize(e);
    if |normalized| == 0 then DefaultEndpoints else normalized
  }

  /** A loaded, non-empty table answers lookups as its first matching entry
      does; otherwise the defaults answer. */
  lemma EndpointTableLookup(endpoints: Option<Endpoints>, key: string)
    ensures endpoints.Some? && endpoints.value != [] ==>
      Lookup(EndpointTable(endpoints), key) == Lookup(endpoints.value, key)
    ensures endpoints.None? || endpoints.value == [] ==>
      EndpointTable(endpoints) == DefaultEndpoints
  {
    if endpoints.Some? {
      NormalizeKeys(endpoints.value, key);
      NormalizeLookup(endpoints.value, key);
    }
  }

  /** The test plan endpoint, found with its name in any case. */
  lemma DefaultTestPlan()
    ensures Lookup(DefaultEndpoints, TestPlanKey) == Some(TestPlanTemplate)
    ensures Lookup(DefaultEndpoints, "testplan") == Some(TestPlanTemplate)
  {
    assert EqualsIgnoreCase(DefaultEndpoints[5].0, "testplan");
    assert FirstMatch(DefaultEndpoints, "testplan", 5);
  }

  /** The code execution endpoint. */
  lemma DefaultExecuteCode()
    ensures Lookup(DefaultEndpoints, ExecuteCodeKey) == Some(ExecuteCodeTemplate)
  {
    DefaultEndpointsDistinct();
    assert FirstMatch(DefaultEndpoints, ExecuteCodeKey, 6);
  }

  /** The test case listing endpoint. */
  lemma DefaultGetTestCases()
    ensures Lookup(DefaultEndpoints, GetTestCasesKey) == Some(GetTestCasesTemplate)
  {
    DefaultEndpointsDistinct();
    assert FirstMatch(DefaultEndpoints, GetTestCasesKey, 1);
  }

  // ---------------------------------------------------------------------
  // Resolve

  /** "{" + name + "}". */
  function Placeholder(name: string): (r: string)
    ensures r != [] && r[0] == '{' && r[|r| - 1] == '}'
  {
    "{" + name + "}"
  }

  /** A supplied parameter's replacement: its value escaped, "" for null. */
  function Replacement(value: Option<string>): string {
    EscapeDataString(value.GetOr(""))
  }

  /** The foreach of Resolve: each parameter in turn replaces every
      occurrence of its placeholder in the current template. */
  function Substitute(template: string, parameters: seq<(string, Option<string>)>): string
    decreases |parameters|
  {
    if parameters == [] then template
    else
      var kv := parameters[|parameters| - 1];
      ReplaceAll(Substitute(template, parameters[..|parameters| - 1]), Placeholder(kv.0), Replacement(kv.1))
  }

  /** Resolve: the configured template of the name, or the argument itself
      taken as a template, then the parameters substituted. */
  function ResolveUrl(table: Endpoints, keyOrTemplate: string, parameters: Option<seq<(string, Option<string>)>>): string {
    Substitute(Lookup(table, keyOrTemplate).GetOr(keyOrTemplate), parameters.GetOr([]))
  }

  /** Without parameters, a configured name resolves to its template and
      anything else to itself. */
  lemma ResolveWithoutParameters(table: Endpoints, keyOrTemplate: string)
    ensures HasKey(table, keyOrTemplate) ==>
      exists i :: FirstMatch(table, keyOrTemplate, i) && ResolveUrl(table, keyOrTemplate, None) == table[i].1
    ensures !HasKey(table, keyOrTemplate) ==> ResolveUrl(table, keyOrTemplate, None) == keyOrTemplate
    ensures ResolveUrl(table, keyOrTemplate, Some([])) == ResolveUrl(table, keyOrTemplate, None)
  {
    var found := Lookup(table, keyOrTemplate);
    assert ResolveUrl(table, keyOrTemplate, None) == found.GetOr(keyOrTemplate);
    if found.Some? {
      var i :| FirstMatch(table, keyOrTemplate, i) && table[i].1 == found.value;
    }
  }

  /** Parameters are applied in order: the first batch, then the second on
      its result. */
  lemma {:induction false} SubstituteAppend(template: string, first: seq<(string, Option<string>)>, second: seq<(string, Option<string>)>)
    ensures Substitute(template, first + second) == Substitute(Substitute(template, first), second)
    decreases |second|
  {
    if second == [] {
      assert first + second == first;
    } else {
      var all := first + second;
      assert all[..|all| - 1] == first + second[..|second| - 1];
      assert all[|all| - 1] == second[|second| - 1];
      SubstituteAppend(template, first, second[..|second| - 1]);
    }
  }

  /** A template holding none of the supplied placeholders comes back
      verbatim. */
  lemma {:induction false} SubstituteUnused(template: string, parameters: seq<(string, Option<string>)>)
    requires forall i :: 0 <= i < |parameters| ==> !Contains(template, Placeholder(parameters[i].0))
    ensures Substitute(template, parameters) == template
    decreases |parameters|
  {
    if parameters != [] {
      var kv := parameters[|parameters| - 1];
      SubstituteUnused(template, parameters[..|parameters| - 1]);
      ReplaceAllAbsent(template, Placeholder(kv.0), Replacement(kv.1));
    }
  }

  /** One parameter changes the length by one replacement per occurrence of
      its placeholder; a null value deletes the placeholders. */
  lemma SubstituteOne(template: string, name: string, value: Option<string>)
    ensures |Substitute(template, [(name, value)])|
      == |template| + Occurrences(template, Placeholder(name)) * (|Replacement(value)| - |Placeholder(name)|)
    ensures value.None? ==> Replacement(value) == []
  {
    assert [(name, value)][..0] == [];
    ReplaceAllLength(template, Placeholder(name), Replacement(value));
  }

  /** A name that can sit between the braces of a placeholder. */
  predicate BraceFree(name: string) {
    '{' !in name && '}' !in name
  }

  /** A replacement never holds a brace. */
  lemma ReplacementBraceFree(value: Option<string>)
    ensures BraceFree(Replacement(value))
  {
    var r := Replacement(value);
    forall i | 0 <= i < |r|
      ensures r[i] != '{' && r[i] != '}'
    {
      assert IsUnreserved(r[i]) || r[i] == '%';
    }
  }

  /** No placeholder starts at a character that is not an opening brace. */
  lemma NoPlaceholderAt(x: string, y: string, name: string)
    requires '{' !in x
    ensures forall i :: 0 <= i < |x| ==> !IsPrefix(Placeholder(name), (x + y)[i..])
  {
    forall i | 0 <= i < |x|
      ensures !IsPrefix(Placeholder(name), (x + y)[i..])
    {
      assert (x + y)[i..][0] == x[i];
    }
  }

  /** After its opening brace a placeholder holds no other opening brace. */
  lemma PlaceholderTail(name: string)
    requires BraceFree(name)
    ensures Placeholder(name) == ['{'] + Placeholder(name)[1..]
    ensures Placeholder(name)[1..] == name + "}"
    ensures '{' !in Placeholder(name)[1..]
  {
  }

  /** Text without an opening brace is copied by Replace and not counted. */
  lemma SkipBraceFree(x: string, y: string, name: string, rep: string)
    requires '{' !in x
    ensures ReplaceAll(x + y, Placeholder(name), rep) == x + ReplaceAll(y, Placeholder(name), rep)
    ensures Occurrences(x + y, Placeholder(name)) == Occurrences(y, Placeholder(name))
  {
    NoPlaceholderAt(x, y, name);
    ReplaceAllSkip(x, y, Placeholder(name), rep);
    OccurrencesSkip(x, y, Placeholder(name));
  }

  /** Two placeholders with brace-free names that start at the same place
      are the same placeholder: the first closing brace ends both. */
  lemma PlaceholdersAtSamePlace(s: string, a: string, b: string)
    requires BraceFree(a) && BraceFree(b)
    requires IsPrefix(Placeholder(a), s) && IsPrefix(Placeholder(b), s)
    ensures a == b
  {
    var pa, pb := Placeholder(a), Placeholder(b);
    forall j | 1 <= j < |pa| - 1
      ensures s[j] != '}'
    {
      assert s[j] == pa[j] == a[j - 1];
    }
    forall j | 1 <= j < |pb| - 1
      ensures s[j] != '}'
    {
      assert s[j] == pb[j] == b[j - 1];
    }
    assert s[|pa| - 1] == '}' && s[|pb| - 1] == '}';
    assert |a| == |b|;
    forall i | 0 <= i < |a|
      ensures a[i] == b[i]
    {
      assert s[i + 1] == pa[i + 1] == a[i];
      assert s[i + 1] == pb[i + 1] == b[i];
    }
  }

  /** Prepending one character never loses an occurrence of a placeholder. */
  lemma OccurrencesCons(c: char, rest: string, name: string)
    requires BraceFree(name)
    ensures Occurrences([c] + rest, Placeholder(name)) >= Occurrences(rest, Placeholder(name))
  {
    var q := Placeholder(name);
    var s := [c] + rest;
    if |s| >= |q| && s[..|q|] == q {
      var tail := name + "}";
      assert rest == tail + rest[|tail|..] by {
        assert rest[..|tail|] == s[1..|q|] == q[1..] == tail;
      }
      SkipBraceFree(tail, rest[|tail|..], name, "");
      assert s[|q|..] == rest[|tail|..];
    } else if |s| >= |q| {
      assert s[1..] == rest;
    } else {
      assert Occurrences(rest, q) == 0;
    }
  }

  /** Replacing one placeholder by a brace-free text never loses an
      occurrence of another placeholder. It can gain one: see
      PlaceholderFormedByReplacement. */
  lemma {:induction false} ReplaceKeepsOtherPlaceholder(s: string, a: string, b: string, rep: string)
    requires BraceFree(a) && BraceFree(b) && a != b && '{' !in rep
    ensures Occurrences(ReplaceAll(s, Placeholder(a), rep), Placeholder(b)) >= Occurrences(s, Placeholder(b))
    decreases |s|
  {
    var pa, q := Placeholder(a), Placeholder(b);
    if |s| < |pa| {
    } else if s[..|pa|] == pa {
      ReplaceKeepsOtherPlaceholder(s[|pa|..], a, b, rep);
      KeepAtReplaced(s, a, b, rep);
    } else if |s| >= |q| && s[..|q|] == q {
      ReplaceKeepsOtherPlaceholder(s[|q|..], a, b, rep);
      KeepAtOther(s, a, b, rep);
    } else {
      ReplaceKeepsOtherPlaceholder(s[1..], a, b, rep);
      OccurrencesCons(s[0], ReplaceAll(s[1..], pa, rep), b);
      if |s| < |q| {
        assert Occurrences(s, q) == 0;
      }
    }
  }

  /** The step of ReplaceKeepsOtherPlaceholder where the replaced
      placeholder starts the text. */
  lemma KeepAtReplaced(s: string, a: string, b: string, rep: string)
    requires BraceFree(a) && BraceFree(b) && a != b && '{' !in rep
    requires IsPrefix(Placeholder(a), s)
    requires Occurrences(ReplaceAll(s[|Placeholder(a)|..], Placeholder(a), rep), Placeholder(b))
      >= Occurrences(s[|Placeholder(a)|..], Placeholder(b))
    ensures Occurrences(ReplaceAll(s, Placeholder(a), rep), Placeholder(b)) >= Occurrences(s, Placeholder(b))
  {
    var pa, q := Placeholder(a), Placeholder(b);
    var rest := s[|pa|..];
    PrefixSplit(pa, s);
    PlaceholderTail(a);
    assert ReplaceAll(s, pa, rep) == rep + ReplaceAll(rest, pa, rep);
    SkipBraceFree(rep, ReplaceAll(rest, pa, rep), b, rep);
    if |s| >= |q| {
      if s[..|q|] == q {
        PlaceholdersAtSamePlace(s, a, b);
      }
      SkipBraceFree(pa[1..], rest, b, rep);
    } else {
      assert Occurrences(s, q) == 0;
    }
  }

  /** The step of ReplaceKeepsOtherPlaceholder where the other placeholder
      starts the text: Replace copies it whole. */
  lemma KeepAtOther(s: string, a: string, b: string, rep: string)
    requires BraceFree(a) && BraceFree(b) && a != b && '{' !in rep
    requires !IsPrefix(Placeholder(a), s) && IsPrefix(Placeholder(b), s)
    requires Occurrences(ReplaceAll(s[|Placeholder(b)|..], Placeholder(a), rep), Placeholder(b))
      >= Occurrences(s[|Placeholder(b)|..], Placeholder(b))
    ensures Occurrences(ReplaceAll(s, Placeholder(a), rep), Placeholder(b)) >= Occurrences(s, Placeholder(b))
  {
    var pa, q := Placeholder(a), Placeholder(b);
    var rest := s[|q|..];
    var tail := ReplaceAll(rest, pa, rep);
    PrefixSplit(q, s);
    PlaceholderTail(b);
    SkipBraceFree(q[1..], rest, a, rep);
    ReplaceAllHead(s, pa, rep);
    assert ReplaceAll(s[1..], pa, rep) == q[1..] + tail;
    ConsSplit(q, tail);
    OccurrencesHead(q, tail);
    OccurrencesHead(q, rest);
  }

  /** A placeholder no parameter names keeps every one of its occurrences in
      the template through the whole substitution (when the names are plain
      words, without braces). */
  lemma {:induction false} SubstituteKeepsUnsuppliedPlaceholder(template: string, parameters: seq<(string, Option<string>)>, name: string)
    requires BraceFree(name)
    requires forall i :: 0 <= i < |parameters| ==> BraceFree(parameters[i].0) && parameters[i].0 != name
    ensures Occurrences(Substitute(template, parameters), Placeholder(name)) >= Occurrences(template, Placeholder(name))
    decreases |parameters|
  {
    if parameters != [] {
      var kv := parameters[|parameters| - 1];
      SubstituteKeepsUnsuppliedPlaceholder(template, parameters[..|parameters| - 1], name);
      ReplacementBraceFree(kv.1);
      ReplaceKeepsOtherPlaceholder(Substitute(template, parameters[..|parameters| - 1]), kv.0, name, Replacement(kv.1));
    }
  }

  /** Substitution works on text, not on placeholders: a replacement can
      complete a placeholder around it. "{{a}}" with a = "b" becomes "{b}",
      which was not in the template, and with a = "a" becomes "{a}" again,
      the supplied placeholder itself. */
  lemma PlaceholderFormedByReplacement()
    ensures Occurrences("{{a}}", Placeholder("b")) == 0
    ensures Substitute("{{a}}", [("a", Some("b"))]) == Placeholder("b")
    ensures Substitute("{{a}}", [("a", Some("a"))]) == Placeholder("a")
  {
    assert EscapeDataString("b") == "b" by {
      EscapeUnreservedIdentity("b");
    }
    assert EscapeDataString("a") == "a" by {
      EscapeUnreservedIdentity("a");
    }
    assert [("a", Some("b"))][..0] == [];
    assert [("a", Some("a"))][..0] == [];
  }

  // ---------------------------------------------------------------------
  // Headers

  /** An Authorization header value: scheme and parameter. */
  datatype AuthenticationHeader = AuthenticationHeader(scheme: string, parameter: string)

  const BearerScheme := "Bearer"

  /** The header SetBearer leaves: none for a null or blank token, else the
      token as a Bearer credential. */
  function BearerHeader(token: Option<string>): (r: Option<AuthenticationHeader>)
    ensures r.None? <==> token.None? || IsBlank(token.value)
    ensures r.Some? ==> r.value.scheme == BearerScheme && r.value.parameter == token.value
  {
    if IsNullOrWhiteSpace(token) then None else Some(AuthenticationHeader(BearerScheme, token.value))
  }

  /** The X-Api-Key header: present only for a non-empty key. */
  function ApiKeyHeader(apiKey: string): (r: Option<string>)
    ensures r.Some? <==> apiKey != []
    ensures r.Some? ==> r.value == apiKey
  {
    if apiKey == "" then None else Some(apiKey)
  }

  // ---------------------------------------------------------------------
  // The client

  class Client {
    var settings: ApiSettings
    var endpoints: Endpoints
    var apiKeyHeader: Option<string>
    var authorization: Option<AuthenticationHeader>

    /** The constructor, given what the configuration file yielded. */
    constructor (loaded: Option<ApiSettings>)
      ensures settings == SettingsOrDefault(loaded).(endpoints := Some(endpoints))
      ensures endpoints == EndpointTable(SettingsOrDefault(loaded).endpoints)
      ensures apiKeyHeader == ApiKeyHeader(settings.apiKey)
      ensures authorization.None?
    {
      var s := SettingsOrDefault(loaded);
      var table: Endpoints := [];
      if s.endpoints.Some? {
        table := NormalizeEndpoints(s.endpoints.value);
      }
      if |table| == 0 {
        table := DefaultEndpoints;
      }
      settings := s.(endpoints := Some(table));
      endpoints := table;
      apiKeyHeader := if s.apiKey == "" then None else Some(s.apiKey);
      authorization := None;
    }

    /** The configured base URL. */
    function BaseUrl(): string
      reads this
    {
      settings.baseUrl
    }

    method SetBearer(token: Option<string>)
      modifies this
      ensures authorization == BearerHeader(token)
      ensures settings == old(settings) && endpoints == old(endpoints) && apiKeyHeader == old(apiKeyHeader)
    {
      if IsNullOrWhiteSpace(token) {
        authorization := None;
        return;
      }
      authorization := Some(AuthenticationHeader(BearerScheme, token.value));
    }

    method Resolve(keyOrTemplate: string, parameters: Option<seq<(string, Option<string>)>>) returns (url: string)
      ensures url == ResolveUrl(endpoints, keyOrTemplate, parameters)
    {
      var template := keyOrTemplate;
      var configured := Lookup(endpoints, keyOrTemplate);
      if configured.Some? {
        template := configured.value;
      }
      if parameters.Some? {
        var ps := parameters.value;
        ghost var start := template;
        for i := 0 to |ps|
          invariant template == Substitute(start, ps[..i])
        {
          assert ps[..i + 1][..i] == ps[..i];
          template := ReplaceAll(template, "{" + ps[i].0 + "}", EscapeDataString(ps[i].1.GetOr("")));
        }
        assert ps[..|ps|] == ps;
      }
      url := template;
    }
  }

  /** The constructor's normalising foreach. */
  method NormalizeEndpoints(entries: Endpoints) returns (normalized: Endpoints)
    ensures normalized == Normalize(entries)
  {
    normalized := [];
    for i := 0 to |entries|
      invariant normalized == Normalize(entries[..i])
    {
      assert entries[..i + 1][..i] == entries[..i];
      var kv := entries[i];
      var present := HasKeyIn(normalized, kv.0);
      if !present {
        normalized := normalized + [kv];
      }
    }
    assert entries[..|entries|] == entries;
  }

  /** Dictionary.ContainsKey under the OrdinalIgnoreCase comparer. */
  method HasKeyIn(table: Endpoints, key: string) returns (found: bool)
    ensures found <==> HasKey(table, key)
  {
    found := false;
    for i := 0 to |table|
      invariant found <==> exists j :: 0 <= j < i && EqualsIgnoreCase(table[j].0, key)
    {
      if EqualsIgnoreCase(table[i].0, key) {
        found := true;
      }
    }
  }
}
