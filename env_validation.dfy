/** Detection of configuration values left over from the `.env.example`
    template, validation of required variables, and the human-readable report
    (installation_scripts/env_validation.py). The environment is an injected
    map from variable names to values; the filesystem is the set of paths
    that exist. */
module EnvValidation {
  import opened Wrappers
  import opened Strings

  datatype ErrorType = Missing | Placeholder

  /** One finding about one variable. */
  datatype ValidationError = ValidationError(
    variable: string,
    currentValue: string,
    errorType: ErrorType,
    suggestion: string)

  /** Known literal placeholders per variable, as in `.env.example`. */
  const PlaceholderPatterns: map<string, seq<string>> := map[
    "GCP_PROJECT_ID" := ["your-project-id"],
    "GCP_PROJECT_NUMBER" := ["123456789012"],
    "GCP_STAGING_BUCKET" := ["gs://your-staging-bucket"],
    "CHRONICLE_PROJECT_ID" := ["your-gcp-project-id", "your-project-id"],
    "CHRONICLE_CUSTOMER_ID" := ["your-customer-uuid"],
    "CHRONICLE_SERVICE_ACCOUNT_PATH" := ["/path/to/service-account.json"],
    "SOAR_URL" := ["https://your-instance.siemplify-soar.com:443"],
    "SOAR_API_KEY" := ["your-soar-api-key"],
    "GTI_API_KEY" := ["your-virustotal-api-key"],
    "RAG_CORPUS_ID" := ["projects/your-project-id/locations/us-central1/ragCorpora/1234567890"],
    "AGENTSPACE_APP_ID" := ["your-app-id"],
    "AGENTSPACE_AGENT_ID" := ["your-agent-id"]
  ]

  /** `value` is listed as a literal placeholder for `varName`. */
  predicate IsKnownPlaceholder(varName: string, value: string) {
    varName in PlaceholderPatterns && value in PlaceholderPatterns[varName]
  }

  /** The regular expression `your-[a-z-]+` finds a match starting at `i`. */
  predicate YourDashAt(value: string, i: int) {
    OccursAt(value, "your-", i) && i + 5 < |value| && ('a' <= value[i + 5] <= 'z' || value[i + 5] == '-')
  }

  /** The pattern rules, applied whatever the variable. */
  datatype PatternRule = YourDash | PathTo | ExampleProjectNumber {
    function Description(): string {
      match this
      case YourDash => "placeholder pattern 'your-...'"
      case PathTo => "placeholder path '/path/to/...'"
      case ExampleProjectNumber => "example project number"
    }

    /** `re.search(pattern, value)` succeeds. */
    predicate Matches(value: string) {
      match this
      case YourDash => exists i :: 0 <= i < |value| && YourDashAt(value, i)
      case PathTo => Contains(value, "/path/to/")
      case ExampleProjectNumber => Contains(value, "123456789012")
    }
  }

  /** The pattern rules in declared order. */
  const PatternRules: seq<PatternRule> := [YourDash, PathTo, ExampleProjectNumber]

  function ExactReason(placeholder: string): string {
    "matches .env.example placeholder: '" + placeholder + "'"
  }

  function PatternReason(rule: PatternRule): string {
    "contains " + rule.Description()
  }

  /** Rule `k` is the first of the pattern rules that matches `value`. */
  predicate FirstHit(value: string, k: int) {
    0 <= k < |PatternRules| && PatternRules[k].Matches(value)
    && forall j :: 0 <= j < k ==> !PatternRules[j].Matches(value)
  }

  /** Index of the first rule from `from` on that matches. */
  function FirstMatchFrom(value: string, from: nat): (r: Option<nat>)
    requires from <= |PatternRules|
    ensures r.Some? ==> from <= r.value < |PatternRules| && PatternRules[r.value].Matches(value)
                        && forall j :: from <= j < r.value ==> !PatternRules[j].Matches(value)
    ensures r.None? ==> forall j :: from <= j < |PatternRules| ==> !PatternRules[j].Matches(value)
    decreases |PatternRules| - from
  {
    if from == |PatternRules| then None
    else if PatternRules[from].Matches(value) then Some(from)
    else FirstMatchFrom(value, from + 1)
  }

  /** `is_placeholder_value`: whether `value` looks like a template
      placeholder, and why. An empty value is never a placeholder; an exact
      entry in the variable's table wins and quotes that entry; otherwise the
      first matching pattern rule gives the reason. */
  function IsPlaceholderValue(varName: string, value: string): (r: (bool, Option<string>))
    ensures value == "" ==> r == (false, None)
    ensures r.0 <==> r.1.Some?
    ensures value != "" && IsKnownPlaceholder(varName, value) ==> r == (true, Some(ExactReason(value)))
    ensures value != "" && !IsKnownPlaceholder(varName, value) ==>
              (r.0 <==> exists k :: 0 <= k < |PatternRules| && PatternRules[k].Matches(value))
    ensures value != "" && !IsKnownPlaceholder(varName, value) && r.0 ==>
              exists k :: FirstHit(value, k) && r.1 == Some(PatternReason(PatternRules[k]))
  {
    if value == "" then (false, None)
    else if IsKnownPlaceholder(varName, value) then (true, Some(ExactReason(value)))
    else
      match FirstMatchFrom(value, 0)
      case Some(k) =>
        assert FirstHit(value, k);
        (true, Some(PatternReason(PatternRules[k])))
      case None => (false, None)
  }

  /** `env.get(name)` read for truthiness: an absent variable reads as "". */
  function Value(env: map<string, string>, name: string): string {
    if name in env then env[name] else ""
  }

  /** The variable would be reported: it is missing or empty, or a placeholder. */
  predicate Flagged(name: string, env: map<string, string>) {
    Value(env, name) == "" || IsPlaceholderValue(name, Value(env, name)).0
  }

  /** The finding `validate_env_vars` records for one required variable. */
  function FindingFor(name: string, env: map<string, string>): (r: Option<ValidationError>)
    ensures r.Some? <==> Flagged(name, env)
  {
    var value := Value(env, name);
    if value == "" then
      Some(ValidationError(name, "", Missing, "Set " + name + " in your .env file"))
    else if IsPlaceholderValue(name, value).0 then
      Some(ValidationError(name, value, Placeholder, "Replace placeholder value with actual " + name))
    else
      None
  }

  function OptionToSeq<T>(o: Option<T>): seq<T> {
    match o
    case Some(x) => [x]
    case None => []
  }

  /** The findings for `required`, in input order. */
  function Findings(required: seq<string>, env: map<string, string>): seq<ValidationError> {
    if required == [] then []
    else Findings(required[..|required| - 1], env) + OptionToSeq(FindingFor(required[|required| - 1], env))
  }

  /** `validate_env_vars`: one pass over the required variables, appending a
      finding for each missing or placeholder value; valid exactly when no
      finding was recorded. */
  method ValidateEnvVars(required: seq<string>, env: map<string, string>)
    returns (isValid: bool, errors: seq<ValidationError>)
    ensures errors == Findings(required, env)
    ensures isValid <==> errors == []
  {
    errors := [];
    var i := 0;
    while i < |required|
      invariant 0 <= i <= |required|
      invariant errors == Findings(required[..i], env)
    {
      var name := required[i];
      var value := Value(env, name);
      assert required[..i + 1][..i] == required[..i];
      if value == "" {
        errors := errors + [ValidationError(name, "", Missing, "Set " + name + " in your .env file")];
      } else {
        var (isPlaceholder, _) := IsPlaceholderValue(name, value);
        if isPlaceholder {
          errors := errors + [ValidationError(name, value, Placeholder, "Replace placeholder value with actual " + name)];
        }
      }
      i := i + 1;
    }
    assert required[..|required|] == required;
    isValid := |errors| == 0;
  }

  /** Findings are computed variable by variable: those of a concatenation
      are the findings of each part, in order. */
  lemma {:induction false} FindingsAppend(a: seq<string>, b: seq<string>, env: map<string, string>)
    ensures Findings(a + b, env) == Findings(a, env) + Findings(b, env)
    decreases |b|
  {
    if b == [] {
      assert a + b == a;
    } else {
      var b' := b[..|b| - 1];
      assert (a + b)[..|a + b| - 1] == a + b';
      assert (a + b)[|a + b| - 1] == b[|b| - 1];
      FindingsAppend(a, b', env);
    }
  }

  /** At most one finding per required variable. */
  lemma {:induction false} FindingsAtMostOnePerVariable(required: seq<string>, env: map<string, string>)
    ensures |Findings(required, env)| <= |required|
    decreases |required|
  {
    if required != [] {
      FindingsAtMostOnePerVariable(required[..|required| - 1], env);
    }
  }

  /** Every finding is about a required variable that is flagged; a missing
      variable is reported only as missing (with an empty value), a
      placeholder keeps its value. */
  lemma {:induction false} FindingsSound(required: seq<string>, env: map<string, string>)
    ensures forall e :: e in Findings(required, env) ==>
              && e.variable in required
              && Flagged(e.variable, env)
              && (e.errorType == Missing <==> Value(env, e.variable) == "")
              && (e.errorType == Missing ==> e.currentValue == "")
              && (e.errorType == Placeholder ==> e.currentValue == Value(env, e.variable))
    decreases |required|
  {
    if required != [] {
      var init := required[..|required| - 1];
      FindingsSound(init, env);
      assert forall v :: v in init ==> v in required;
    }
  }

  /** Every flagged required variable is reported. */
  lemma {:induction false} FindingsComplete(required: seq<string>, env: map<string, string>)
    ensures forall v :: v in required && Flagged(v, env) ==>
              exists e :: e in Findings(required, env) && e.variable == v
    decreases |required|
  {
    if required != [] {
      var init := required[..|required| - 1];
      var last := required[|required| - 1];
      FindingsComplete(init, env);
      forall v | v in required && Flagged(v, env)
        ensures exists e :: e in Findings(required, env) && e.variable == v
      {
        if v == last {
          var e := FindingFor(last, env).value;
          assert e in Findings(required, env);
        } else {
          assert v in init by {
            var k :| 0 <= k < |required| && required[k] == v;
            assert k < |required| - 1;
            assert init[k] == v;
          }
          var e :| e in Findings(init, env) && e.variable == v;
          assert e in Findings(required, env);
        }
      }
    }
  }

  /** `is_valid` holds exactly when no required variable is missing, empty or
      a placeholder. */
  lemma ValidIffNothingFlagged(required: seq<string>, env: map<string, string>)
    ensures Findings(required, env) == [] <==> forall v :: v in required ==> !Flagged(v, env)
  {
    FindingsSound(required, env);
    FindingsComplete(required, env);
    if Findings(required, env) != [] {
      assert Findings(required, env)[0] in Findings(required, env);
    }
  }

  // ----- the report -----

  /** A value shown in the report: at most 50 characters, a longer one cut to
      its first 47 followed by "...". */
  function Truncated(value: string): (r: string)
    ensures |r| <= 50
    ensures |value| <= 50 ==> r == value
    ensures |value| > 50 ==> |r| == 50 && r[..47] == value[..47] && r[47..] == "..."
  {
    if |value| > 50 then value[..47] + "..." else value
  }

  /** `[e for e in errors if e.error_type == t]`. */
  function OfType(errors: seq<ValidationError>, t: ErrorType): (r: seq<ValidationError>)
    ensures |r| <= |errors|
    ensures forall e :: e in r <==> e in errors && e.errorType == t
  {
    if errors == [] then []
    else (if errors[0].errorType == t then [errors[0]] else []) + OfType(errors[1..], t)
  }

  /** Grouping keeps the input order inside each group. */
  lemma {:induction false} OfTypeAppend(a: seq<ValidationError>, b: seq<ValidationError>, t: ErrorType)
    ensures OfType(a + b, t) == OfType(a, t) + OfType(b, t)
    decreases |a|
  {
    if a == [] {
      assert a + b == b;
    } else {
      assert (a + b)[0] == a[0];
      assert (a + b)[1..] == a[1..] + b;
      OfTypeAppend(a[1..], b, t);
    }
  }

  const Header := "Environment variable validation failed:\n"
  const MissingHeading := "Missing required variables:"
  const PlaceholderHeading := "Variables contain placeholder values from .env.example (must be updated):"
  const ActionLines := [
    "Action required:",
    "1. Copy .env.example to .env (if you haven't already)",
    "2. Edit .env and replace ALL placeholder values with your actual configuration",
    "3. Refer to .env.example comments for guidance on each variable"
  ]

  function MissingLine(e: ValidationError): string {
    "  - " + e.variable
  }

  function PlaceholderLine(e: ValidationError): string {
    "  - " + e.variable + ": '" + Truncated(e.currentValue) + "'"
  }

  function MissingLines(es: seq<ValidationError>): (r: seq<string>)
    ensures |r| == |es| && forall k :: 0 <= k < |es| ==> r[k] == MissingLine(es[k])
  {
    seq(|es|, k requires 0 <= k < |es| => MissingLine(es[k]))
  }

  function PlaceholderLines(es: seq<ValidationError>): (r: seq<string>)
    ensures |r| == |es| && forall k :: 0 <= k < |es| ==> r[k] == PlaceholderLine(es[k])
  {
    seq(|es|, k requires 0 <= k < |es| => PlaceholderLine(es[k]))
  }

  /** A heading, the given lines and a blank line; nothing at all when there
      are no lines. */
  function Section(heading: string, body: seq<string>): seq<string> {
    if body == [] then [] else [heading] + body + [""]
  }

  /** The lines of the report for a non-empty list of findings: the missing
      group, then the placeholder group, then the instructions. */
  function ReportLines(errors: seq<ValidationError>): seq<string> {
    [Header]
    + Section(MissingHeading, MissingLines(OfType(errors, Missing)))
    + Section(PlaceholderHeading, PlaceholderLines(OfType(errors, Placeholder)))
    + ActionLines
  }

  /** The report text: "" when there is nothing to report. */
  function Report(errors: seq<ValidationError>): string {
    if errors == [] then "" else Join(ReportLines(errors), "\n")
  }

  /** The missing group of the report, built line by line. */
  method MissingSectionOf(missing: seq<ValidationError>) returns (lines: seq<string>)
    ensures lines == Section(MissingHeading, MissingLines(missing))
  {
    if |missing| == 0 {
      return [];
    }
    lines := [MissingHeading];
    var i := 0;
    while i < |missing|
      invariant 0 <= i <= |missing|
      invariant lines == [MissingHeading] + MissingLines(missing[..i])
    {
      lines := lines + ["  - " + missing[i].variable];
      i := i + 1;
    }
    assert missing[..i] == missing;
    lines := lines + [""];
  }

  /** The placeholder group of the report, built line by line; long values
      are cut to 47 characters and "...". */
  method PlaceholderSectionOf(placeholders: seq<ValidationError>) returns (lines: seq<string>)
    ensures lines == Section(PlaceholderHeading, PlaceholderLines(placeholders))
  {
    if |placeholders| == 0 {
      return [];
    }
    lines := [PlaceholderHeading];
    var i := 0;
    while i < |placeholders|
      invariant 0 <= i <= |placeholders|
      invariant lines == [PlaceholderHeading] + PlaceholderLines(placeholders[..i])
    {
      var shown := placeholders[i].currentValue;
      if |shown| > 50 {
        shown := shown[..47] + "...";
      }
      lines := lines + ["  - " + placeholders[i].variable + ": '" + shown + "'"];
      i := i + 1;
    }
    assert placeholders[..i] == placeholders;
    lines := lines + [""];
  }

  /** `format_validation_errors`: the header, each non-empty group, and the
      instructions, joined with newlines; "" for no findings. */
  method FormatValidationErrors(errors: seq<ValidationError>) returns (text: string)
    ensures text == Report(errors)
  {
    if |errors| == 0 {
      return "";
    }
    var missingPart := MissingSectionOf(OfType(errors, Missing));
    var placeholderPart := PlaceholderSectionOf(OfType(errors, Placeholder));
    text := Join([Header] + missingPart + placeholderPart + ActionLines, "\n");
  }

  /** `sep.join(parts)` begins with the first part. */
  lemma JoinStartsWithFirst(parts: seq<string>, sep: string)
    requires parts != []
    ensures parts[0] <= Join(parts, sep)
  {
  }

  /** The report is empty exactly when there are no findings. */
  lemma ReportEmptyIff(errors: seq<ValidationError>)
    ensures Report(errors) == "" <==> errors == []
  {
    if errors != [] {
      JoinStartsWithFirst(ReportLines(errors), "\n");
      assert |Header| > 0;
    }
  }

  lemma SectionIndex(heading: string, body: seq<string>, k: nat)
    requires k < |body|
    ensures |Section(heading, body)| == |body| + 2
    ensures Section(heading, body)[1 + k] == body[k]
  {
  }

  /** Positions in a report made of one header line, two non-empty groups
      and a footer. */
  lemma LayoutIndex(header: string, h1: string, h2: string, footer: seq<string>,
                    g1: seq<string>, g2: seq<string>, a: nat, b: nat)
    requires a < |g1| && b < |g2|
    ensures 4 + |g1| + b < |[header] + Section(h1, g1) + Section(h2, g2) + footer|
    ensures ([header] + Section(h1, g1) + Section(h2, g2) + footer)[2 + a] == g1[a]
    ensures ([header] + Section(h1, g1) + Section(h2, g2) + footer)[4 + |g1| + b] == g2[b]
  {
    SectionIndex(h1, g1, a);
    SectionIndex(h2, g2, b);
    var x, y, z, w := [header], Section(h1, g1), Section(h2, g2), footer;
    assert (x + y + z + w)[|x| + 1 + a] == y[1 + a];
    assert (x + y + z + w)[|x| + |y| + 1 + b] == z[1 + b];
  }

  /** Where the report puts the `a`-th missing and the `b`-th placeholder
      finding. */
  lemma ReportPositions(errors: seq<ValidationError>, a: nat, b: nat)
    requires a < |OfType(errors, Missing)| && b < |OfType(errors, Placeholder)|
    ensures 4 + |OfType(errors, Missing)| + b < |ReportLines(errors)|
    ensures ReportLines(errors)[2 + a] == MissingLine(OfType(errors, Missing)[a])
    ensures ReportLines(errors)[4 + |OfType(errors, Missing)| + b] == PlaceholderLine(OfType(errors, Placeholder)[b])
  {
    var missing := OfType(errors, Missing);
    var placeholders := OfType(errors, Placeholder);
    var g1, g2 := MissingLines(missing), PlaceholderLines(placeholders);
    assert ReportLines(errors) == [Header] + Section(MissingHeading, g1) + Section(PlaceholderHeading, g2) + ActionLines;
    LayoutIndex(Header, MissingHeading, PlaceholderHeading, ActionLines, g1, g2, a, b);
  }

  /** Position of a finding inside its group. */
  lemma GroupIndex(errors: seq<ValidationError>, t: ErrorType, e: ValidationError) returns (k: nat)
    requires e in errors && e.errorType == t
    ensures k < |OfType(errors, t)| && OfType(errors, t)[k] == e
  {
    var group := OfType(errors, t);
    assert e in group;
    k :| 0 <= k < |group| && group[k] == e;
  }

  /** Every missing variable is listed before every placeholder variable. */
  lemma MissingListedBeforePlaceholders(errors: seq<ValidationError>, m: ValidationError, p: ValidationError)
    requires m in errors && m.errorType == Missing
    requires p in errors && p.errorType == Placeholder
    ensures exists i, j :: 0 <= i < j < |ReportLines(errors)|
              && ReportLines(errors)[i] == MissingLine(m)
              && ReportLines(errors)[j] == PlaceholderLine(p)
  {
    var a := GroupIndex(errors, Missing, m);
    var b := GroupIndex(errors, Placeholder, p);
    ReportPositions(errors, a, b);
    var i, j := 2 + a, 4 + |OfType(errors, Missing)| + b;
    assert 0 <= i < j < |ReportLines(errors)|;
  }

  // ----- file paths -----

  /** `validate_file_path_exists`: a placeholder path is reported as a
      placeholder before existence is looked at; a real path that does not
      exist is reported as missing; otherwise there is no finding. */
  function ValidateFilePathExists(varName: string, path: string, existing: set<string>): (r: Option<ValidationError>)
    ensures r.None? <==> !IsPlaceholderValue(varName, path).0 && path in existing
    ensures IsPlaceholderValue(varName, path).0 ==> r.Some? && r.value.errorType == Placeholder
    ensures r.Some? ==> r.value.variable == varName && r.value.currentValue == path
    ensures r.Some? && r.value.errorType == Missing ==>
              path !in existing && r.value.suggestion == "File does not exist: " + path
  {
    if IsPlaceholderValue(varName, path).0 then
      Some(ValidationError(varName, path, Placeholder,
        "Replace with actual path to your " + ReplaceChar(Lower(varName), '_', ' ')))
    else if path !in existing then
      Some(ValidationError(varName, path, Missing, "File does not exist: " + path))
    else
      None
  }
}
