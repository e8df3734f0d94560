/**
 * Loading a spec file (src/loadSpec.ts): read, parse, validate, each step
 * failing with its own message, and the formatting of validation issues.
 * Reading the file and `JSON.parse` are parameters: `read` gives the file's
 * text or the failure message, `parse` the parsed document or the message.
 */
module LoadSpec {
  import opened Json
  import opened Text
  import Spec

  /** An issue's place: its segments joined by dots, or "(root)" when that text is empty. */
  function PathText(path: seq<string>): (r: string)
    ensures |r| >= 1
  {
    var joined := Join(path, ".");
    if joined == "" then "(root)" else joined
  }

  /** One line of the report. */
  function IssueLine(issue: Spec.Issue): string
  {
    "- " + PathText(issue.path) + ": " + issue.message
  }

  /** The lines of all issues, in order, joined by newlines. */
  function FormatIssues(issues: seq<Spec.Issue>): string
  {
    Join(seq(|issues|, k requires 0 <= k < |issues| => IssueLine(issues[k])), "\n")
  }

  function ReadFailure(specPath: string, message: string): string
  {
    "Failed to read spec file " + specPath + ": " + message
  }

  function ParseFailure(specPath: string, message: string): string
  {
    "Failed to parse spec file " + specPath + ": " + message
  }

  function InvalidSpec(specPath: string, issues: seq<Spec.Issue>): string
  {
    "Invalid spec file " + specPath + ": " + FormatIssues(issues)
  }

  /** `loadSpecFromFile`: the three steps in order, each stopping at its failure. */
  method LoadSpecFromFile(specPath: string, read: string -> Result<string, string>, parse: string -> Result<Value, string>)
    returns (r: Result<Spec.MockSpec, string>)
    ensures read(specPath).Err? ==> r == Err(ReadFailure(specPath, read(specPath).error))
    ensures read(specPath).Ok? && parse(read(specPath).value).Err? ==>
              r == Err(ParseFailure(specPath, parse(read(specPath).value).error))
    ensures read(specPath).Ok? && parse(read(specPath).value).Ok? ==>
              var checked := Spec.Validate(parse(read(specPath).value).value);
              (checked.Err? ==> r == Err(InvalidSpec(specPath, checked.error))) &&
              (checked.Ok? ==> r == Ok(checked.value))
  {
    var raw := read(specPath);
    if raw.Err? {
      return Err(ReadFailure(specPath, raw.error));
    }
    var json := parse(raw.value);
    if json.Err? {
      return Err(ParseFailure(specPath, json.error));
    }
    var parsed := Spec.Validate(json.value);
    if parsed.Err? {
      return Err(InvalidSpec(specPath, parsed.error));
    }
    return Ok(parsed.value);
  }

  // ---------------------------------------------------------------------------
  // Properties of the report

  predicate NoNewline(s: string)
  {
    forall j :: 0 <= j < |s| ==> s[j] != '\n'
  }

  /** Issues whose paths and messages hold no newline. */
  predicate SingleLine(issues: seq<Spec.Issue>)
  {
    forall k :: 0 <= k < |issues| ==>
      NoNewline(issues[k].message) && forall m :: 0 <= m < |issues[k].path| ==> NoNewline(issues[k].path[m])
  }

  lemma {:induction false} JoinNoNewline(parts: seq<string>, sep: string)
    requires forall m :: 0 <= m < |parts| ==> NoNewline(parts[m])
    requires NoNewline(sep)
    ensures NoNewline(Join(parts, sep))
    decreases |parts|
  {
    if |parts| > 1 {
      JoinNoNewline(parts[1..], sep);
      assert Join(parts, sep) == parts[0] + sep + Join(parts[1..], sep);
    }
  }

  /**
   * The report holds exactly one line per issue: splitting it at newlines
   * gives back each issue's line, in order.
   */
  lemma OneLinePerIssue(issues: seq<Spec.Issue>)
    requires |issues| >= 1 && SingleLine(issues)
    ensures Split(FormatIssues(issues), '\n') == seq(|issues|, k requires 0 <= k < |issues| => IssueLine(issues[k]))
  {
    var lines := seq(|issues|, k requires 0 <= k < |issues| => IssueLine(issues[k]));
    forall k | 0 <= k < |lines| ensures NoNewline(lines[k]) {
      var issue := issues[k];
      JoinNoNewline(issue.path, ".");
      assert NoNewline(PathText(issue.path));
      assert lines[k] == "- " + PathText(issue.path) + ": " + issue.message;
    }
    SplitJoin(lines, '\n');
  }

  /** A path shows as its dotted text; the empty path shows as "(root)". */
  lemma PathTextExamples(a: string, b: string)
    requires a != ""
    ensures PathText([]) == "(root)"
    ensures PathText([a]) == a
    ensures PathText([a, b]) == a + "." + b
  {
    assert Join([a, b], ".") == a + "." + Join([a, b][1..], ".");
    assert [a, b][1..] == [b];
  }

  /** Dotted segments come back from the shown path: the text loses no segment. */
  lemma PathTextSplits(path: seq<string>)
    requires |path| >= 1 && Join(path, ".") != ""
    requires forall m, j :: 0 <= m < |path| && 0 <= j < |path[m]| ==> path[m][j] != '.'
    ensures Split(PathText(path), '.') == path
  {
    SplitJoin(path, '.');
  }

  /** A bad endpoint field is shown under its dotted place, say `endpoints.0.status`. */
  lemma EndpointIssueLine(i: nat, field: string, message: string)
    ensures IssueLine(Spec.Issue(["endpoints", NatToString(i), field], message)) ==
            "- endpoints." + NatToString(i) + "." + field + ": " + message
  {
    var path := ["endpoints", NatToString(i), field];
    assert Join(path, ".") == "endpoints" + "." + Join(path[1..], ".");
    assert Join(path[1..], ".") == NatToString(i) + "." + Join(path[2..], ".");
  }
}
