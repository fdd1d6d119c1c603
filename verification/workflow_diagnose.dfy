/** The GitHub Actions lint rules of the workflow diagnostics tool, over an
    already-loaded YAML document: how a finding is printed, how the `on:`
    value becomes a trigger list, how an action reference is judged, and
    the findings collected for each job and for a whole workflow.

    Severities are the strings the tool uses, "info" and "warn". */
module WorkflowDiagnose {
  import opened Wrappers
  import opened Sequences
  import opened Yaml
  import opened Decimal

  // ---------------------------------------------------------------------
  // Findings and their text

  datatype Finding = Finding(message: string, severity: string, context: Option<string>)

  const Info := "info"
  const Warn := "warn"

  const NotPinned := "Action is not version pinned; prefer explicit versions or commit SHAs."
  const MajorOnly :=
    "Action is pinned only to a major version; consider pinning to a minor version or commit SHA."
  const MutableBranch := "Action references a mutable branch; prefer immutable tags or SHAs."
  const JobPermissionsMissing := "Job permissions are not set; defaults may be broader than necessary."
  const FailFastEnabled :=
    "Matrix fail-fast is enabled; this can hide failures in later configurations."
  const WorkflowPermissionsMissing :=
    "Workflow permissions are not set; defaults may grant more access than needed."
  const PullRequestTargetPresent :=
    "pull_request_target trigger is present; ensure untrusted contributions cannot write to protected resources."

  /** `str.upper()` on ASCII letters. */
  function UpperChar(c: char): char {
    if 'a' <= c <= 'z' then (c as int - 32) as char else c
  }

  function Upper(s: string): (u: string)
    ensures |u| == |s|
    ensures forall i :: 0 <= i < |s| ==> u[i] == UpperChar(s[i])
  {
    seq(|s|, i requires 0 <= i < |s| => UpperChar(s[i]))
  }

  const ContextLead := "\n    Context: "

  /** The context a finding prints: a missing or empty context prints nothing. */
  function ShownContext(f: Finding): Option<string> {
    if f.context.Some? && f.context.value != [] then f.context else None
  }

  /** `Finding.format`. */
  function Format(f: Finding): (text: string)
    ensures |text| >= |f.severity| + |f.message| + 3
    ensures text[0] == '[' && text[1..|f.severity| + 1] == Upper(f.severity)
    ensures text[|f.severity| + 1..|f.severity| + 3] == "] "
  {
    var head := "[" + Upper(f.severity) + "] " + f.message;
    if ShownContext(f).Some? then head + ContextLead + f.context.value else head
  }

  /** The position of the first `c` in `s`, or `|s|` when there is none. */
  function FirstIndex(s: string, c: char): (k: nat)
    ensures k <= |s|
    ensures k < |s| ==> s[k] == c
    ensures forall j :: 0 <= j < k ==> s[j] != c
  {
    if s == [] then 0
    else if s[0] == c then 0
    else 1 + FirstIndex(s[1..], c)
  }

  lemma FirstIndexAfter(a: string, c: char, b: string)
    requires c !in a
    ensures FirstIndex(a + [c] + b, c) == |a|
  {
    var s := a + [c] + b;
    var k := FirstIndex(s, c);
    assert s[|a|] == c;
    assert s[..|a|] == a;
  }

  lemma FirstIndexAbsent(s: string, c: char)
    requires c !in s
    ensures FirstIndex(s, c) == |s|
  {
  }

  /** Reads the text after the severity back into a message and the shown context. */
  function ParseBody(rest: string): Option<(string, Option<string>)> {
    var n := FirstIndex(rest, '\n');
    if n == |rest| then Some((rest, None))
    else if |rest| - n >= |ContextLead| && rest[n..n + |ContextLead|] == ContextLead then
      Some((rest[..n], Some(rest[n + |ContextLead|..])))
    else None
  }

  /** Reads a formatted finding back into its upper-cased severity, its
      message and its shown context. */
  function ParseFormatted(text: string): Option<(string, string, Option<string>)> {
    if text == [] || text[0] != '[' then None
    else
      var body := text[1..];
      var k := FirstIndex(body, ']');
      if k + 1 >= |body| || body[k + 1] != ' ' then None
      else
        match ParseBody(body[k + 2..])
        case None => None
        case Some(mc) => Some((body[..k], mc.0, mc.1))
  }

  lemma ParseHeader(u: string, rest: string)
    requires ']' !in u
    ensures ParseFormatted("[" + u + "] " + rest)
            == (match ParseBody(rest) case None => None case Some(mc) => Some((u, mc.0, mc.1)))
  {
    var text := "[" + u + "] " + rest;
    var body := text[1..];
    assert body == u + [']'] + ([' '] + rest);
    FirstIndexAfter(u, ']', [' '] + rest);
    assert body[..|u|] == u;
    assert body[|u| + 1] == ' ';
    assert body[|u| + 2..] == rest;
  }

  lemma ParseBodyOneLine(message: string)
    requires '\n' !in message
    ensures ParseBody(message) == Some((message, None))
  {
    FirstIndexAbsent(message, '\n');
  }

  lemma ParseBodyWithContext(message: string, context: string)
    requires '\n' !in message
    ensures ParseBody(message + ContextLead + context) == Some((message, Some(context)))
  {
    var rest := message + ContextLead + context;
    assert rest == message + ['\n'] + (ContextLead[1..] + context);
    FirstIndexAfter(message, '\n', ContextLead[1..] + context);
    assert rest[..|message|] == message;
    assert rest[|message|..|message| + |ContextLead|] == ContextLead;
    assert rest[|message| + |ContextLead|..] == context;
  }

  /** A finding whose severity has no `]` and whose message is one line
      prints as text from which its severity, message and context can be
      read back. */
  lemma FormatRoundTrip(f: Finding)
    requires ']' !in f.severity && '\n' !in f.message
    ensures ParseFormatted(Format(f)) == Some((Upper(f.severity), f.message, ShownContext(f)))
  {
    var u := Upper(f.severity);
    assert ']' !in u by {
      forall i | 0 <= i < |u| ensures u[i] != ']' {
        assert f.severity[i] != ']';
      }
    }
    if ShownContext(f).Some? {
      var rest := f.message + ContextLead + f.context.value;
      assert Format(f) == "[" + u + "] " + rest;
      ParseHeader(u, rest);
      ParseBodyWithContext(f.message, f.context.value);
    } else {
      assert Format(f) == "[" + u + "] " + f.message;
      ParseHeader(u, f.message);
      ParseBodyOneLine(f.message);
    }
  }

  // ---------------------------------------------------------------------
  // Triggers

  /** `normalize_triggers`: the event names in an `on:` value. */
  function NormalizeTriggers(rawOn: Val): (ts: seq<string>)
    ensures rawOn.Null? ==> ts == []
    ensures rawOn.List? ==> |ts| == |rawOn.items|
                            && forall i :: 0 <= i < |ts| ==> ts[i] == PyStr(rawOn.items[i])
    ensures rawOn.Str? ==> ts == [rawOn.s]
    ensures rawOn.Map? ==> ts == Keys(rawOn.entries)
    ensures rawOn.Bool? || rawOn.Int? ==> ts == [PyStr(rawOn)]
  {
    match rawOn
    case Null => []
    case List(items) => seq(|items|, i requires 0 <= i < |items| => PyStr(items[i]))
    case Str(s) => [s]
    case Map(entries) => Keys(entries)
    case _ => [PyStr(rawOn)]
  }

  /** `on: push`, `on: [push]` and `on: {push: ...}` name the same trigger. */
  lemma TriggerFormsAgree(event: string, config: Val)
    ensures NormalizeTriggers(Str(event)) == [event]
    ensures NormalizeTriggers(List([Str(event)])) == [event]
    ensures NormalizeTriggers(Map([(event, config)])) == [event]
  {
  }

  // ---------------------------------------------------------------------
  // Action references

  predicate IsLocal(uses: string) {
    |uses| >= 2 && uses[..2] == "./"
  }

  /** The text after the last `@`, as `uses.rsplit("@", 1)` leaves it; the
      whole text when there is no `@`. */
  function AfterLastAt(s: string): (ref: string)
    ensures |ref| <= |s| && ref == s[|s| - |ref|..] && '@' !in ref
    ensures |ref| < |s| ==> s[|s| - |ref| - 1] == '@'
  {
    if s == [] then []
    else if s[|s| - 1] == '@' then []
    else
      var r := AfterLastAt(s[..|s| - 1]);
      assert s[..|s| - 1][|s| - 1 - |r|..] == s[|s| - 1 - |r|..|s| - 1];
      r + [s[|s| - 1]]
  }

  /** Splitting `owner@ref` at its last `@` gives back `ref`, whatever `owner` holds. */
  lemma AfterLastAtSplits(owner: string, ref: string)
    requires '@' !in ref
    ensures AfterLastAt(owner + "@" + ref) == ref
  {
    var s := owner + "@" + ref;
    var r := AfterLastAt(s);
    assert s[|owner|] == '@';
    assert s[|owner| + 1..] == ref;
  }

  /** `re.fullmatch(r"v?\d+", ref)`, with ASCII digits. */
  predicate IsMajorOnly(ref: string) {
    var digits := if ref != [] && ref[0] == 'v' then ref[1..] else ref;
    digits != [] && AllDigits(digits)
  }

  /** Exactly the texts `d` and `"v" + d` for a non-empty run of digits `d`
      are major-only references. */
  lemma MajorOnlyForms(d: string)
    requires d != [] && AllDigits(d)
    ensures IsMajorOnly(d) && IsMajorOnly("v" + d)
    ensures !IsMajorOnly("v") && !IsMajorOnly("v" + d + ".0") && !IsMajorOnly("V" + d)
  {
    assert ("v" + d)[1..] == d;
    var x := "v" + d + ".0";
    assert x[0] == 'v' && x[1..] == d + ".0";
    assert x[1..][|d|] == '.' && !IsDigit(x[1..][|d|]);
    var y := "V" + d;
    assert y[0] == 'V' && !IsDigit(y[0]);
  }

  lemma MajorOnlyShape(ref: string)
    requires IsMajorOnly(ref)
    ensures ref == [] || ref[0] == 'v' || IsDigit(ref[0])
    ensures forall i :: 1 <= i < |ref| ==> IsDigit(ref[i])
  {
    if ref[0] == 'v' {
      forall i | 1 <= i < |ref| ensures IsDigit(ref[i]) {
        assert ref[1..][i - 1] == ref[i];
      }
    }
  }

  predicate IsMutableBranch(ref: string) {
    ref == "main" || ref == "master" || ref == "HEAD"
  }

  /** `analyze_action_pin`: the first rule that applies, in this order:
      a local action is never flagged; a reference without `@` is not
      pinned; a ref that is only a major version, or a mutable branch name,
      is flagged; anything else is accepted. Every finding is a warning
      whose context is the reference. */
  function AnalyzeActionPin(uses: string): (r: Option<Finding>)
    ensures IsLocal(uses) ==> r == None
    ensures !IsLocal(uses) && '@' !in uses ==> r == Some(Finding(NotPinned, Warn, Some(uses)))
    ensures !IsLocal(uses) && '@' in uses ==>
              r == (if IsMajorOnly(AfterLastAt(uses)) then Some(Finding(MajorOnly, Warn, Some(uses)))
                    else if IsMutableBranch(AfterLastAt(uses)) then Some(Finding(MutableBranch, Warn, Some(uses)))
                    else None)
    ensures r.Some? ==> r.value.severity == Warn && r.value.context == Some(uses)
  {
    if IsLocal(uses) then None
    else if '@' !in uses then Some(Finding(NotPinned, Warn, Some(uses)))
    else
      var ref := AfterLastAt(uses);
      if IsMajorOnly(ref) then Some(Finding(MajorOnly, Warn, Some(uses)))
      else if IsMutableBranch(ref) then Some(Finding(MutableBranch, Warn, Some(uses)))
      else None
  }

  /** For a remote action `owner@ref` the verdict depends on `ref` alone:
      an `@` inside `owner` never matters. */
  lemma PinVerdictByRef(owner: string, ref: string)
    requires !IsLocal(owner) && '@' !in ref
    ensures var r := AnalyzeActionPin(owner + "@" + ref);
            && (r.Some? <==> IsMajorOnly(ref) || IsMutableBranch(ref))
            && (r.Some? && IsMajorOnly(ref) ==> r.value.message == MajorOnly)
            && (r.Some? && !IsMajorOnly(ref) ==> r.value.message == MutableBranch)
  {
    var s := owner + "@" + ref;
    assert s[|owner|] == '@';
    if |owner| >= 2 {
      assert s[..2] == owner[..2];
    }
    AfterLastAtSplits(owner, ref);
  }

  lemma LocalActionExample()
    ensures AnalyzeActionPin("./local/action@main") == None
  {
    assert "./local/action@main"[..2] == "./";
  }

  lemma MajorPinExample()
    ensures AnalyzeActionPin("actions/checkout@v4") == Some(Finding(MajorOnly, Warn, Some("actions/checkout@v4")))
  {
    assert "actions/checkout"[1] == 'c';
    assert "actions/checkout" + "@" + "v4" == "actions/checkout@v4";
    PinVerdictByRef("actions/checkout", "v4");
    assert IsMajorOnly("v4") by {
      assert "v4"[0] == 'v' && "v4"[1..] == "4" && IsDigit("4"[0]);
    }
  }

  lemma BranchPinExample()
    ensures AnalyzeActionPin("actions/checkout@main")
            == Some(Finding(MutableBranch, Warn, Some("actions/checkout@main")))
  {
    assert "actions/checkout"[1] == 'c';
    assert "actions/checkout" + "@" + "main" == "actions/checkout@main";
    PinVerdictByRef("actions/checkout", "main");
    assert !IsMajorOnly("main") by {
      assert "main"[0] == 'm' && !IsDigit("main"[0]);
    }
  }

  lemma ExactPinExample()
    ensures AnalyzeActionPin("actions/checkout@v4.1.1") == None
  {
    assert "actions/checkout"[1] == 'c';
    assert "actions/checkout" + "@" + "v4.1.1" == "actions/checkout@v4.1.1";
    PinVerdictByRef("actions/checkout", "v4.1.1");
    assert !IsMajorOnly("v4.1.1") by {
      assert "v4.1.1"[0] == 'v' && "v4.1.1"[1..][1] == '.' && !IsDigit("v4.1.1"[1..][1]);
    }
  }

  // ---------------------------------------------------------------------
  // Steps and jobs

  /** The finding for one step: only a mapping whose `uses` is a string is judged. */
  function StepFinding(step: Val): (r: Option<Finding>)
    ensures r.Some? <==> step.Map? && Get<Val>(step.entries, "uses").Some?
                         && Get<Val>(step.entries, "uses").value.Str?
                         && AnalyzeActionPin(Get<Val>(step.entries, "uses").value.s).Some?
    ensures r.Some? ==> r == AnalyzeActionPin(Get<Val>(step.entries, "uses").value.s)
  {
    if step.Map? then
      match Get<Val>(step.entries, "uses")
      case Some(Str(uses)) => AnalyzeActionPin(uses)
      case _ => None
    else None
  }

  function OptionToSeq<T>(o: Option<T>): seq<T> {
    if o.Some? then [o.value] else []
  }

  /** `analyze_steps`: the step findings in step order, at most one per step, all warnings. */
  function AnalyzeSteps(steps: seq<Val>): (r: seq<Finding>)
    ensures |r| <= |steps|
    ensures forall f :: f in r ==> f.severity == Warn
  {
    if steps == [] then []
    else OptionToSeq(StepFinding(steps[0])) + AnalyzeSteps(steps[1..])
  }

  lemma {:induction false} AnalyzeStepsAppend(a: seq<Val>, b: seq<Val>)
    ensures AnalyzeSteps(a + b) == AnalyzeSteps(a) + AnalyzeSteps(b)
  {
    if a == [] {
      assert a + b == b;
    } else {
      assert (a + b)[0] == a[0];
      assert (a + b)[1..] == a[1..] + b;
      AnalyzeStepsAppend(a[1..], b);
      assert AnalyzeSteps(a + b) == OptionToSeq(StepFinding(a[0])) + AnalyzeSteps(a[1..] + b);
    }
  }

  lemma AnalyzeStepsSingle(step: Val)
    ensures AnalyzeSteps([step]) == OptionToSeq(StepFinding(step))
  {
  }

  /** A step is judged when it is a mapping whose `uses` is a string. */
  predicate UsesString(step: Val) {
    step.Map? && Get<Val>(step.entries, "uses").Some? && Get<Val>(step.entries, "uses").value.Str?
  }

  /** The `uses` text of a judged step. */
  function UsesOf(step: Val): string
    requires UsesString(step)
  {
    Get<Val>(step.entries, "uses").value.s
  }

  /** `f` is the pin finding of some judged step of `steps`. */
  predicate PinOfSomeStep(steps: seq<Val>, f: Finding) {
    exists i :: 0 <= i < |steps| && UsesString(steps[i]) && AnalyzeActionPin(UsesOf(steps[i])) == Some(f)
  }

  /** Every finding of `analyze_steps` is `analyze_action_pin` of the `uses`
      text of a judged step. */
  lemma {:induction false} StepFindingsArePins(steps: seq<Val>)
    ensures forall f :: f in AnalyzeSteps(steps) ==> PinOfSomeStep(steps, f)
  {
    if steps != [] {
      StepFindingsArePins(steps[1..]);
      var head := OptionToSeq(StepFinding(steps[0]));
      var rest := AnalyzeSteps(steps[1..]);
      assert AnalyzeSteps(steps) == head + rest;
      forall f | f in head + rest
        ensures PinOfSomeStep(steps, f)
      {
        if f in head {
          assert UsesString(steps[0]) && AnalyzeActionPin(UsesOf(steps[0])) == Some(f);
        } else {
          assert PinOfSomeStep(steps[1..], f);
          var i :| 0 <= i < |steps[1..]| && UsesString(steps[1..][i])
                   && AnalyzeActionPin(UsesOf(steps[1..][i])) == Some(f);
          assert steps[1..][i] == steps[i + 1];
        }
      }
    }
  }

  /** Conversely, every judged step whose reference is flagged contributes its finding. */
  lemma {:induction false} FlaggedStepsReported(steps: seq<Val>, i: nat)
    requires i < |steps| && UsesString(steps[i]) && AnalyzeActionPin(UsesOf(steps[i])).Some?
    ensures AnalyzeActionPin(UsesOf(steps[i])).value in AnalyzeSteps(steps)
  {
    if i > 0 {
      assert steps[1..][i - 1] == steps[i];
      FlaggedStepsReported(steps[1..], i - 1);
    }
  }

  predicate IsMapping(v: Val) {
    v.Map?
  }

  /** Dropping the steps that are not mappings first, as `analyze_job` does,
      changes nothing. */
  lemma {:induction false} NonMappingStepsIgnored(steps: seq<Val>)
    ensures AnalyzeSteps(Filter(IsMapping, steps)) == AnalyzeSteps(steps)
  {
    if steps != [] {
      NonMappingStepsIgnored(steps[1..]);
      if IsMapping(steps[0]) {
        assert Filter(IsMapping, steps) == [steps[0]] + Filter(IsMapping, steps[1..]);
        AnalyzeStepsAppend([steps[0]], Filter(IsMapping, steps[1..]));
      }
    }
  }

  /** The steps a job's `steps` value yields: the items of a list. Iterating
      a string or a mapping yields characters or keys, none of which is a
      mapping, so they contribute no step; other values are not iterable. */
  function StepsOf(steps: Val): (r: seq<Val>)
    ensures steps.List? ==> r == steps.items
    ensures !steps.List? ==> r == []
  {
    if steps.List? then steps.items else []
  }

  datatype JobSummary = JobSummary(
    jobId: string,
    name: string,
    runsOn: Val,
    permissions: Val,
    concurrency: Val,
    findings: seq<Finding>)

  /** `strategy` is a mapping whose `fail-fast` is exactly `true`. */
  predicate FailFast(job: seq<(string, Val)>) {
    var strategy := GetOr(job, "strategy", Null);
    strategy.Map? && Get(strategy.entries, "fail-fast") == Some(Bool(true))
  }

  predicate IsInfo(f: Finding) {
    f.severity == Info
  }

  predicate IsWarn(f: Finding) {
    f.severity == Warn
  }

  /** No warning comes before an info finding. */
  predicate InfoBeforeWarn(fs: seq<Finding>) {
    forall i, j :: 0 <= i < j < |fs| && IsWarn(fs[i]) ==> !IsInfo(fs[j])
  }

  /** `analyze_job` on a mapping job body. */
  function AnalyzeJob(jobId: string, job: seq<(string, Val)>): (r: JobSummary)
    ensures r.jobId == jobId
    ensures r.name == PyStr(GetOr(job, "name", Str(jobId)))
    ensures r.runsOn == GetOr(job, "runs-on", Str("(not specified)"))
    ensures r.permissions == GetOr(job, "permissions", Null)
    ensures r.concurrency == GetOr(job, "concurrency", Null)
    ensures "name" !in Keys(job) ==> r.name == jobId
    ensures "runs-on" !in Keys(job) ==> r.runsOn == Str("(not specified)")
    ensures "permissions" !in Keys(job) ==> r.permissions == Null
    ensures "concurrency" !in Keys(job) ==> r.concurrency == Null
  {
    var permissions := GetOr(job, "permissions", Null);
    var steps := StepsOf(GetOr(job, "steps", Null));
    var infos :=
      (if permissions.Null? then [Finding(JobPermissionsMissing, Info, None)] else [])
      + (if FailFast(job) then [Finding(FailFastEnabled, Info, None)] else []);
    JobSummary(
      jobId,
      PyStr(GetOr(job, "name", Str(jobId))),
      GetOr(job, "runs-on", Str("(not specified)")),
      permissions,
      GetOr(job, "concurrency", Null),
      infos + AnalyzeSteps(Filter(IsMapping, steps)))
  }

  /** The findings of a job, in order: the missing-permissions note when
      `permissions` is absent or null, then the fail-fast note when it
      applies, then one warning per badly pinned step. */
  lemma {:induction false} JobFindings(jobId: string, job: seq<(string, Val)>)
    ensures var fs := AnalyzeJob(jobId, job).findings;
            && Filter(IsInfo, fs)
               == (if GetOr(job, "permissions", Null).Null? then [Finding(JobPermissionsMissing, Info, None)] else [])
                  + (if FailFast(job) then [Finding(FailFastEnabled, Info, None)] else [])
            && Filter(IsWarn, fs) == AnalyzeSteps(StepsOf(GetOr(job, "steps", Null)))
            && InfoBeforeWarn(fs)
            && forall f :: f in fs ==> IsInfo(f) || IsWarn(f)
  {
    var steps := StepsOf(GetOr(job, "steps", Null));
    var a := if GetOr(job, "permissions", Null).Null? then [Finding(JobPermissionsMissing, Info, None)] else [];
    var b := if FailFast(job) then [Finding(FailFastEnabled, Info, None)] else [];
    var w := AnalyzeSteps(Filter(IsMapping, steps));
    NonMappingStepsIgnored(steps);
    assert AnalyzeJob(jobId, job).findings == (a + b) + w;
    InfosThenWarns(a + b, w);
  }

  /** Info findings followed by warnings: each filter recovers its part. */
  lemma InfosThenWarns(a: seq<Finding>, w: seq<Finding>)
    requires forall f :: f in a ==> IsInfo(f)
    requires forall f :: f in w ==> IsWarn(f)
    ensures Filter(IsInfo, a + w) == a && Filter(IsWarn, a + w) == w
    ensures InfoBeforeWarn(a + w)
  {
    AllInfo(a);
    AllWarn(w);
    FilterAppend(IsInfo, a, w);
    FilterAppend(IsWarn, a, w);
    var fs := a + w;
    forall i, j | 0 <= i < j < |fs| && IsWarn(fs[i]) ensures !IsInfo(fs[j]) {
      if i >= |a| {
        assert fs[j] == w[j - |a|];
        assert fs[j] in w;
      }
    }
  }

  lemma {:induction false} AllInfo(fs: seq<Finding>)
    requires forall f :: f in fs ==> IsInfo(f)
    ensures Filter(IsInfo, fs) == fs && Filter(IsWarn, fs) == []
  {
    if fs != [] {
      assert fs[0] in fs;
      AllInfo(fs[1..]);
    }
  }

  lemma {:induction false} AllWarn(fs: seq<Finding>)
    requires forall f :: f in fs ==> IsWarn(f)
    ensures Filter(IsWarn, fs) == fs && Filter(IsInfo, fs) == []
  {
    if fs != [] {
      assert fs[0] in fs;
      assert fs[0].severity == Warn;
      AllWarn(fs[1..]);
    }
  }

  /** A job with permissions set and one step pinned to `@v4` gets exactly the
      major-version warning. */
  lemma JobWithMajorPinExample()
    ensures AnalyzeJob("build", [("permissions", Map([])), ("steps", List([Map([("uses", Str("actions/checkout@v4"))])]))]).findings
            == [Finding(MajorOnly, Warn, Some("actions/checkout@v4"))]
  {
    var step := Map([("uses", Str("actions/checkout@v4"))]);
    var job := [("permissions", Map([])), ("steps", List([step]))];
    GetFirstMatch(job, 0);
    GetFirstMatch(job, 1);
    assert GetOr(job, "permissions", Null) == Map([]);
    assert GetOr(job, "strategy", Null) == Null;
    assert StepsOf(GetOr(job, "steps", Null)) == [step];
    assert Filter(IsMapping, [step]) == [step];
    MajorPinExample();
    assert StepFinding(step) == Some(Finding(MajorOnly, Warn, Some("actions/checkout@v4")));
    AnalyzeStepsSingle(step);
  }

  // ---------------------------------------------------------------------
  // Workflows

  datatype WorkflowSummary = WorkflowSummary(
    name: string,
    triggers: seq<string>,
    permissions: Val,
    jobs: seq<JobSummary>,
    findings: seq<Finding>)

  predicate HasMappingBody(entry: (string, Val)) {
    entry.1.Map?
  }

  /** The job summaries of a `jobs` mapping, in its order; a job whose body
      is not a mapping is skipped. */
  function AnalyzeJobs(jobs: seq<(string, Val)>): (r: seq<JobSummary>)
    ensures |r| <= |jobs|
  {
    if jobs == [] then []
    else if jobs[0].1.Map? then [AnalyzeJob(jobs[0].0, jobs[0].1.entries)] + AnalyzeJobs(jobs[1..])
    else AnalyzeJobs(jobs[1..])
  }

  function JobIds(js: seq<JobSummary>): seq<string> {
    seq(|js|, i requires 0 <= i < |js| => js[i].jobId)
  }

  lemma JobIdsCons(j: JobSummary, rest: seq<JobSummary>)
    ensures JobIds([j] + rest) == [j.jobId] + JobIds(rest)
  {
  }

  lemma KeysCons(e: (string, Val), rest: seq<(string, Val)>)
    ensures Keys([e] + rest) == [e.0] + Keys(rest)
  {
  }

  /** The summaries are exactly the mapping-bodied jobs, in map order. */
  lemma {:induction false} JobsKeepMapOrder(jobs: seq<(string, Val)>)
    ensures JobIds(AnalyzeJobs(jobs)) == Keys(Filter(HasMappingBody, jobs))
  {
    if jobs != [] {
      JobsKeepMapOrder(jobs[1..]);
      var rest := AnalyzeJobs(jobs[1..]);
      var kept := Filter(HasMappingBody, jobs[1..]);
      if HasMappingBody(jobs[0]) {
        var j := AnalyzeJob(jobs[0].0, jobs[0].1.entries);
        assert AnalyzeJobs(jobs) == [j] + rest;
        assert Filter(HasMappingBody, jobs) == [jobs[0]] + kept;
        JobIdsCons(j, rest);
        KeysCons(jobs[0], kept);
      } else {
        assert AnalyzeJobs(jobs) == rest;
      }
    }
  }

  /** The summary at position `i` is `analyze_job` of the `i`-th job whose
      body is a mapping. */
  lemma {:induction false} JobSummariesAreJobAnalyses(jobs: seq<(string, Val)>)
    ensures var kept := Filter(HasMappingBody, jobs);
            var js := AnalyzeJobs(jobs);
            && |js| == |kept|
            && forall i :: 0 <= i < |kept| ==>
                 kept[i].1.Map? && js[i] == AnalyzeJob(kept[i].0, kept[i].1.entries)
  {
    if jobs != [] {
      JobSummariesAreJobAnalyses(jobs[1..]);
      var rest := AnalyzeJobs(jobs[1..]);
      var kept := Filter(HasMappingBody, jobs[1..]);
      if HasMappingBody(jobs[0]) {
        var j := AnalyzeJob(jobs[0].0, jobs[0].1.entries);
        var all := [jobs[0]] + kept;
        var js := [j] + rest;
        assert AnalyzeJobs(jobs) == js;
        assert Filter(HasMappingBody, jobs) == all;
        forall i | 0 <= i < |all|
          ensures all[i].1.Map? && js[i] == AnalyzeJob(all[i].0, all[i].1.entries)
        {
          if i > 0 {
            assert all[i] == kept[i - 1];
            assert js[i] == rest[i - 1];
          }
        }
      } else {
        assert AnalyzeJobs(jobs) == rest;
      }
    }
  }

  /** The analysis of a workflow whose document is the mapping `data`;
      `stem` is the file name without its suffix. */
  function AnalyzeMapping(stem: string, data: seq<(string, Val)>): (r: WorkflowSummary)
    ensures r.name == PyStr(GetOr(data, "name", Str(stem)))
    ensures r.triggers == NormalizeTriggers(GetOr(data, "on", Null))
    ensures (Finding(WorkflowPermissionsMissing, Info, None) in r.findings) <==> r.permissions.Null?
    ensures (Finding(PullRequestTargetPresent, Warn, None) in r.findings) <==> "pull_request_target" in r.triggers
    ensures r.findings == (if r.permissions.Null? then [Finding(WorkflowPermissionsMissing, Info, None)] else [])
                          + (if "pull_request_target" in r.triggers then [Finding(PullRequestTargetPresent, Warn, None)] else [])
    ensures InfoBeforeWarn(r.findings) && |r.findings| <= 2
    ensures r.permissions == GetOr(data, "permissions", Null)
    ensures r.jobs == match GetOr(data, "jobs", Null)
                      case Map(jobs) => AnalyzeJobs(jobs)
                      case _ => []
    ensures "jobs" !in Keys(data) ==> r.jobs == []
  {
    var triggers := NormalizeTriggers(GetOr(data, "on", Null));
    var permissions := GetOr(data, "permissions", Null);
    var jobsRaw := GetOr(data, "jobs", Null);
    var findings :=
      (if permissions.Null? then [Finding(WorkflowPermissionsMissing, Info, None)] else [])
      + (if "pull_request_target" in triggers then [Finding(PullRequestTargetPresent, Warn, None)] else []);
    WorkflowSummary(
      PyStr(GetOr(data, "name", Str(stem))),
      triggers,
      permissions,
      if jobsRaw.Map? then AnalyzeJobs(jobsRaw.entries) else [],
      findings)
  }

  /** The error Python raises when `.get` is called on a value without it. */
  datatype PyError = AttributeError(receiver: Val)

  /** `analyze_workflow` as written: `data.get(...)` is called before any
      check that `data` is a mapping, so a loaded document that is a
      non-empty list, a non-empty string, a non-zero number or `true` raises. */
  function AnalyzeWorkflowAsWritten(stem: string, loaded: Val): (r: Result<WorkflowSummary, PyError>)
    ensures r.Failure? <==> Truthy(loaded) && !loaded.Map?
  {
    var data := OrEmpty(loaded);
    if data.Map? then Success(AnalyzeMapping(stem, data.entries))
    else Failure(AttributeError(data))
  }

  /** `analyze_workflow` as its mapping checks intend: a document that is not
      a mapping is analysed as an empty one. */
  function AnalyzeWorkflow(stem: string, loaded: Val): (r: WorkflowSummary)
    ensures loaded.Map? ==> r == AnalyzeMapping(stem, loaded.entries)
    ensures !loaded.Map? ==> r == AnalyzeMapping(stem, [])
  {
    var data := OrEmpty(loaded);
    assert loaded.Map? ==> data.Map? && data.entries == loaded.entries;
    AnalyzeMapping(stem, if data.Map? then data.entries else [])
  }

  /** A YAML list as the whole workflow file makes the tool raise. */
  lemma ListDocumentRaises(stem: string)
    ensures AnalyzeWorkflowAsWritten(stem, List([Str("build")])).Failure?
    ensures AnalyzeWorkflow(stem, List([Str("build")])).name == stem
  {
  }

  /** Where the code as written succeeds, it agrees with the corrected analysis. */
  lemma AsWrittenAgrees(stem: string, loaded: Val)
    ensures AnalyzeWorkflowAsWritten(stem, loaded).Success? ==>
              AnalyzeWorkflowAsWritten(stem, loaded).value == AnalyzeWorkflow(stem, loaded)
  {
  }

  /** An empty or non-mapping document: named after its file, no triggers,
      no jobs, and only the missing-permissions note. */
  lemma EmptyWorkflow(stem: string, loaded: Val)
    requires !loaded.Map?
    ensures var r := AnalyzeWorkflow(stem, loaded);
            && r.name == stem && r.triggers == [] && r.permissions == Null && r.jobs == []
            && r.findings == [Finding(WorkflowPermissionsMissing, Info, None)]
  {
  }
}
