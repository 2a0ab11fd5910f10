/**
 * The browser client's command form (srv/static/app.js) with the page taken
 * out: the option check boxes, the timeout, excludes and custom-options
 * fields, and the source and destination fields are plain values. The
 * functions say what the form means; the methods follow the client's loops.
 */
module Client {
  import opened Wrappers
  import opened Text
  import opened Command

  /** One `.rsync-opt` check box: its `data-opt` flag and whether it is ticked. */
  datatype Checkbox = Checkbox(opt: string, checked: bool)

  /** The form fields; `timeout` is None when the page has no timeout field. */
  datatype Form = Form(
    source: string,
    destination: string,
    boxes: seq<Checkbox>,
    timeout: Option<string>,
    excludes: string,
    custom: string)

  const ExcludePrefix := "--exclude="
  const TimeoutPrefix := "--timeout="


  // ---------------------------------------------------------------------
  // getSelectedOptions

  /** The flags of the ticked boxes, in page order. */
  function CheckedFlags(boxes: seq<Checkbox>): seq<string>
    decreases |boxes|
  {
    if boxes == [] then []
    else
      var b := boxes[|boxes| - 1];
      CheckedFlags(boxes[..|boxes| - 1]) + (if b.checked then [b.opt] else [])
  }

  /** `--timeout=<trimmed value>`, when the field exists and is not blank. */
  function TimeoutOptions(timeout: Option<string>): (opts: seq<string>)
    ensures |opts| <= 1
    ensures opts != [] <==> timeout.Some? && Trim(timeout.value) != ""
  {
    if timeout.Some? && Trim(timeout.value) != "" then [TimeoutPrefix + Trim(timeout.value)] else []
  }

  /** The trimmed lines that are not blank, in order. */
  function NonBlankTrimmed(lines: seq<string>): (r: seq<string>)
    ensures forall k :: 0 <= k < |r| ==> r[k] != "" && IsTrimmed(r[k])
    decreases |lines|
  {
    if lines == [] then []
    else
      var rest := NonBlankTrimmed(lines[..|lines| - 1]);
      var t := Trim(lines[|lines| - 1]);
      if t == "" then rest else rest + [t]
  }

  /** The lines of the excludes field that name a pattern: trimmed, not blank, one per line. */
  function ExcludeLines(text: string): (patterns: seq<string>)
    ensures forall k :: 0 <= k < |patterns| ==>
              patterns[k] != "" && IsTrimmed(patterns[k]) && '\n' !in patterns[k]
  {
    if Trim(text) == "" then []
    else
      var lines := Split(Trim(text), '\n');
      var r := NonBlankTrimmed(lines);
      NoNewlineSurvives(lines);
      r
  }

  lemma {:induction false} NoNewlineSurvives(lines: seq<string>)
    requires forall k :: 0 <= k < |lines| ==> '\n' !in lines[k]
    ensures forall k :: 0 <= k < |NonBlankTrimmed(lines)| ==> '\n' !in NonBlankTrimmed(lines)[k]
    decreases |lines|
  {
    if lines != [] {
      var l := lines[|lines| - 1];
      NoNewlineSurvives(lines[..|lines| - 1]);
      if '\n' in Trim(l) {
        TrimIn(l, '\n');
      }
    }
  }

  function Prefixed(prefix: string, xs: seq<string>): (r: seq<string>)
    ensures |r| == |xs| && forall k :: 0 <= k < |xs| ==> r[k] == prefix + xs[k]
  {
    seq(|xs|, k requires 0 <= k < |xs| => prefix + xs[k])
  }

  function ExcludeOptions(text: string): seq<string> {
    Prefixed(ExcludePrefix, ExcludeLines(text))
  }

  /** The custom-options field split at white space; trimming first leaves no empty word. */
  function CustomOptions(text: string): (words: seq<string>)
    ensures forall k :: 0 <= k < |words| ==> IsToken(words[k])
  {
    var t := Trim(text);
    if t == "" then []
    else
      SplitSpaceRunsOfTrimmed(t);
      SplitSpaceRuns(t)
  }

  /** The option list the form asks for: ticked flags, timeout, excludes, then custom options. */
  function SelectedOptions(form: Form): seq<string> {
    CheckedFlags(form.boxes) + TimeoutOptions(form.timeout) + ExcludeOptions(form.excludes)
      + CustomOptions(form.custom)
  }

  /** `getSelectedOptions`: the ticked flags, the timeout, the exclude lines, then the custom words. */
  method GetSelectedOptions(form: Form) returns (opts: seq<string>)
    ensures opts == SelectedOptions(form)
  {
    var flags := CollectChecked(form.boxes);
    var timeout: seq<string> := [];
    if form.timeout.Some? {
      var value := Trim(form.timeout.value);
      if value != "" {
        timeout := [TimeoutPrefix + value];
      }
    }
    assert timeout == TimeoutOptions(form.timeout);
    var excludes := CollectExcludes(form.excludes);
    var custom: seq<string> := [];
    var text := Trim(form.custom);
    if text != "" {
      custom := SplitSpaceRuns(text);
    }
    assert custom == CustomOptions(form.custom);
    opts := flags + timeout + excludes + custom;
  }

  /** The `forEach` over the ticked boxes. */
  method CollectChecked(boxes: seq<Checkbox>) returns (opts: seq<string>)
    ensures opts == CheckedFlags(boxes)
  {
    opts := [];
    for i := 0 to |boxes|
      invariant opts == CheckedFlags(boxes[..i])
    {
      assert boxes[..i + 1][..i] == boxes[..i];
      if boxes[i].checked {
        opts := opts + [boxes[i].opt];
      }
    }
    assert boxes[..|boxes|] == boxes;
  }

  /** The `forEach` over the lines of the trimmed excludes field. */
  method CollectExcludes(text: string) returns (opts: seq<string>)
    ensures opts == ExcludeOptions(text)
  {
    opts := [];
    var excludes := Trim(text);
    if excludes != "" {
      var lines := Split(excludes, '\n');
      for i := 0 to |lines|
        invariant opts == Prefixed(ExcludePrefix, NonBlankTrimmed(lines[..i]))
      {
        ExcludeStep(lines, i);
        var line := Trim(lines[i]);
        if line != "" {
          opts := opts + [ExcludePrefix + line];
        }
      }
      assert opts == ExcludeOptions(text) by {
        assert lines[..|lines|] == lines;
      }
    } else {
      assert ExcludeLines(text) == [];
    }
  }

  /** One more line of the excludes field adds its pattern, if it has one. */
  lemma ExcludeStep(lines: seq<string>, i: nat)
    requires i < |lines|
    ensures Prefixed(ExcludePrefix, NonBlankTrimmed(lines[..i + 1])) ==
              Prefixed(ExcludePrefix, NonBlankTrimmed(lines[..i]))
              + (if Trim(lines[i]) != "" then [ExcludePrefix + Trim(lines[i])] else [])
  {
    assert lines[..i + 1][..i] == lines[..i];
    var extra := if Trim(lines[i]) != "" then [Trim(lines[i])] else [];
    assert NonBlankTrimmed(lines[..i + 1]) == NonBlankTrimmed(lines[..i]) + extra;
  }

  // ---------------------------------------------------------------------
  // validateCommand

  /** The four error rules, in the order they run. */
  datatype Problem = SourceMissing | DestinationMissing | SameEndpoints | RootDirectory

  /** The two warnings, which never block a run. */
  datatype Caution = DeleteWithoutDryRun | BothRemote

  function ProblemText(p: Problem): string {
    match p
    case SourceMissing => "Source is required"
    case DestinationMissing => "Destination is required"
    case SameEndpoints => "Source and destination cannot be the same"
    case RootDirectory => "Cannot use root directory"
  }

  function CautionText(c: Caution): string {
    match c
    case DeleteWithoutDryRun => "--delete is enabled. Consider a dry-run (-n) first!"
    case BothRemote => "Both source and destination are remote. This requires rsync on the remote."
  }

  function Rank(p: Problem): nat {
    match p
    case SourceMissing => 0
    case DestinationMissing => 1
    case SameEndpoints => 2
    case RootDirectory => 3
  }

  /** Each rule reports at most once, and the errors appear in rule order. */
  predicate Ordered(errors: seq<Problem>) {
    forall k :: 0 < k < |errors| ==> Rank(errors[k - 1]) < Rank(errors[k])
  }

  /** Whether some ticked box carries this flag. */
  predicate HasChecked(boxes: seq<Checkbox>, opt: string) {
    exists k :: 0 <= k < |boxes| && boxes[k].checked && boxes[k].opt == opt
  }

  /** The root guard, on trimmed endpoints: the root or the root glob as source, the root as destination. */
  predicate TouchesRoot(source: string, dest: string) {
    source == "/" || source == "/*" || dest == "/"
  }

  /** A pair of trimmed endpoints the client lets through. */
  predicate Acceptable(source: string, dest: string) {
    source != "" && dest != "" && source != dest && !TouchesRoot(source, dest)
  }

  datatype Validation = Validation(valid: bool, errors: seq<Problem>, warnings: seq<Caution>)

  /**
   * `validateCommand`: both endpoints are trimmed first; errors block the
   * run, warnings do not.
   */
  method ValidateCommand(sourceField: string, destinationField: string, boxes: seq<Checkbox>)
    returns (v: Validation)
    ensures var source, dest := Trim(sourceField), Trim(destinationField);
            && (SourceMissing in v.errors <==> source == "")
            && (DestinationMissing in v.errors <==> dest == "")
            && (SameEndpoints in v.errors <==> source != "" && source == dest)
            && (RootDirectory in v.errors <==> TouchesRoot(source, dest))
            && (v.valid <==> Acceptable(source, dest))
            && (DeleteWithoutDryRun in v.warnings <==> HasChecked(boxes, "--delete") && !HasChecked(boxes, "-n"))
            && (BothRemote in v.warnings <==> ':' in source && ':' in dest)
    ensures v.valid <==> v.errors == []
    ensures Ordered(v.errors)
    ensures |v.warnings| <= 2 && (|v.warnings| == 2 ==> v.warnings == [DeleteWithoutDryRun, BothRemote])
  {
    var source := Trim(sourceField);
    var dest := Trim(destinationField);
    var errors := EndpointErrors(source, dest);
    var warnings := Warnings(source, dest, boxes);
    v := Validation(|errors| == 0, errors, warnings);
  }

  /** The error rules of `validateCommand`, on the trimmed endpoints. */
  method EndpointErrors(source: string, dest: string) returns (errors: seq<Problem>)
    ensures SourceMissing in errors <==> source == ""
    ensures DestinationMissing in errors <==> dest == ""
    ensures SameEndpoints in errors <==> source != "" && source == dest
    ensures RootDirectory in errors <==> TouchesRoot(source, dest)
    ensures errors == [] <==> Acceptable(source, dest)
    ensures Ordered(errors)
  {
    errors := [];
    if source == "" {
      errors := errors + [SourceMissing];
    }
    if dest == "" {
      errors := errors + [DestinationMissing];
    }
    if source != "" && dest != "" && source == dest {
      errors := errors + [SameEndpoints];
    }
    if source == "/" || source == "/*" || dest == "/" {
      errors := errors + [RootDirectory];
    }
  }

  /** The warning rules of `validateCommand`, on the trimmed endpoints and the ticked boxes. */
  method Warnings(source: string, dest: string, boxes: seq<Checkbox>) returns (warnings: seq<Caution>)
    ensures DeleteWithoutDryRun in warnings <==> HasChecked(boxes, "--delete") && !HasChecked(boxes, "-n")
    ensures BothRemote in warnings <==> ':' in source && ':' in dest
    ensures |warnings| <= 2 && (|warnings| == 2 ==> warnings == [DeleteWithoutDryRun, BothRemote])
  {
    var hasDelete := exists k :: 0 <= k < |boxes| && boxes[k].checked && boxes[k].opt == "--delete";
    var hasDryRun := exists k :: 0 <= k < |boxes| && boxes[k].checked && boxes[k].opt == "-n";
    warnings := [];
    if hasDelete && !hasDryRun {
      warnings := warnings + [DeleteWithoutDryRun];
    }
    if ':' in source && ':' in dest {
      warnings := warnings + [BothRemote];
    }
  }

  // ---------------------------------------------------------------------
  // updateCommandPreview

  /** The preview line: the fields as typed, or placeholders when they are empty. */
  function PreviewText(sourceField: string, destinationField: string, opts: seq<string>): (text: string)
    ensures StartsWith(text, "rsync ")
  {
    "rsync " + Join(opts, " ") + " " + (if sourceField == "" then "<source>" else sourceField)
      + " " + (if destinationField == "" then "<destination>" else destinationField)
  }

  /** `updateCommandPreview`: the preview text and whether the Run button is enabled. */
  method UpdateCommandPreview(form: Form) returns (preview: string, valid: bool)
    ensures preview == PreviewText(form.source, form.destination, SelectedOptions(form))
    ensures valid <==> Acceptable(Trim(form.source), Trim(form.destination))
  {
    var opts := GetSelectedOptions(form);
    preview := PreviewText(form.source, form.destination, opts);
    var v := ValidateCommand(form.source, form.destination, form.boxes);
    valid := v.valid;
  }

  /** What `runCommand` posts: the trimmed endpoints and the selected options. */
  function Submitted(form: Form): RunRequest {
    RunRequest(Trim(form.source), Trim(form.destination), SelectedOptions(form))
  }

  /**
   * With at least one option and endpoints typed without surrounding white
   * space, the preview shows exactly the command line the server stores for
   * what `runCommand` posts.
   */
  lemma PreviewMatchesServer(source: string, dest: string, opts: seq<string>)
    requires opts != []
    requires source != "" && IsTrimmed(source) && dest != "" && IsTrimmed(dest)
    ensures PreviewText(source, dest, opts) == FullCommand(Args(RunRequest(Trim(source), Trim(dest), opts)))
  {
    TrimOfTrimmed(source);
    TrimOfTrimmed(dest);
    JoinSnoc(opts, source, " ");
    JoinSnoc(opts + [source], dest, " ");
    assert opts + [source] + [dest] == opts + [source, dest];
  }

  /** With no option selected the preview has two spaces after "rsync". */
  lemma PreviewWithoutOptions(source: string, dest: string)
    requires source != "" && dest != ""
    ensures PreviewText(source, dest, []) == "rsync  " + source + " " + dest
  {
    assert Join([], " ") == "";
  }

  /** With no option selected the preview is longer than the command line the server stores, so they differ. */
  lemma PreviewWithoutOptionsMismatch(source: string, dest: string)
    requires source != "" && dest != ""
    ensures PreviewText(source, dest, []) != FullCommand(Args(RunRequest(Trim(source), Trim(dest), [])))
  {
    var preview := PreviewText(source, dest, []);
    var stored := FullCommand(Args(RunRequest(Trim(source), Trim(dest), [])));
    assert |stored| == 7 + |Trim(source)| + |Trim(dest)| by {
      assert Join([Trim(source), Trim(dest)], " ") == Trim(source) + " " + Trim(dest);
    }
    assert |preview| == 8 + |source| + |dest|;
  }

  // ---------------------------------------------------------------------
  // reuseCommand

  /** Where `reuseCommand` puts a stored option. */
  datatype Bucket = ToCheckbox | ToExcludes | ToCustom

  function BoxOpts(boxes: seq<Checkbox>): (opts: seq<string>)
    ensures |opts| == |boxes| && forall k :: 0 <= k < |boxes| ==> opts[k] == boxes[k].opt
  {
    seq(|boxes|, k requires 0 <= k < |boxes| => boxes[k].opt)
  }

  /** A matching box wins; otherwise an `--exclude=` option goes to the excludes, anything else to the custom options. */
  function BucketOf(boxOpts: seq<string>, opt: string): (b: Bucket)
    ensures b == ToCheckbox <==> opt in boxOpts
    ensures b == ToExcludes <==> opt !in boxOpts && StartsWith(opt, ExcludePrefix)
  {
    if opt in boxOpts then ToCheckbox
    else if StartsWith(opt, ExcludePrefix) then ToExcludes
    else ToCustom
  }

  /** The stored options that land in `bucket`, in order. */
  function InBucket(boxOpts: seq<string>, opts: seq<string>, bucket: Bucket): seq<string>
    decreases |opts|
  {
    if opts == [] then []
    else
      var o := opts[|opts| - 1];
      InBucket(boxOpts, opts[..|opts| - 1], bucket) + (if BucketOf(boxOpts, o) == bucket then [o] else [])
  }

  /** `opt.replace('--exclude=', '')` on each option. */
  function Unprefixed(xs: seq<string>): (r: seq<string>)
    ensures |r| == |xs| && forall k :: 0 <= k < |xs| ==> r[k] == ReplaceFirst(xs[k], ExcludePrefix, "")
  {
    seq(|xs|, k requires 0 <= k < |xs| => ReplaceFirst(xs[k], ExcludePrefix, ""))
  }

  /** The index of the first box carrying `opt` (what `querySelector` finds), or |boxes|. */
  function FirstBox(boxes: seq<Checkbox>, opt: string): (k: nat)
    ensures k <= |boxes| && (k < |boxes| ==> boxes[k].opt == opt)
    ensures forall j :: 0 <= j < k ==> boxes[j].opt != opt
    decreases |boxes|
  {
    if boxes == [] || boxes[0].opt == opt then 0 else 1 + FirstBox(boxes[1..], opt)
  }

  /** The boxes after the reuse: ticked exactly when a stored option matches them first. */
  function Ticked(boxes: seq<Checkbox>, options: seq<string>): (r: seq<Checkbox>)
    ensures |r| == |boxes|
    ensures forall k :: 0 <= k < |boxes| ==>
              r[k].opt == boxes[k].opt
              && (r[k].checked <==> boxes[k].opt in options && FirstBox(boxes, boxes[k].opt) == k)
  {
    seq(|boxes|, k requires 0 <= k < |boxes| =>
      boxes[k].(checked := boxes[k].opt in options && FirstBox(boxes, boxes[k].opt) == k))
  }

  /** The stored job a reuse starts from: its endpoints and its decoded options. */
  datatype StoredCommand = StoredCommand(source: string, destination: string, options: seq<string>)

  /** The form after `reuseCommand`: the timeout field is left as it was. */
  function Restored(form: Form, stored: StoredCommand): Form {
    var boxOpts := BoxOpts(form.boxes);
    Form(
      stored.source,
      stored.destination,
      Ticked(form.boxes, stored.options),
      form.timeout,
      Join(Unprefixed(InBucket(boxOpts, stored.options, ToExcludes)), "\n"),
      Join(InBucket(boxOpts, stored.options, ToCustom), " "))
  }

  /** `reuseCommand`: untick every box, then sort each stored option into a box, the excludes or the custom options. */
  method ReuseCommand(form: Form, stored: StoredCommand) returns (restored: Form)
    ensures restored == Restored(form, stored)
  {
    var boxes := seq(|form.boxes|, k requires 0 <= k < |form.boxes| => form.boxes[k].(checked := false));
    assert boxes == Ticked(form.boxes, []);
    var excludes: seq<string> := [];
    var custom: seq<string> := [];
    for i := 0 to |stored.options|
      invariant SortedSoFar(form.boxes, stored.options[..i], boxes, excludes, custom)
    {
      var opt := stored.options[i];
      boxes, excludes, custom := SortOption(form.boxes, stored.options[..i], boxes, excludes, custom, opt);
      assert stored.options[..i + 1] == stored.options[..i] + [opt];
    }
    assert stored.options[..|stored.options|] == stored.options;
    restored := Form(stored.source, stored.destination, boxes, form.timeout, Join(excludes, "\n"), Join(custom, " "));
  }

  /** The state of `reuseCommand` after the stored options `seen`. */
  ghost predicate SortedSoFar(all: seq<Checkbox>, seen: seq<string>, boxes: seq<Checkbox>, excludes: seq<string>, custom: seq<string>) {
    && boxes == Ticked(all, seen)
    && excludes == Unprefixed(InBucket(BoxOpts(all), seen, ToExcludes))
    && custom == InBucket(BoxOpts(all), seen, ToCustom)
  }

  /** The body of the `forEach` in `reuseCommand`: one stored option goes to its box, the excludes or the custom options. */
  method SortOption(all: seq<Checkbox>, ghost seen: seq<string>, boxes: seq<Checkbox>, excludes: seq<string>, custom: seq<string>, opt: string)
    returns (boxes': seq<Checkbox>, excludes': seq<string>, custom': seq<string>)
    requires SortedSoFar(all, seen, boxes, excludes, custom)
    ensures SortedSoFar(all, seen + [opt], boxes', excludes', custom')
  {
    SortStep(all, seen, opt);
    boxes', excludes', custom' := boxes, excludes, custom;
    var k := FirstBox(all, opt);
    if k < |boxes| {
      boxes' := boxes[k := boxes[k].(checked := true)];
    } else if StartsWith(opt, ExcludePrefix) {
      excludes' := excludes + [ReplaceFirst(opt, ExcludePrefix, "")];
    } else {
      custom' := custom + [opt];
    }
  }

  /** One more stored option: it ticks its first box, or joins the excludes or the custom options. */
  lemma SortStep(boxes: seq<Checkbox>, options: seq<string>, o: string)
    ensures var boxOpts, k, all := BoxOpts(boxes), FirstBox(boxes, o), options + [o];
            && Ticked(boxes, all) ==
                 (if k < |boxes| then Ticked(boxes, options)[k := Ticked(boxes, options)[k].(checked := true)]
                  else Ticked(boxes, options))
            && Unprefixed(InBucket(boxOpts, all, ToExcludes)) ==
                 Unprefixed(InBucket(boxOpts, options, ToExcludes))
                 + (if k == |boxes| && StartsWith(o, ExcludePrefix) then [ReplaceFirst(o, ExcludePrefix, "")] else [])
            && InBucket(boxOpts, all, ToCustom) ==
                 InBucket(boxOpts, options, ToCustom) + (if k == |boxes| && !StartsWith(o, ExcludePrefix) then [o] else [])
  {
    var boxOpts, k, all := BoxOpts(boxes), FirstBox(boxes, o), options + [o];
    assert all[..|all| - 1] == options;
    assert k < |boxes| <==> o in boxOpts by {
      if k < |boxes| {
        assert boxOpts[k] == o;
      }
    }
    var before := InBucket(boxOpts, options, ToExcludes);
    var after := InBucket(boxOpts, all, ToExcludes);
    assert Unprefixed(after) == Unprefixed(before) + Unprefixed(after[|before|..]);
  }
}
