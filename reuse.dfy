/**
 * What "Reuse" on a history row does to the options a job was started with:
 * `reuseCommand` (srv/static/app.js) sorts the stored options back into the
 * form, and `getSelectedOptions` reads them out again. The lemmas say where
 * each option lands and when the round trip gives the same options back.
 */
module Reuse {
  import opened Wrappers
  import opened Text
  import opened Client

  /** Every stored option lands in exactly one of the three buckets. */
  lemma {:induction false} BucketsPartition(boxOpts: seq<string>, opts: seq<string>)
    ensures multiset(opts) ==
              multiset(InBucket(boxOpts, opts, ToCheckbox))
              + multiset(InBucket(boxOpts, opts, ToExcludes))
              + multiset(InBucket(boxOpts, opts, ToCustom))
    decreases |opts|
  {
    if opts != [] {
      var init, o := opts[..|opts| - 1], opts[|opts| - 1];
      assert opts == init + [o];
      BucketsPartition(boxOpts, init);
    }
  }

  /** Sorting a concatenation sorts each part. */
  lemma {:induction false} InBucketAppend(boxOpts: seq<string>, xs: seq<string>, ys: seq<string>, b: Bucket)
    ensures InBucket(boxOpts, xs + ys, b) == InBucket(boxOpts, xs, b) + InBucket(boxOpts, ys, b)
    decreases |ys|
  {
    if ys != [] {
      var init := ys[..|ys| - 1];
      assert (xs + ys)[..|xs + ys| - 1] == xs + init;
      InBucketAppend(boxOpts, xs, init, b);
    } else {
      assert xs + ys == xs;
    }
  }

  /** Options that all belong to one bucket all land there, in order, and nowhere else. */
  lemma {:induction false} InBucketUniform(boxOpts: seq<string>, xs: seq<string>, home: Bucket, b: Bucket)
    requires forall k :: 0 <= k < |xs| ==> BucketOf(boxOpts, xs[k]) == home
    ensures InBucket(boxOpts, xs, b) == if b == home then xs else []
    decreases |xs|
  {
    if xs != [] {
      var init := xs[..|xs| - 1];
      InBucketUniform(boxOpts, init, home, b);
      assert xs == init + [xs[|xs| - 1]];
    }
  }

  /** A flag is among the ticked flags exactly when some ticked box carries it. */
  lemma {:induction false} InCheckedFlags(boxes: seq<Checkbox>, o: string)
    ensures o in CheckedFlags(boxes) <==> exists k :: 0 <= k < |boxes| && boxes[k].checked && boxes[k].opt == o
    decreases |boxes|
  {
    if boxes != [] {
      var init := boxes[..|boxes| - 1];
      InCheckedFlags(init, o);
      if exists k :: 0 <= k < |init| && init[k].checked && init[k].opt == o {
        var k :| 0 <= k < |init| && init[k].checked && init[k].opt == o;
        assert boxes[k] == init[k];
      }
      if exists k :: 0 <= k < |boxes| && boxes[k].checked && boxes[k].opt == o {
        var k :| 0 <= k < |boxes| && boxes[k].checked && boxes[k].opt == o;
        if k < |init| {
          assert init[k] == boxes[k];
        }
      }
    }
  }

  /** Proof helper: regrouping concatenations, stated once for any lists so that it is not redone on the model's terms. */
  lemma Regroup(a: seq<string>, b: seq<string>, c: seq<string>, d: seq<string>)
    ensures a + b + c + d == a + (b + c + d)
    ensures a + b + c + (b + d) == a + b + c + b + d
  {
  }

  /** Proof helper: repeating `b` adds its length and its elements; repeating nothing changes nothing. */
  lemma Repeated(a: seq<string>, b: seq<string>, c: seq<string>, d: seq<string>)
    ensures |a + b + c + b + d| == |a + b + c + d| + |b|
    ensures multiset(a + b + c + b + d) == multiset(a + b + c + d) + multiset(b)
    ensures b == [] ==> b + c + d == c + d && a + b + c + b + d == a + b + c + d
  {
    assert a + b + c + b + d == (a + b + c) + b + d;
    assert multiset(a + b + c + d) == multiset(a + b + c) + multiset(d);
  }

  /** A timeout value without white space gives a timeout option without white space. */
  lemma TimeoutToken(v: string)
    requires IsToken(v)
    ensures IsToken(TimeoutPrefix + v)
  {
    var w := TimeoutPrefix + v;
    forall i | 0 <= i < |w|
      ensures !IsSpace(w[i])
    {
      if i >= |TimeoutPrefix| {
        assert w[i] == v[i - |TimeoutPrefix|];
      }
    }
  }

  /** The timeout option is a token when the value has no inner white space. */
  lemma TimeoutTokens(timeout: Option<string>)
    requires TimeoutOptions(timeout) == [] || IsToken(Trim(timeout.value))
    ensures forall k :: 0 <= k < |TimeoutOptions(timeout)| ==> IsToken(TimeoutOptions(timeout)[k])
  {
    if TimeoutOptions(timeout) != [] {
      TimeoutToken(Trim(timeout.value));
    }
  }

  /** Proof helper: a list without box flags splits into parts without box flags. */
  lemma NoBoxFlagParts(boxes: seq<Checkbox>, a: seq<string>, b: seq<string>, c: seq<string>)
    requires NoBoxFlag(boxes, a + b + c)
    ensures NoBoxFlag(boxes, a) && NoBoxFlag(boxes, b) && NoBoxFlag(boxes, c)
  {
    var all := a + b + c;
    forall k | 0 <= k < |a|
      ensures a[k] !in BoxOpts(boxes)
    {
      assert a[k] == all[k];
    }
    forall k | 0 <= k < |b|
      ensures b[k] !in BoxOpts(boxes)
    {
      assert b[k] == all[|a| + k];
    }
    forall k | 0 <= k < |c|
      ensures c[k] !in BoxOpts(boxes)
    {
      assert c[k] == all[|a| + |b| + k];
    }
  }

  /** No two boxes carry the same flag, as on the page. */
  predicate DistinctFlags(boxes: seq<Checkbox>) {
    forall i, j :: 0 <= i < j < |boxes| ==> boxes[i].opt != boxes[j].opt
  }

  /** None of `opts` is the flag of a box. */
  predicate NoBoxFlag(boxes: seq<Checkbox>, opts: seq<string>) {
    forall k :: 0 <= k < |opts| ==> opts[k] !in BoxOpts(boxes)
  }

  /** When the options tick exactly the boxes that are ticked, the reuse leaves the boxes as they are. */
  lemma TickedUnchanged(boxes: seq<Checkbox>, opts: seq<string>)
    requires DistinctFlags(boxes)
    requires forall k :: 0 <= k < |boxes| ==> (boxes[k].checked <==> boxes[k].opt in opts)
    ensures Ticked(boxes, opts) == boxes
  {
    var r := Ticked(boxes, opts);
    forall k | 0 <= k < |boxes|
      ensures r[k] == boxes[k]
    {
      assert FirstBox(boxes, boxes[k].opt) == k;
    }
  }

  /** A ticked flag is the flag of a box. */
  lemma CheckedAreBoxFlags(boxes: seq<Checkbox>)
    ensures forall k :: 0 <= k < |CheckedFlags(boxes)| ==> CheckedFlags(boxes)[k] in BoxOpts(boxes)
  {
    var flags := CheckedFlags(boxes);
    forall k | 0 <= k < |flags|
      ensures flags[k] in BoxOpts(boxes)
    {
      InCheckedFlags(boxes, flags[k]);
      var j :| 0 <= j < |boxes| && boxes[j].checked && boxes[j].opt == flags[k];
      assert BoxOpts(boxes)[j] == flags[k];
    }
  }

  /** Stripping the prefix from prefixed patterns gives the patterns back. */
  lemma UnprefixedPrefixed(patterns: seq<string>)
    ensures Unprefixed(Prefixed(ExcludePrefix, patterns)) == patterns
  {
    var xs := Prefixed(ExcludePrefix, patterns);
    forall k | 0 <= k < |patterns|
      ensures ReplaceFirst(xs[k], ExcludePrefix, "") == patterns[k]
    {
      assert xs[k][..|ExcludePrefix|] == ExcludePrefix;
      assert xs[k][|ExcludePrefix|..] == patterns[k];
    }
  }

  /** Lines that are already trimmed and not blank are all kept, unchanged. */
  lemma {:induction false} NonBlankTrimmedKeeps(lines: seq<string>)
    requires forall k :: 0 <= k < |lines| ==> lines[k] != "" && IsTrimmed(lines[k])
    ensures NonBlankTrimmed(lines) == lines
    decreases |lines|
  {
    if lines != [] {
      NonBlankTrimmedKeeps(lines[..|lines| - 1]);
      TrimOfTrimmed(lines[|lines| - 1]);
    }
  }

  /** Writing patterns one per line into the excludes field reads them back. */
  lemma ExcludeLinesOfJoin(patterns: seq<string>)
    requires forall k :: 0 <= k < |patterns| ==>
               patterns[k] != "" && IsTrimmed(patterns[k]) && '\n' !in patterns[k]
    ensures ExcludeLines(Join(patterns, "\n")) == patterns
  {
    if patterns != [] {
      var text := Join(patterns, "\n");
      JoinIsTrimmed(patterns, "\n");
      TrimOfTrimmed(text);
      LengthOfJoin(patterns, "\n");
      SplitJoin(patterns, '\n');
      NonBlankTrimmedKeeps(patterns);
    }
  }

  /** Writing words space-separated into the custom-options field reads them back. */
  lemma CustomOptionsOfJoin(words: seq<string>)
    requires forall k :: 0 <= k < |words| ==> IsToken(words[k])
    ensures CustomOptions(Join(words, " ")) == words
  {
    var text := Join(words, " ");
    if words != [] {
      assert IsTrimmed(text) && text != [] by {
        assert forall k :: 0 <= k < |words| ==> words[k] != [] && IsTrimmed(words[k]);
        JoinIsTrimmed(words, " ");
        LengthOfJoin(words, " ");
      }
      assert SplitSpaceRuns(text) == words by {
        SplitSpaceRunsOfTrimmed(text);
        FieldsOfJoin(words);
      }
      TrimOfTrimmed(text);
    } else {
      assert text == [];
    }
  }

  /** The timeout option is never taken for an exclude. */
  lemma TimeoutIsNoExclude(v: string)
    ensures !StartsWith(TimeoutPrefix + v, ExcludePrefix)
  {
    assert (TimeoutPrefix + v)[2] == 't' && ExcludePrefix[2] == 'e';
  }

  /** Flags, then a timeout, then excludes, then custom words are sorted group by group. */
  lemma SortGroups(boxOpts: seq<string>, f: seq<string>, t: seq<string>, e: seq<string>, c: seq<string>, b: Bucket)
    requires forall k :: 0 <= k < |f| ==> f[k] in boxOpts
    requires forall k :: 0 <= k < |t| ==> t[k] !in boxOpts && !StartsWith(t[k], ExcludePrefix)
    requires forall k :: 0 <= k < |e| ==> e[k] !in boxOpts && StartsWith(e[k], ExcludePrefix)
    requires forall k :: 0 <= k < |c| ==> c[k] !in boxOpts && !StartsWith(c[k], ExcludePrefix)
    ensures InBucket(boxOpts, f + t + e + c, b) ==
              match b
              case ToCheckbox => f
              case ToExcludes => e
              case ToCustom => t + c
  {
    assert InBucket(boxOpts, f + t + e + c, b) ==
             InBucket(boxOpts, f, b) + InBucket(boxOpts, t, b) + InBucket(boxOpts, e, b) + InBucket(boxOpts, c, b) by {
      InBucketAppend(boxOpts, f, t, b);
      InBucketAppend(boxOpts, f + t, e, b);
      InBucketAppend(boxOpts, f + t + e, c, b);
    }
    InBucketUniform(boxOpts, f, ToCheckbox, b);
    InBucketUniform(boxOpts, t, ToCustom, b);
    InBucketUniform(boxOpts, e, ToExcludes, b);
    InBucketUniform(boxOpts, c, ToCustom, b);
    Pick(f, t, e, c);
  }

  /** Proof helper: what is left of four lists when all but some of them are emptied. */
  lemma Pick<T>(f: seq<T>, t: seq<T>, e: seq<T>, c: seq<T>)
    ensures f + [] + [] + [] == f
    ensures [] + [] + e + [] == e
    ensures [] + t + [] + c == t + c
  {
  }

  /**
   * The conditions under which a reuse selects again what the form selected:
   * the boxes carry distinct flags, no other option is the flag of a box, no
   * custom word starts with `--exclude=`, and the timeout value has no inner
   * white space.
   */
  predicate Reusable(form: Form) {
    && DistinctFlags(form.boxes)
    && NoBoxFlag(form.boxes, TimeoutOptions(form.timeout) + ExcludeOptions(form.excludes) + CustomOptions(form.custom))
    && (forall k :: 0 <= k < |CustomOptions(form.custom)| ==> !StartsWith(CustomOptions(form.custom)[k], ExcludePrefix))
    && (TimeoutOptions(form.timeout) == [] || IsToken(Trim(form.timeout.value)))
  }

  /**
   * Reusing a job started from a reusable form and reading the options out
   * again: the ticked flags, the excludes and the custom options come back,
   * and the timeout option comes back twice, once from the untouched timeout
   * field and once as a custom option.
   */
  lemma ReuseReselect(form: Form, source: string, destination: string)
    requires Reusable(form)
    ensures var again := Restored(form, StoredCommand(source, destination, SelectedOptions(form)));
            && again.source == source && again.destination == destination
            && again.boxes == form.boxes
            && SelectedOptions(again) ==
                 CheckedFlags(form.boxes) + TimeoutOptions(form.timeout) + ExcludeOptions(form.excludes)
                 + TimeoutOptions(form.timeout) + CustomOptions(form.custom)
  {
    ReusedForm(form, source, destination);
    ReadBack(form);
    Regroup(CheckedFlags(form.boxes), TimeoutOptions(form.timeout), ExcludeOptions(form.excludes), CustomOptions(form.custom));
  }

  /** The excludes and custom options the reuse writes into the form read back as they were written. */
  lemma ReadBack(form: Form)
    requires Reusable(form)
    ensures ExcludeOptions(Join(ExcludeLines(form.excludes), "\n")) == ExcludeOptions(form.excludes)
    ensures CustomOptions(Join(TimeoutOptions(form.timeout) + CustomOptions(form.custom), " ")) ==
              TimeoutOptions(form.timeout) + CustomOptions(form.custom)
  {
    ExcludeLinesOfJoin(ExcludeLines(form.excludes));
    TimeoutTokens(form.timeout);
    TokensAppend(TimeoutOptions(form.timeout), CustomOptions(form.custom));
    CustomOptionsOfJoin(TimeoutOptions(form.timeout) + CustomOptions(form.custom));
  }

  /** Proof helper: two lists of tokens concatenate to a list of tokens. */
  lemma TokensAppend(a: seq<string>, b: seq<string>)
    requires forall k :: 0 <= k < |a| ==> IsToken(a[k])
    requires forall k :: 0 <= k < |b| ==> IsToken(b[k])
    ensures forall k :: 0 <= k < |a + b| ==> IsToken((a + b)[k])
  {
    forall k | 0 <= k < |a + b|
      ensures IsToken((a + b)[k])
    {
      if k >= |a| {
        assert (a + b)[k] == b[k - |a|];
      }
    }
  }

  /** What the reuse writes into a reusable form. */
  lemma ReusedForm(form: Form, source: string, destination: string)
    requires Reusable(form)
    ensures Restored(form, StoredCommand(source, destination, SelectedOptions(form))) ==
              Form(source, destination, form.boxes, form.timeout,
                   Join(ExcludeLines(form.excludes), "\n"),
                   Join(TimeoutOptions(form.timeout) + CustomOptions(form.custom), " "))
  {
    ReuseKeepsBoxes(form);
    ReuseSorts(form);
    UnprefixedPrefixed(ExcludeLines(form.excludes));
  }

  /** The reuse ticks exactly the boxes that were ticked. */
  lemma ReuseKeepsBoxes(form: Form)
    requires Reusable(form)
    ensures Ticked(form.boxes, SelectedOptions(form)) == form.boxes
  {
    var rest := TimeoutOptions(form.timeout) + ExcludeOptions(form.excludes) + CustomOptions(form.custom);
    Regroup(CheckedFlags(form.boxes), TimeoutOptions(form.timeout), ExcludeOptions(form.excludes), CustomOptions(form.custom));
    TickedFlagsOnly(form.boxes, rest);
    TickedUnchanged(form.boxes, CheckedFlags(form.boxes) + rest);
  }

  /** With distinct flags, a box is ticked exactly when its flag is among the ticked flags and options that are no box's flag. */
  lemma TickedFlagsOnly(boxes: seq<Checkbox>, rest: seq<string>)
    requires DistinctFlags(boxes)
    requires NoBoxFlag(boxes, rest)
    ensures forall k :: 0 <= k < |boxes| ==> (boxes[k].checked <==> boxes[k].opt in CheckedFlags(boxes) + rest)
  {
    var boxOpts := BoxOpts(boxes);
    forall k | 0 <= k < |boxes|
      ensures boxes[k].checked <==> boxes[k].opt in CheckedFlags(boxes) + rest
    {
      var o := boxes[k].opt;
      assert o in boxOpts by {
        assert boxOpts[k] == o;
      }
      assert o !in rest;
      InCheckedFlags(boxes, o);
      if o in CheckedFlags(boxes) {
        var j :| 0 <= j < |boxes| && boxes[j].checked && boxes[j].opt == o;
        assert j == k;
      }
    }
  }

  /** The excludes come back as excludes, and the timeout joins the custom options. */
  lemma ReuseSorts(form: Form)
    requires Reusable(form)
    ensures InBucket(BoxOpts(form.boxes), SelectedOptions(form), ToExcludes) == ExcludeOptions(form.excludes)
    ensures InBucket(BoxOpts(form.boxes), SelectedOptions(form), ToCustom) ==
              TimeoutOptions(form.timeout) + CustomOptions(form.custom)
  {
    var boxOpts := BoxOpts(form.boxes);
    var f, t, e, c := CheckedFlags(form.boxes), TimeoutOptions(form.timeout), ExcludeOptions(form.excludes), CustomOptions(form.custom);
    NoBoxFlagParts(form.boxes, t, e, c);
    CheckedAreBoxFlags(form.boxes);
    TimeoutGroup(form.boxes, form.timeout);
    ExcludeGroup(form.boxes, form.excludes);
    SortGroups(boxOpts, f, t, e, c, ToExcludes);
    SortGroups(boxOpts, f, t, e, c, ToCustom);
  }

  /** The timeout option is no box's flag and no exclude. */
  lemma TimeoutGroup(boxes: seq<Checkbox>, timeout: Option<string>)
    requires NoBoxFlag(boxes, TimeoutOptions(timeout))
    ensures forall k :: 0 <= k < |TimeoutOptions(timeout)| ==>
              TimeoutOptions(timeout)[k] !in BoxOpts(boxes) && !StartsWith(TimeoutOptions(timeout)[k], ExcludePrefix)
  {
    if TimeoutOptions(timeout) != [] {
      TimeoutIsNoExclude(Trim(timeout.value));
    }
  }

  /** The exclude options start with `--exclude=`. */
  lemma ExcludeGroup(boxes: seq<Checkbox>, excludes: string)
    requires NoBoxFlag(boxes, ExcludeOptions(excludes))
    ensures forall k :: 0 <= k < |ExcludeOptions(excludes)| ==>
              ExcludeOptions(excludes)[k] !in BoxOpts(boxes) && StartsWith(ExcludeOptions(excludes)[k], ExcludePrefix)
  {
    var e := ExcludeOptions(excludes);
    forall k | 0 <= k < |e|
      ensures StartsWith(e[k], ExcludePrefix)
    {
      assert e[k][..|ExcludePrefix|] == ExcludePrefix;
    }
  }

  /** Without a timeout, reusing a job and reading the options out again gives the same options. */
  lemma ReuseRoundTrip(form: Form, source: string, destination: string)
    requires form.timeout.None? || Trim(form.timeout.value) == ""
    requires Reusable(form)
    ensures SelectedOptions(Restored(form, StoredCommand(source, destination, SelectedOptions(form)))) == SelectedOptions(form)
  {
    ReuseReselect(form, source, destination);
    Repeated(CheckedFlags(form.boxes), TimeoutOptions(form.timeout), ExcludeOptions(form.excludes), CustomOptions(form.custom));
  }

  /** With a timeout, the reused form asks for one option more than the job had: the timeout, again. */
  lemma ReuseDuplicatesTimeout(form: Form, source: string, destination: string)
    requires form.timeout.Some? && Trim(form.timeout.value) != ""
    requires Reusable(form)
    ensures var again := SelectedOptions(Restored(form, StoredCommand(source, destination, SelectedOptions(form))));
            |again| == |SelectedOptions(form)| + 1
            && multiset(again)[TimeoutPrefix + Trim(form.timeout.value)] ==
                 multiset(SelectedOptions(form))[TimeoutPrefix + Trim(form.timeout.value)] + 1
  {
    ReuseReselect(form, source, destination);
    Repeated(CheckedFlags(form.boxes), TimeoutOptions(form.timeout), ExcludeOptions(form.excludes), CustomOptions(form.custom));
  }
}
