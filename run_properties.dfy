/**
 * Properties of the action's decision pipeline, stated about `Run.Outcome`
 * and its parts. `Run.Run` computes `Outcome`, so each of them holds of the
 * method as well.
 */
module RunProperties {
  import opened Wrappers
  import opened JsStrings
  import opened Sequences
  import JsonText
  import opened Run

  // ----- Glob filtering -----

  /** The kept files are the input files in their order, with some left out. */
  lemma {:induction false} KeepMatchingSubsequence(files: seq<ChangedFile>, patterns: seq<string>, glob: (string, string) -> bool)
    ensures IsSubsequence(KeepMatching(files, patterns, glob), files)
  {
    if files != [] {
      var rest := KeepMatching(files[1..], patterns, glob);
      KeepMatchingSubsequence(files[1..], patterns, glob);
      if MatchesAny(files[0].filename, patterns, glob) {
        assert KeepMatching(files, patterns, glob) == [files[0]] + rest;
        assert ([files[0]] + rest)[1..] == rest;
      } else {
        assert KeepMatching(files, patterns, glob) == rest;
      }
    }
  }

  /** A file is kept as often as it occurs if its name matches some pattern, and never otherwise. */
  lemma {:induction false} KeepMatchingCount(files: seq<ChangedFile>, patterns: seq<string>, glob: (string, string) -> bool)
    ensures forall f :: multiset(KeepMatching(files, patterns, glob))[f] ==
                        if MatchesAny(f.filename, patterns, glob) then multiset(files)[f] else 0
  {
    if files != [] {
      KeepMatchingCount(files[1..], patterns, glob);
      assert files == [files[0]] + files[1..];
    }
  }

  /**
   * The filter step: without a (non-empty) filter the files pass unchanged;
   * with one, exactly the files matching one of its patterns are kept, in order.
   */
  lemma FilteredFiles(files: seq<ChangedFile>, filter: Option<string>, glob: (string, string) -> bool)
    ensures IsSubsequence(Filtered(files, filter, glob), files)
    ensures filter.None? || filter == Some("") ==> Filtered(files, filter, glob) == files
    ensures filter.Some? && filter.value != "" ==>
      forall f :: multiset(Filtered(files, filter, glob))[f] ==
                  if MatchesAny(f.filename, Patterns(filter.value), glob) then multiset(files)[f] else 0
  {
    if Filters(filter) {
      KeepMatchingSubsequence(files, Patterns(filter.value), glob);
      KeepMatchingCount(files, Patterns(filter.value), glob);
    } else {
      SubsequenceOfItself(files);
    }
  }

  lemma {:induction false} SubsequenceOfItself<T>(s: seq<T>)
    ensures IsSubsequence(s, s)
  {
    if s != [] {
      SubsequenceOfItself(s[1..]);
    }
  }

  /**
   * The patterns of a filter: one per comma-separated piece, each the piece
   * with its surrounding whitespace removed, so none holds a comma or starts
   * or ends with whitespace; the pieces rejoined give the filter back.
   */
  lemma PatternsOfFilter(filter: string)
    ensures Join(Split(filter, ','), [',']) == filter
    ensures |Patterns(filter)| == |Split(filter, ',')|
    ensures forall k :: 0 <= k < |Patterns(filter)| ==> ',' !in Patterns(filter)[k]
    ensures forall k :: 0 <= k < |Patterns(filter)| ==> Trimmed(Patterns(filter)[k])
  {
    JoinSplit(filter, ',');
    var parts, ps := Split(filter, ','), Patterns(filter);
    forall k | 0 <= k < |ps|
      ensures ',' !in ps[k] && Trimmed(ps[k])
    {
      TrimKeepsOut(parts[k], ',');
    }
  }

  /** Two comma-free pieces give two patterns, each trimmed, in order. */
  lemma TwoPatterns(x: string, y: string)
    requires ',' !in x && ',' !in y
    ensures Patterns(x + [','] + y) == [Trim(x), Trim(y)]
  {
    SplitAfterPiece(x, ',', y);
    SplitFree(y, ',');
    var ps := Patterns(x + [','] + y);
    assert |ps| == 2;
    assert ps == [ps[0], ps[1]];
  }

  /** Neither end of `t` is whitespace. */
  predicate Trimmed(t: string)
  {
    t != [] ==> !IsWhitespace(t[0]) && !IsWhitespace(t[|t| - 1])
  }

  /** `trim` only removes characters, so nothing absent from `s` is in its trimmed text. */
  lemma TrimKeepsOut(s: string, c: char)
    requires c !in s
    ensures c !in Trim(s) && Trimmed(Trim(s))
  {
    var t, lead := Trim(s), LeadingWhitespace(s);
    forall j | 0 <= j < |t|
      ensures t[j] != c
    {
      assert t[j] == s[lead + j];
    }
  }

  // ----- Classification -----

  /** The first refused file decides the refusal; a list is accepted exactly when each of its files is. */
  lemma {:induction false} FirstRejectionSpec(files: seq<ChangedFile>, format: Format)
    ensures FirstRejection(files, format).None? <==> forall k :: 0 <= k < |files| ==> Rejection(files[k], format).None?
    ensures FirstRejection(files, format).Some? ==>
      exists i :: 0 <= i < |files| && FirstRejection(files, format) == Rejection(files[i], format) &&
        forall k :: 0 <= k < i ==> Rejection(files[k], format).None?
  {
    if files != [] {
      var tail := files[1..];
      FirstRejectionSpec(tail, format);
      assert forall k :: 0 < k < |files| ==> files[k] == tail[k - 1];
      if Rejection(files[0], format).None? && FirstRejection(tail, format).Some? {
        var i :| 0 <= i < |tail| && FirstRejection(tail, format) == Rejection(tail[i], format) &&
          forall k :: 0 <= k < i ==> Rejection(tail[k], format).None?;
        assert FirstRejection(files, format) == Rejection(files[i + 1], format);
        assert forall k :: 0 <= k < i + 1 ==> Rejection(files[k], format).None?;
      }
    }
  }

  /** Whether the loop lets one file through: no space under space-delimited output, and a known status. */
  predicate Acceptable(file: ChangedFile, format: Format)
  {
    (format == SpaceDelimited ==> ' ' !in file.filename) &&
    (file.status == "added" || file.status == "modified" || file.status == "removed" || file.status == "renamed")
  }

  /**
   * The loop finishes exactly when every file is acceptable; otherwise it
   * reports the first file that is not, with a space taking precedence
   * over an unknown status.
   */
  lemma ClassificationOutcome(files: seq<ChangedFile>, format: Format)
    ensures Classification(files, format).Sorted? <==> forall k :: 0 <= k < |files| ==> Acceptable(files[k], format)
    ensures Classification(files, format).Rejected? ==>
      exists i :: 0 <= i < |files| && !Acceptable(files[i], format) &&
        (forall k :: 0 <= k < i ==> Acceptable(files[k], format)) &&
        Classification(files, format).failure ==
          if format == SpaceDelimited && ' ' in files[i].filename then Failed(SpaceInFilename(files[i].filename))
          else Failed(UnknownFileStatus(files[i].status, files[i].filename))
  {
    FirstRejectionSpec(files, format);
    assert forall k :: 0 <= k < |files| ==> (Rejection(files[k], format).None? <==> Acceptable(files[k], format));
  }

  /** A refused list is refused for one of its files: a space in its name or an unknown status. */
  lemma {:induction false} RejectionIsFileFailure(files: seq<ChangedFile>, format: Format)
    ensures FirstRejection(files, format).Some? ==>
      FirstRejection(files, format).value.Failed? &&
      (FirstRejection(files, format).value.reason.SpaceInFilename? ||
       FirstRejection(files, format).value.reason.UnknownFileStatus?)
    ensures Classification(files, format).Rejected? ==>
      Classification(files, format).failure.Failed? &&
      (Classification(files, format).failure.reason.SpaceInFilename? ||
       Classification(files, format).failure.reason.UnknownFileStatus?)
  {
    if files != [] {
      RejectionIsFileFailure(files[1..], format);
    }
  }

  /** `Pick` keeps the order of the names it picks. */
  lemma {:induction false} PickSubsequence(files: seq<ChangedFile>, wanted: set<FileStatus>)
    ensures IsSubsequence(Pick(files, wanted), Names(files))
  {
    if files != [] {
      PickSubsequence(files[1..], wanted);
      var rest := Pick(files[1..], wanted);
      if HasStatus(files[0], wanted) {
        assert Pick(files, wanted) == [files[0].filename] + rest;
        assert ([files[0].filename] + rest)[1..] == rest;
      } else {
        assert Pick(files, wanted) == rest;
        assert Names(files)[1..] == Names(files[1..]);
      }
    }
  }

  /** A name is picked exactly when some file of a wanted status carries it. */
  lemma {:induction false} PickMember(files: seq<ChangedFile>, wanted: set<FileStatus>, x: string)
    ensures x in Pick(files, wanted) <==>
            exists k :: 0 <= k < |files| && files[k].filename == x && HasStatus(files[k], wanted)
  {
    if files != [] {
      PickMember(files[1..], wanted, x);
      assert forall k :: 0 < k < |files| ==> files[k] == files[1..][k - 1];
      if x in Pick(files[1..], wanted) {
        var k :| 0 <= k < |files[1..]| && files[1..][k].filename == x && HasStatus(files[1..][k], wanted);
        assert files[k + 1].filename == x && HasStatus(files[k + 1], wanted);
      }
    }
  }

  /** Files of the four statuses split the list of all names between the four lists. */
  lemma {:induction false} PickPartition(files: seq<ChangedFile>)
    requires forall k :: 0 <= k < |files| ==> StatusOf(files[k].status).Some?
    ensures multiset(Names(files)) ==
            multiset(Pick(files, {Added})) + multiset(Pick(files, {Modified})) +
            multiset(Pick(files, {Removed})) + multiset(Pick(files, {Renamed}))
  {
    if files != [] {
      PickPartition(files[1..]);
      assert Names(files) == [files[0].filename] + Names(files[1..]);
    }
  }

  /** The added-or-modified list holds the added and the modified names, interleaved in file order. */
  lemma {:induction false} PickUnion(files: seq<ChangedFile>)
    ensures multiset(Pick(files, {Added, Modified})) == multiset(Pick(files, {Added})) + multiset(Pick(files, {Modified}))
  {
    if files != [] {
      PickUnion(files[1..]);
    }
  }

  /**
   * What an accepted list produces: `all` is every name in order; the four
   * status lists split it, each in order; `addedModified` is the added and
   * modified names together; under space-delimited output no name holds a
   * space, so the formatter's own space check never fires.
   */
  lemma Partition(files: seq<ChangedFile>, format: Format, b: Buckets)
    requires Classification(files, format) == Sorted(b)
    ensures b.all == Names(files)
    ensures multiset(b.all) == multiset(b.added) + multiset(b.modified) + multiset(b.removed) + multiset(b.renamed)
    ensures multiset(b.addedModified) == multiset(b.added) + multiset(b.modified)
    ensures IsSubsequence(b.added, b.all) && IsSubsequence(b.modified, b.all) && IsSubsequence(b.removed, b.all)
    ensures IsSubsequence(b.renamed, b.all) && IsSubsequence(b.addedModified, b.all)
    ensures format == SpaceDelimited ==> forall k :: 0 <= k < |b.all| ==> ' ' !in b.all[k]
  {
    FirstRejectionSpec(files, format);
    assert forall k :: 0 <= k < |files| ==> StatusOf(files[k].status).Some? by {
      assert forall k :: 0 <= k < |files| ==> Rejection(files[k], format).None?;
    }
    PickPartition(files);
    PickUnion(files);
    PickSubsequence(files, {Added});
    PickSubsequence(files, {Modified});
    PickSubsequence(files, {Removed});
    PickSubsequence(files, {Renamed});
    PickSubsequence(files, {Added, Modified});
    if format == SpaceDelimited {
      AcceptedNamesHaveNoSpace(files);
    }
  }

  /** Each list holds exactly the names of the files of its statuses. */
  lemma BucketContents(files: seq<ChangedFile>, format: Format, b: Buckets, x: string)
    requires Classification(files, format) == Sorted(b)
    ensures x in b.added <==> exists k :: 0 <= k < |files| && files[k].filename == x && files[k].status == "added"
    ensures x in b.modified <==> exists k :: 0 <= k < |files| && files[k].filename == x && files[k].status == "modified"
    ensures x in b.removed <==> exists k :: 0 <= k < |files| && files[k].filename == x && files[k].status == "removed"
    ensures x in b.renamed <==> exists k :: 0 <= k < |files| && files[k].filename == x && files[k].status == "renamed"
    ensures x in b.addedModified <==>
      exists k :: 0 <= k < |files| && files[k].filename == x && (files[k].status == "added" || files[k].status == "modified")
  {
    PickMember(files, {Added}, x);
    PickMember(files, {Modified}, x);
    PickMember(files, {Removed}, x);
    PickMember(files, {Renamed}, x);
    PickMember(files, {Added, Modified}, x);
  }

  /** Every name on the list of all names is the name of the file at the same position. */
  lemma {:induction false} NamesAt(files: seq<ChangedFile>)
    ensures forall k :: 0 <= k < |files| ==> Names(files)[k] == files[k].filename
  {
    if files != [] {
      NamesAt(files[1..]);
      assert forall k :: 0 < k < |files| ==> Names(files)[k] == Names(files[1..])[k - 1];
    }
  }

  // ----- Serialisation -----

  /** Reads an output back into a list of names. */
  function Decode(format: Format, text: string): Option<seq<string>>
  {
    match format
    case SpaceDelimited => Some(if text == "" then [] else Split(text, ' '))
    case Csv => Some(if text == "" then [] else Split(text, ','))
    case Json => JsonText.Parse(text)
  }

  /** What a list of names needs for its joined text to be read back: no separator in a name, and not the single empty name. */
  predicate Separable(format: Format, names: seq<string>)
  {
    match format
    case SpaceDelimited => names != [""] && forall k :: 0 <= k < |names| ==> ' ' !in names[k]
    case Csv => names != [""] && forall k :: 0 <= k < |names| ==> ',' !in names[k]
    case Json => true
  }

  lemma JoinNotEmpty(xs: seq<string>, sep: char)
    requires xs != [] && xs != [""]
    ensures Join(xs, [sep]) != ""
  {
    if |xs| == 1 {
      assert xs == [xs[0]];
    } else {
      assert Join(xs, [sep]) == xs[0] + [sep] + Join(xs[1..], [sep]);
    }
  }

  /** An output names its list without ambiguity: JSON always, a join when no name holds the separator. */
  lemma SerializeDecode(format: Format, names: seq<string>)
    requires Separable(format, names)
    ensures Decode(format, Serialize(format, names)) == Some(names)
  {
    match format
    case Json =>
      JsonText.ParseStringify(names);
    case SpaceDelimited =>
      if names != [] {
        JoinNotEmpty(names, ' ');
        SplitJoin(names, ' ');
      }
    case Csv =>
      if names != [] {
        JoinNotEmpty(names, ',');
        SplitJoin(names, ',');
      }
  }

  /** A list whose names all come from `all` is separable when `all` is. */
  lemma SeparableSublist(format: Format, names: seq<string>, all: seq<string>)
    requires Separable(format, all)
    requires forall x :: x in names ==> x in all
    requires format != Json ==> "" !in all
    ensures Separable(format, names)
  {
    if format != Json {
      assert forall k :: 0 <= k < |names| ==> names[k] in all;
    }
  }

  /**
   * The seven outputs of an accepted list read back into the lists they
   * were made from, when the names suit the format: for JSON always, for the
   * joins when no file name is empty and, for csv, none holds a comma.
   */
  lemma OutputsDecode(files: seq<ChangedFile>, format: Format, b: Buckets)
    requires Classification(files, format) == Sorted(b)
    requires format == Csv ==> forall k :: 0 <= k < |files| ==> ',' !in files[k].filename
    requires format != Json ==> forall k :: 0 <= k < |files| ==> files[k].filename != ""
    ensures Decode(format, Outputs(format, b)["all"]) == Some(b.all)
    ensures Decode(format, Outputs(format, b)["added"]) == Some(b.added)
    ensures Decode(format, Outputs(format, b)["modified"]) == Some(b.modified)
    ensures Decode(format, Outputs(format, b)["removed"]) == Some(b.removed)
    ensures Decode(format, Outputs(format, b)["renamed"]) == Some(b.renamed)
    ensures Decode(format, Outputs(format, b)["added_modified"]) == Some(b.addedModified)
    ensures Decode(format, Outputs(format, b)["deleted"]) == Some(b.removed)
  {
    AcceptedSeparable(files, format, b);
    BucketsDecode(format, b);
    OutputsAt(format, b);
  }

  lemma AcceptedSeparable(files: seq<ChangedFile>, format: Format, b: Buckets)
    requires Classification(files, format) == Sorted(b)
    requires format == Csv ==> forall k :: 0 <= k < |files| ==> ',' !in files[k].filename
    requires format != Json ==> forall k :: 0 <= k < |files| ==> files[k].filename != ""
    ensures Separable(format, b.all) && (format != Json ==> "" !in b.all)
    ensures IsSubsequence(b.added, b.all) && IsSubsequence(b.modified, b.all) && IsSubsequence(b.removed, b.all)
    ensures IsSubsequence(b.renamed, b.all) && IsSubsequence(b.addedModified, b.all)
  {
    Partition(files, format, b);
    NamesSeparable(files, format);
  }

  lemma NamesSeparable(files: seq<ChangedFile>, format: Format)
    requires format == SpaceDelimited ==> forall k :: 0 <= k < |files| ==> ' ' !in Names(files)[k]
    requires format == Csv ==> forall k :: 0 <= k < |files| ==> ',' !in files[k].filename
    requires format != Json ==> forall k :: 0 <= k < |files| ==> files[k].filename != ""
    ensures Separable(format, Names(files)) && (format != Json ==> "" !in Names(files))
  {
    NamesAt(files);
    if format != Json {
      assert Names(files) != [""] by {
        if |files| == 1 {
          assert Names(files)[0] == files[0].filename;
        }
      }
    }
  }

  /** The text of each output key. */
  lemma OutputsAt(format: Format, b: Buckets)
    ensures Outputs(format, b)["all"] == Serialize(format, b.all)
    ensures Outputs(format, b)["added"] == Serialize(format, b.added)
    ensures Outputs(format, b)["modified"] == Serialize(format, b.modified)
    ensures Outputs(format, b)["removed"] == Serialize(format, b.removed)
    ensures Outputs(format, b)["renamed"] == Serialize(format, b.renamed)
    ensures Outputs(format, b)["added_modified"] == Serialize(format, b.addedModified)
    ensures Outputs(format, b)["deleted"] == Serialize(format, b.removed)
  {
  }

  /** Each of the six lists reads back from its serialised text when they are taken out of a separable `all`. */
  lemma BucketsDecode(format: Format, b: Buckets)
    requires Separable(format, b.all) && (format != Json ==> "" !in b.all)
    requires IsSubsequence(b.added, b.all) && IsSubsequence(b.modified, b.all) && IsSubsequence(b.removed, b.all)
    requires IsSubsequence(b.renamed, b.all) && IsSubsequence(b.addedModified, b.all)
    ensures Decode(format, Serialize(format, b.all)) == Some(b.all)
    ensures Decode(format, Serialize(format, b.added)) == Some(b.added)
    ensures Decode(format, Serialize(format, b.modified)) == Some(b.modified)
    ensures Decode(format, Serialize(format, b.removed)) == Some(b.removed)
    ensures Decode(format, Serialize(format, b.renamed)) == Some(b.renamed)
    ensures Decode(format, Serialize(format, b.addedModified)) == Some(b.addedModified)
  {
    SerializeDecode(format, b.all);
    BucketDecode(format, b.added, b.all);
    BucketDecode(format, b.modified, b.all);
    BucketDecode(format, b.removed, b.all);
    BucketDecode(format, b.renamed, b.all);
    BucketDecode(format, b.addedModified, b.all);
  }

  /** A list taken out of a separable list of all names reads back from its output. */
  lemma BucketDecode(format: Format, names: seq<string>, all: seq<string>)
    requires Separable(format, all) && IsSubsequence(names, all)
    requires format != Json ==> "" !in all
    ensures Decode(format, Serialize(format, names)) == Some(names)
  {
    SubsequenceMembers(names, all);
    SeparableSublist(format, names, all);
    SerializeDecode(format, names);
  }

  // ----- Reference resolution and the compare request -----

  /** A pull request payload that has the objects `run` reads without a guard, and a head owner name. */
  predicate PullRequestUsable(p: Payload)
  {
    p.pullRequest.Some? && p.pullRequest.value.head.Some? &&
    Truthy(HeadOwnerName(p.pullRequest.value.head.value.repo.owner))
  }

  /**
   * A head is not a fork exactly when its owner and repository name equal the
   * base repository's, ignoring ASCII case.
   */
  lemma ForkIgnoresCase(headOwner: string, headRepoName: string, repo: RepoCoord)
    ensures !IsFork(headOwner, headRepoName, repo) <==>
            EqualIgnoringCase(headOwner, repo.owner) && EqualIgnoringCase(headRepoName, repo.repo)
  {
    LowerCaseEqual(headOwner, repo.owner);
    LowerCaseEqual(headRepoName, repo.repo);
  }

  /**
   * The format is checked before anything else: an invalid one is the first
   * failure, the only one, and no request is sent and no output set; no
   * later step reports it.
   */
  lemma FormatCheckedFirst(ctx: Context, options: RunOptions, response: CompareResponse,
                           glob: (string, string) -> bool, r: Report)
    requires r == Outcome(ctx, options, response, glob)
    ensures ParseFormat(options.format).None? <==> r.failures != [] && r.failures[0] == Failed(InvalidFormat(options.format))
    ensures ParseFormat(options.format).None? ==> |r.failures| == 1 && r.request.None? && r.outputs == map[]
  {
    if ParseFormat(options.format).Some? {
      var format := ParseFormat(options.format).value;
      if ResolveRefs(ctx).Success? && CheckResponse(ctx.eventName, response).Success? {
        RejectionIsFileFailure(Filtered(CheckResponse(ctx.eventName, response).value, options.filter, glob), format);
      }
    }
  }

  /**
   * A request is sent exactly when the format is valid and the event is a
   * push, or a pull request with a head and a head owner name; it always
   * targets the action's repository, 250 files per page, first page.
   */
  lemma RequestSent(ctx: Context, options: RunOptions, response: CompareResponse,
                    glob: (string, string) -> bool, r: Report)
    requires r == Outcome(ctx, options, response, glob)
    ensures r.request.Some? <==>
      ParseFormat(options.format).Some? &&
      (ctx.eventName == "push" || (ctx.eventName == "pull_request" && PullRequestUsable(ctx.payload)))
    ensures r.request.None? ==> |r.failures| == 1 && r.outputs == map[]
    ensures r.request.Some? ==>
      r.request.value.owner == ctx.repo.owner && r.request.value.repo == ctx.repo.repo &&
      r.request.value.perPage == 250 && r.request.value.page == 1
  {
  }

  /** The failures that end a run before the request: unknown events, and malformed pull request payloads. */
  lemma EventFailures(ctx: Context, options: RunOptions, response: CompareResponse,
                      glob: (string, string) -> bool, r: Report)
    requires r == Outcome(ctx, options, response, glob)
    requires ParseFormat(options.format).Some?
    ensures ctx.eventName != "push" && ctx.eventName != "pull_request" ==>
      r.failures == [Failed(UnsupportedEvent(ctx.eventName))]
    ensures (ctx.eventName == "pull_request" &&
             (ctx.payload.pullRequest.None? || ctx.payload.pullRequest.value.head.None?)) ==>
      r.failures == [Crashed]
    ensures (ctx.eventName == "pull_request" && ctx.payload.pullRequest.Some? && ctx.payload.pullRequest.value.head.Some? &&
             !Truthy(HeadOwnerName(ctx.payload.pullRequest.value.head.value.repo.owner))) ==>
      r.failures == [Failed(HeadOwnerNotFound(ctx.payload.pullRequest.value.head.value.ref))]
    // `login ?? name`: an empty login is not replaced by the name.
    ensures (ctx.eventName == "pull_request" && ctx.payload.pullRequest.Some? && ctx.payload.pullRequest.value.head.Some? &&
             ctx.payload.pullRequest.value.head.value.repo.owner.login == Some("")) ==>
      r.failures == [Failed(HeadOwnerNotFound(ctx.payload.pullRequest.value.head.value.ref))] && r.request.None?
  {
  }

  /** A push compares `before...after`. */
  lemma PushRequest(ctx: Context, options: RunOptions, response: CompareResponse,
                    glob: (string, string) -> bool, r: Report)
    requires r == Outcome(ctx, options, response, glob)
    requires ParseFormat(options.format).Some?
    requires ctx.eventName == "push" && Truthy(ctx.payload.before) && Truthy(ctx.payload.after)
    ensures r.request == Some(CompareRequest(ctx.repo.owner, ctx.repo.repo,
                                             ctx.payload.before.value + "..." + ctx.payload.after.value, 250, 1))
    ensures Failed(RefsMissing(ctx.eventName)) !in r.failures
  {
    RefsMissingOnlyEarly(ctx, options, response, glob, r);
    var before, after := ctx.payload.before.value, ctx.payload.after.value;
    assert "" + before + "..." + "" + after == before + "..." + after;
  }

  /**
   * A pull request compares `base...head`; when the head is in another
   * account or repository (ignoring case), both sides carry their owner:
   * `owner:base...headOwner:head`.
   */
  lemma PullRequestRequest(ctx: Context, options: RunOptions, response: CompareResponse,
                           glob: (string, string) -> bool, r: Report)
    requires r == Outcome(ctx, options, response, glob)
    requires ParseFormat(options.format).Some?
    requires ctx.eventName == "pull_request" && PullRequestUsable(ctx.payload)
    requires Truthy(ctx.payload.pullRequest.value.baseRef) && Truthy(ctx.payload.pullRequest.value.head.value.ref)
    ensures
      var pr := ctx.payload.pullRequest.value;
      var h := pr.head.value;
      var owner := HeadOwnerName(h.repo.owner).value;
      r.request.Some? &&
      r.request.value.basehead ==
        if IsFork(owner, h.repo.name, ctx.repo) then ctx.repo.owner + ":" + pr.baseRef.value + "..." + owner + ":" + h.ref.value
        else pr.baseRef.value + "..." + h.ref.value
    ensures Failed(RefsMissing(ctx.eventName)) !in r.failures
  {
    RefsMissingOnlyEarly(ctx, options, response, glob, r);
    var pr := ctx.payload.pullRequest.value;
    var h := pr.head.value;
    var owner := HeadOwnerName(h.repo.owner).value;
    var refs := ResolveRefs(ctx).value;
    var early := if MissingRefs(refs) then [Failed(RefsMissing(ctx.eventName))] else [];
    var request := Request(ctx.repo, refs);
    assert r == Compared(ctx.eventName, early, request, response, options.filter, glob, ParseFormat(options.format).value);
    ComparedSendsRequest(ctx.eventName, early, request, response, options.filter, glob, ParseFormat(options.format).value);
    assert !MissingRefs(refs);
    if IsFork(owner, h.repo.name, ctx.repo) {
      assert refs == Refs(pr.baseRef, h.ref, ctx.repo.owner + ":", owner + ":");
      PrefixedBasehead(ctx.repo.owner, pr.baseRef.value, owner, h.ref.value);
    } else {
      assert refs == Refs(pr.baseRef, h.ref, "", "");
      PlainBasehead(pr.baseRef.value, h.ref.value);
    }
  }

  /** Once the compare request is built, it is the one sent, whatever the response. */
  lemma ComparedSendsRequest(eventName: string, early: seq<Failure>, request: CompareRequest, response: CompareResponse,
                             filter: Option<string>, glob: (string, string) -> bool, format: Format)
    ensures Compared(eventName, early, request, response, filter, glob, format).request == Some(request)
  {
  }

  lemma PrefixedBasehead(owner: string, base: string, headOwner: string, head: string)
    ensures (owner + ":") + base + "..." + (headOwner + ":") + head == owner + ":" + base + "..." + headOwner + ":" + head
  {
  }

  lemma PlainBasehead(base: string, head: string)
    ensures "" + base + "..." + "" + head == base + "..." + head
  {
  }

  /** The missing-references failure is reported only when a reference is missing, and then first. */
  lemma RefsMissingOnlyEarly(ctx: Context, options: RunOptions, response: CompareResponse,
                             glob: (string, string) -> bool, r: Report)
    requires r == Outcome(ctx, options, response, glob)
    ensures Failed(RefsMissing(ctx.eventName)) in r.failures <==>
      ParseFormat(options.format).Some? && ResolveRefs(ctx).Success? && MissingRefs(ResolveRefs(ctx).value)
    ensures Failed(RefsMissing(ctx.eventName)) in r.failures ==> r.failures[0] == Failed(RefsMissing(ctx.eventName))
  {
    if ParseFormat(options.format).Some? && ResolveRefs(ctx).Success? && CheckResponse(ctx.eventName, response).Success? {
      var format := ParseFormat(options.format).value;
      RejectionIsFileFailure(Filtered(CheckResponse(ctx.eventName, response).value, options.filter, glob), format);
    }
  }

  /**
   * A missing reference is reported, but the run goes on: the request
   * compares the empty references, and a comparison that is accepted still
   * sets every output beside the failure.
   */
  lemma MissingRefsReported(ctx: Context, options: RunOptions, response: CompareResponse,
                            glob: (string, string) -> bool, r: Report, refs: Refs)
    requires r == Outcome(ctx, options, response, glob)
    requires ParseFormat(options.format).Some? && ResolveRefs(ctx) == Success(refs) && MissingRefs(refs)
    ensures r.failures[0] == Failed(RefsMissing(ctx.eventName))
    ensures r.request.Some? && r.request.value.basehead == refs.ownerModifier + "..." + refs.usernameModifier
    ensures (CheckResponse(ctx.eventName, response).Success? &&
             Classification(Filtered(CheckResponse(ctx.eventName, response).value, options.filter, glob),
                            ParseFormat(options.format).value).Sorted?) ==>
      r.failures == [Failed(RefsMissing(ctx.eventName))] && r.outputs.Keys == OutputKeys
  {
  }

  // ----- The compare response -----

  /**
   * A response other than 200, or one whose head is not ahead, is the last
   * failure and sets no output; outputs are set only for an accepted
   * response, and absent files count as none.
   */
  lemma ResponseChecked(ctx: Context, options: RunOptions, response: CompareResponse,
                        glob: (string, string) -> bool, r: Report)
    requires r == Outcome(ctx, options, response, glob)
    requires ParseFormat(options.format).Some? && ResolveRefs(ctx).Success?
    ensures response.status != 200 ==>
      r.failures != [] && r.failures[|r.failures| - 1] == Failed(BadResponseStatus(ctx.eventName, response.status)) &&
      r.outputs == map[]
    ensures response.status == 200 && response.data.status != Some("ahead") ==>
      r.failures != [] && r.failures[|r.failures| - 1] == Failed(NotAhead(ctx.eventName)) && r.outputs == map[]
    ensures r.outputs != map[] ==> response.status == 200 && response.data.status == Some("ahead")
    ensures response.status == 200 && response.data.status == Some("ahead") && response.data.files.None? ==>
      r.outputs == Outputs(ParseFormat(options.format).value, Buckets([], [], [], [], [], []))
  {
    var early := if MissingRefs(ResolveRefs(ctx).value) then [Failed(RefsMissing(ctx.eventName))] else [];
    if response.status == 200 && response.data.status == Some("ahead") && response.data.files.None? {
      assert Filtered([], options.filter, glob) == [];
    }
  }

  // ----- Outputs -----

  /**
   * Outputs are all or nothing: either none is set, or all seven are, with
   * `deleted` equal to `removed`; they are set exactly when no failure, or
   * only the missing-references one, was reported.
   */
  lemma AllOrNothing(ctx: Context, options: RunOptions, response: CompareResponse,
                     glob: (string, string) -> bool, r: Report)
    requires r == Outcome(ctx, options, response, glob)
    ensures r.outputs == map[] || r.outputs.Keys == OutputKeys
    ensures r.outputs != map[] ==> r.outputs["deleted"] == r.outputs["removed"]
    ensures r.outputs != map[] <==> r.failures == [] || r.failures == [Failed(RefsMissing(ctx.eventName))]
    ensures |r.failures| <= 2
  {
    if ParseFormat(options.format).Some? && ResolveRefs(ctx).Success? {
      var format := ParseFormat(options.format).value;
      var refs := ResolveRefs(ctx).value;
      var early := if MissingRefs(refs) then [Failed(RefsMissing(ctx.eventName))] else [];
      var request := Request(ctx.repo, refs);
      assert r == Compared(ctx.eventName, early, request, response, options.filter, glob, format);
      match CheckResponse(ctx.eventName, response)
      case Failure(f) =>
        assert r == Report(early + [f], Some(request), map[]);
        assert f != Failed(RefsMissing(ctx.eventName));
        assert r.failures[|r.failures| - 1] == f;
      case Success(files) =>
        var kept := Filtered(files, options.filter, glob);
        match Classification(kept, format)
        case Rejected(f) =>
          RejectionIsFileFailure(kept, format);
          assert r == Report(early + [f], Some(request), map[]);
          assert r.failures[|r.failures| - 1] == f;
        case Sorted(b) =>
          OutputsKeys(format, b);
          assert r == Report(early, Some(request), Outputs(format, b));
    }
  }

  /** All seven keys are set, and `deleted` repeats `removed`. */
  lemma OutputsKeys(format: Format, b: Buckets)
    ensures Outputs(format, b).Keys == OutputKeys
    ensures Outputs(format, b)["deleted"] == Outputs(format, b)["removed"]
    ensures Outputs(format, b) != map[]
  {
    assert "all" in Outputs(format, b);
  }

  /** A JSON run that sets outputs lists in `all` every changed file the filter keeps, in order. */
  lemma JsonAllOutput(ctx: Context, options: RunOptions, response: CompareResponse,
                      glob: (string, string) -> bool, r: Report)
    requires r == Outcome(ctx, options, response, glob)
    requires options.format == "json" && r.outputs != map[]
    ensures JsonText.Parse(r.outputs["all"]) ==
            Some(Names(Filtered(response.data.files.GetOr([]), options.filter, glob)))
  {
    var kept := Filtered(response.data.files.GetOr([]), options.filter, glob);
    assert Classification(kept, Json).Sorted?;
    var b := Classification(kept, Json).buckets;
    assert r.outputs == Outputs(Json, b);
    OutputsAt(Json, b);
    Partition(kept, Json, b);
    JsonText.ParseStringify(b.all);
  }
}
