/**
 * The decision pipeline of the action: check the output format, resolve the
 * base and head references of the triggering event, build the compare request,
 * check the compare response, filter the changed files by glob patterns,
 * classify them by status and serialise the six lists.
 *
 * The GitHub context, the options, the compare response and the glob matcher
 * are inputs; what the action reports through `core.setFailed` and
 * `core.setOutput`, and the request it sends, are the fields of a `Report`.
 */
module Run {
  import opened Wrappers
  import opened JsStrings
  import JsonText

  // ----- Data model -----

  /** The three output formats. */
  datatype Format = SpaceDelimited | Csv | Json

  /** A GitHub account as the payload gives it; either name may be absent. */
  datatype User = User(login: Option<string>, name: Option<string>)

  datatype HeadRepo = HeadRepo(name: string, owner: User)

  /** The `head` object of a pull request payload. */
  datatype Head = Head(ref: Option<string>, repo: HeadRepo)

  /** The `pull_request` object of a payload. */
  datatype PullRequest = PullRequest(baseRef: Option<string>, head: Option<Head>)

  /** The parts of the event payload the action reads. */
  datatype Payload = Payload(pullRequest: Option<PullRequest>, before: Option<string>, after: Option<string>)

  /** The repository the action runs against. */
  datatype RepoCoord = RepoCoord(owner: string, repo: string)

  datatype Context = Context(eventName: string, payload: Payload, repo: RepoCoord)

  /** The action's inputs: `format` as given, and the optional comma-separated globs. */
  datatype RunOptions = RunOptions(format: string, filter: Option<string>)

  datatype ChangedFile = ChangedFile(filename: string, status: string)

  /** The four statuses the classifier accepts. */
  datatype FileStatus = Added | Modified | Removed | Renamed

  datatype CompareData = CompareData(status: Option<string>, files: Option<seq<ChangedFile>>)

  /** What `compareCommitsWithBasehead` returns: the HTTP status and the body. */
  datatype CompareResponse = CompareResponse(status: int, data: CompareData)

  /** The arguments of the single compare call. */
  datatype CompareRequest = CompareRequest(owner: string, repo: string, basehead: string, perPage: nat, page: nat)

  /** Why the action calls `core.setFailed`; `Message` gives the exact text. */
  datatype Reason =
    | InvalidFormat(format: string)
    | UnsupportedEvent(eventName: string)
    | HeadOwnerNotFound(head: Option<string>)
    | RefsMissing(eventName: string)
    | BadResponseStatus(eventName: string, status: int)
    | NotAhead(eventName: string)
    | SpaceInFilename(filename: string)
    | UnknownFileStatus(fileStatus: string, filename: string)
    | SpaceInOutputs

  /**
   * A failure report: one of the action's own, or a TypeError the runtime
   * throws on a malformed pull request payload, which the top-level `catch`
   * reports with the engine's own text.
   */
  datatype Failure = Failed(reason: Reason) | Crashed

  /** Everything one run does that can be observed. */
  datatype Report = Report(failures: seq<Failure>, request: Option<CompareRequest>, outputs: map<string, string>)

  /** The six lists the classifier builds. */
  datatype Buckets = Buckets(
    all: seq<string>, added: seq<string>, modified: seq<string>,
    removed: seq<string>, renamed: seq<string>, addedModified: seq<string>)

  datatype Classified = Sorted(buckets: Buckets) | Rejected(failure: Failure)

  /** The head and base as read from the payload, and the fork prefixes. */
  datatype Refs = Refs(base: Option<string>, head: Option<string>, ownerModifier: string, usernameModifier: string)

  const PerPage: nat := 250
  const FirstPage: nat := 1
  const OutputKeys: set<string> := {"all", "added", "modified", "removed", "renamed", "added_modified", "deleted"}

  // ----- Failure messages -----

  const IssueRequest := "Please submit an issue on this action's GitHub repo."
  const IssueIfWrong := "Please submit an issue on this action's GitHub repo if you believe this in correct."

  /** `${head}` of an absent reference is the text "undefined". */
  function Interpolated(s: Option<string>): string
  {
    s.GetOr("undefined")
  }

  /** The text passed to `core.setFailed`. */
  function Message(reason: Reason): string
  {
    match reason
    case InvalidFormat(format) =>
      "Format must be one of 'string-delimited', 'csv', or 'json', got '" + format + "'."
    case UnsupportedEvent(eventName) =>
      "This action only supports pull requests and pushes, " + eventName + " events are not supported. " + IssueIfWrong
    case HeadOwnerNotFound(head) =>
      "This action could not find the owner name of the head " + Interpolated(head) + ". " + IssueIfWrong
    case RefsMissing(eventName) =>
      "The base and head commits are missing from the payload for this " + eventName + " event. " + IssueRequest
    case BadResponseStatus(eventName, status) =>
      "The GitHub API for comparing the base and head commits for this " + eventName + " event returned "
      + IntToString(status) + ", expected 200. " + IssueRequest
    case NotAhead(eventName) =>
      "The head commit for this " + eventName + " event is not ahead of the base commit. "
      + "Please ensure your changes are on top of the base branch so that comparison is accurate."
    case SpaceInFilename(filename) =>
      "One of your files includes a space (" + filename + "). Consider using a different output format or removing spaces from your filenames. "
      + IssueRequest
    case UnknownFileStatus(fileStatus, filename) =>
      "One of your files includes an unsupported file status '" + fileStatus + "' for '" + filename
      + "', expected 'added', 'modified', 'removed', or 'renamed'."
    case SpaceInOutputs =>
      "One of your files includes a space. Consider using a different output format or removing spaces from your filenames."
  }

  // ----- Format validation -----

  function FormatName(f: Format): string
  {
    match f
    case SpaceDelimited => "space-delimited"
    case Csv => "csv"
    case Json => "json"
  }

  /** The format named by the input, if it names one. */
  function ParseFormat(format: string): (f: Option<Format>)
    ensures f.Some? <==> format == "space-delimited" || format == "csv" || format == "json"
    ensures f.Some? ==> FormatName(f.value) == format
  {
    if format == "space-delimited" then Some(SpaceDelimited)
    else if format == "csv" then Some(Csv)
    else if format == "json" then Some(Json)
    else None
  }

  // ----- Reference resolution -----

  /** JavaScript truthiness of an optional string: present and not empty. */
  predicate Truthy(s: Option<string>)
  {
    s.Some? && s.value != ""
  }

  /** `login ?? name`: the name is used only when the login is absent. */
  function HeadOwnerName(owner: User): (n: Option<string>)
    ensures owner.login.Some? ==> n == owner.login
    ensures owner.login.None? ==> n == owner.name
  {
    if owner.login.Some? then owner.login else owner.name
  }

  /** The head lives in another account or repository, compared ignoring case. */
  predicate IsFork(headOwner: string, headRepoName: string, repo: RepoCoord)
  {
    ToLowerCase(headOwner) != ToLowerCase(repo.owner) || ToLowerCase(headRepoName) != ToLowerCase(repo.repo)
  }

  /** The base and head an event gives, with the fork prefixes, or why there are none. */
  function ResolveRefs(ctx: Context): Result<Refs, Failure>
  {
    if ctx.eventName == "pull_request" then
      match ctx.payload.pullRequest
      case None => Failure(Crashed)
      case Some(pr) =>
        match pr.head
        case None => Failure(Crashed)
        case Some(h) =>
          var owner := HeadOwnerName(h.repo.owner);
          if !Truthy(owner) then Failure(Failed(HeadOwnerNotFound(h.ref)))
          else if IsFork(owner.value, h.repo.name, ctx.repo) then
            Success(Refs(pr.baseRef, h.ref, ctx.repo.owner + ":", owner.value + ":"))
          else Success(Refs(pr.baseRef, h.ref, "", ""))
    else if ctx.eventName == "push" then
      Success(Refs(ctx.payload.before, ctx.payload.after, "", ""))
    else Failure(Failed(UnsupportedEvent(ctx.eventName)))
  }

  predicate MissingRefs(refs: Refs)
  {
    !Truthy(refs.base) || !Truthy(refs.head)
  }

  /** The compare request; both references become `""` when either is missing. */
  function Request(repo: RepoCoord, refs: Refs): CompareRequest
  {
    var base := if MissingRefs(refs) then "" else refs.base.value;
    var head := if MissingRefs(refs) then "" else refs.head.value;
    CompareRequest(repo.owner, repo.repo, refs.ownerModifier + base + "..." + refs.usernameModifier + head, PerPage, FirstPage)
  }

  // ----- Compare-response validation -----

  /** The changed files of an accepted response, or why it is refused. */
  function CheckResponse(eventName: string, response: CompareResponse): Result<seq<ChangedFile>, Failure>
  {
    if response.status != 200 then Failure(Failed(BadResponseStatus(eventName, response.status)))
    else if response.data.status != Some("ahead") then Failure(Failed(NotAhead(eventName)))
    else Success(response.data.files.GetOr([]))
  }

  // ----- Glob filtering -----

  /** The trimmed comma-separated patterns of a filter. */
  function Patterns(filter: string): (ps: seq<string>)
    ensures |ps| == |Split(filter, ',')|
    ensures forall k :: 0 <= k < |ps| ==> ps[k] == Trim(Split(filter, ',')[k])
  {
    var parts := Split(filter, ',');
    seq(|parts|, k requires 0 <= k < |parts| => Trim(parts[k]))
  }

  /** `micromatch.isMatch(filename, patterns)`: some pattern matches. */
  predicate MatchesAny(filename: string, patterns: seq<string>, glob: (string, string) -> bool)
  {
    exists k :: 0 <= k < |patterns| && glob(filename, patterns[k])
  }

  /** `files.filter(...)`: the files whose name matches some pattern, in order. */
  function KeepMatching(files: seq<ChangedFile>, patterns: seq<string>, glob: (string, string) -> bool): seq<ChangedFile>
  {
    if files == [] then []
    else
      var kept := if MatchesAny(files[0].filename, patterns, glob) then [files[0]] else [];
      kept + KeepMatching(files[1..], patterns, glob)
  }

  /** A filter applies only when it is a non-empty string. */
  predicate Filters(filter: Option<string>)
  {
    Truthy(filter)
  }

  function Filtered(files: seq<ChangedFile>, filter: Option<string>, glob: (string, string) -> bool): seq<ChangedFile>
  {
    if Filters(filter) then KeepMatching(files, Patterns(filter.value), glob) else files
  }

  // ----- Classification -----

  /** The status a compare entry names, if it is one of the four accepted. */
  function StatusOf(status: string): (s: Option<FileStatus>)
    ensures s == Some(Added) <==> status == "added"
    ensures s == Some(Modified) <==> status == "modified"
    ensures s == Some(Removed) <==> status == "removed"
    ensures s == Some(Renamed) <==> status == "renamed"
  {
    match status
    case "added" => Some(Added)
    case "modified" => Some(Modified)
    case "removed" => Some(Removed)
    case "renamed" => Some(Renamed)
    case _ => None
  }

  /** The checks made on one file, in the order the loop makes them. */
  function Rejection(file: ChangedFile, format: Format): Option<Failure>
  {
    if format == SpaceDelimited && ' ' in file.filename then Some(Failed(SpaceInFilename(file.filename)))
    else if StatusOf(file.status).None? then Some(Failed(UnknownFileStatus(file.status, file.filename)))
    else None
  }

  /** The failure of the first rejected file, if any. */
  function FirstRejection(files: seq<ChangedFile>, format: Format): Option<Failure>
  {
    if files == [] then None
    else if Rejection(files[0], format).Some? then Rejection(files[0], format)
    else FirstRejection(files[1..], format)
  }

  /** The names of the files, in order. */
  function Names(files: seq<ChangedFile>): (names: seq<string>)
    ensures |names| == |files|
  {
    if files == [] then [] else [files[0].filename] + Names(files[1..])
  }

  predicate HasStatus(file: ChangedFile, wanted: set<FileStatus>)
  {
    StatusOf(file.status).Some? && StatusOf(file.status).value in wanted
  }

  /** The names of the files whose status is in `wanted`, in order. */
  function Pick(files: seq<ChangedFile>, wanted: set<FileStatus>): seq<string>
  {
    if files == [] then []
    else
      var picked := if HasStatus(files[0], wanted) then [files[0].filename] else [];
      picked + Pick(files[1..], wanted)
  }

  /** What the classification loop produces, stated list by list. */
  function Classification(files: seq<ChangedFile>, format: Format): Classified
  {
    match FirstRejection(files, format)
    case Some(f) => Rejected(f)
    case None =>
      Sorted(Buckets(Names(files), Pick(files, {Added}), Pick(files, {Modified}),
                     Pick(files, {Removed}), Pick(files, {Renamed}), Pick(files, {Added, Modified})))
  }

  // ----- Serialisation -----

  function Serialize(format: Format, names: seq<string>): string
  {
    match format
    case SpaceDelimited => Join(names, " ")
    case Csv => Join(names, ",")
    case Json => JsonText.Stringify(names)
  }

  /** The seven outputs; `deleted` repeats `removed`. */
  function Outputs(format: Format, b: Buckets): map<string, string>
  {
    map["all" := Serialize(format, b.all),
        "added" := Serialize(format, b.added),
        "modified" := Serialize(format, b.modified),
        "removed" := Serialize(format, b.removed),
        "renamed" := Serialize(format, b.renamed),
        "added_modified" := Serialize(format, b.addedModified),
        "deleted" := Serialize(format, b.removed)]
  }

  // ----- The whole run -----

  /** What one run reports, composed from the steps above. */
  function Outcome(ctx: Context, options: RunOptions, response: CompareResponse, glob: (string, string) -> bool): Report
  {
    match ParseFormat(options.format)
    case None => Report([Failed(InvalidFormat(options.format))], None, map[])
    case Some(format) =>
      match ResolveRefs(ctx)
      case Failure(f) => Report([f], None, map[])
      case Success(refs) =>
        var early := if MissingRefs(refs) then [Failed(RefsMissing(ctx.eventName))] else [];
        Compared(ctx.eventName, early, Request(ctx.repo, refs), response, options.filter, glob, format)
  }

  /** What a run reports once the compare request is sent, after the failures in `early`. */
  function Compared(eventName: string, early: seq<Failure>, request: CompareRequest, response: CompareResponse,
                    filter: Option<string>, glob: (string, string) -> bool, format: Format): Report
  {
    match CheckResponse(eventName, response)
    case Failure(f) => Report(early + [f], Some(request), map[])
    case Success(files) =>
      match Classification(Filtered(files, filter, glob), format)
      case Rejected(f) => Report(early + [f], Some(request), map[])
      case Sorted(b) => Report(early, Some(request), Outputs(format, b))
  }

  lemma {:induction false} NamesAppend(p: seq<ChangedFile>, q: seq<ChangedFile>)
    ensures Names(p + q) == Names(p) + Names(q)
  {
    if p != [] {
      assert (p + q)[0] == p[0] && (p + q)[1..] == p[1..] + q;
      NamesAppend(p[1..], q);
    } else {
      assert p + q == q;
    }
  }

  lemma {:induction false} PickAppend(p: seq<ChangedFile>, q: seq<ChangedFile>, wanted: set<FileStatus>)
    ensures Pick(p + q, wanted) == Pick(p, wanted) + Pick(q, wanted)
  {
    if p != [] {
      assert (p + q)[0] == p[0] && (p + q)[1..] == p[1..] + q;
      PickAppend(p[1..], q, wanted);
    } else {
      assert p + q == q;
    }
  }

  lemma {:induction false} FirstRejectionAppend(p: seq<ChangedFile>, q: seq<ChangedFile>, format: Format)
    ensures FirstRejection(p + q, format) ==
            if FirstRejection(p, format).Some? then FirstRejection(p, format) else FirstRejection(q, format)
  {
    if p != [] {
      assert (p + q)[0] == p[0] && (p + q)[1..] == p[1..] + q;
      FirstRejectionAppend(p[1..], q, format);
    } else {
      assert p + q == q;
    }
  }

  lemma PickStep(files: seq<ChangedFile>, i: nat, wanted: set<FileStatus>)
    requires i < |files|
    ensures Pick(files[..i + 1], wanted) ==
            Pick(files[..i], wanted) + (if HasStatus(files[i], wanted) then [files[i].filename] else [])
  {
    assert files[..i + 1] == files[..i] + [files[i]];
    PickAppend(files[..i], [files[i]], wanted);
  }

  /** The first rejection, extended by one more file when the files before it were accepted. */
  lemma RejectionStep(files: seq<ChangedFile>, i: nat, format: Format)
    requires i < |files|
    requires FirstRejection(files[..i], format).None?
    ensures FirstRejection(files[..i + 1], format) == Rejection(files[i], format)
    ensures Rejection(files[i], format).Some? ==> FirstRejection(files, format) == Rejection(files[i], format)
  {
    assert files[..i + 1] == files[..i] + [files[i]];
    FirstRejectionAppend(files[..i], [files[i]], format);
    assert files == files[..i + 1] + files[i + 1..];
    FirstRejectionAppend(files[..i + 1], files[i + 1..], format);
  }

  /** Under the space-delimited format, no name of an accepted list of files holds a space. */
  lemma {:induction false} AcceptedNamesHaveNoSpace(files: seq<ChangedFile>)
    requires FirstRejection(files, SpaceDelimited).None?
    ensures forall k :: 0 <= k < |files| ==> ' ' !in Names(files)[k]
  {
    if files != [] {
      AcceptedNamesHaveNoSpace(files[1..]);
      assert forall k :: 1 <= k < |files| ==> Names(files)[k] == Names(files[1..])[k - 1];
    }
  }

  /** The accumulators after one more file. */
  lemma BucketsStep(files: seq<ChangedFile>, i: nat)
    requires i < |files|
    ensures Names(files[..i + 1]) == Names(files[..i]) + [files[i].filename]
    ensures Pick(files[..i + 1], {Added}) == Pick(files[..i], {Added}) + (if HasStatus(files[i], {Added}) then [files[i].filename] else [])
    ensures Pick(files[..i + 1], {Modified}) == Pick(files[..i], {Modified}) + (if HasStatus(files[i], {Modified}) then [files[i].filename] else [])
    ensures Pick(files[..i + 1], {Removed}) == Pick(files[..i], {Removed}) + (if HasStatus(files[i], {Removed}) then [files[i].filename] else [])
    ensures Pick(files[..i + 1], {Renamed}) == Pick(files[..i], {Renamed}) + (if HasStatus(files[i], {Renamed}) then [files[i].filename] else [])
    ensures Pick(files[..i + 1], {Added, Modified}) ==
            Pick(files[..i], {Added, Modified}) + (if HasStatus(files[i], {Added, Modified}) then [files[i].filename] else [])
  {
    assert files[..i + 1] == files[..i] + [files[i]];
    NamesAppend(files[..i], [files[i]]);
    PickStep(files, i, {Added});
    PickStep(files, i, {Modified});
    PickStep(files, i, {Removed});
    PickStep(files, i, {Renamed});
    PickStep(files, i, {Added, Modified});
  }

  /**
   * The classification loop of `run`: each file is checked for a space (in
   * the space-delimited format), pushed onto `all`, then onto the lists of its
   * status; the first refused file ends the loop.
   */
  method Classify(files: seq<ChangedFile>, format: Format) returns (classified: Classified)
    ensures classified == Classification(files, format)
  {
    var all, added, modified, removed, renamed, addedModified := [], [], [], [], [], [];
    for i := 0 to |files|
      invariant FirstRejection(files[..i], format).None?
      invariant all == Names(files[..i])
      invariant added == Pick(files[..i], {Added})
      invariant modified == Pick(files[..i], {Modified})
      invariant removed == Pick(files[..i], {Removed})
      invariant renamed == Pick(files[..i], {Renamed})
      invariant addedModified == Pick(files[..i], {Added, Modified})
    {
      var file := files[i];
      var filename := file.filename;
      RejectionStep(files, i, format);
      BucketsStep(files, i);
      if format == SpaceDelimited && ' ' in filename {
        return Rejected(Failed(SpaceInFilename(filename)));
      }
      all := all + [filename];
      match StatusOf(file.status) {
        case Some(Added) =>
          added := added + [filename];
          addedModified := addedModified + [filename];
        case Some(Modified) =>
          modified := modified + [filename];
          addedModified := addedModified + [filename];
        case Some(Removed) =>
          removed := removed + [filename];
        case Some(Renamed) =>
          renamed := renamed + [filename];
        case None =>
          return Rejected(Failed(UnknownFileStatus(file.status, filename)));
      }
    }
    assert files[..|files|] == files;
    classified := Sorted(Buckets(all, added, modified, removed, renamed, addedModified));
  }

  /**
   * The `switch` on the event name: the base and head it reads and the fork
   * prefixes it sets, or the failure that ends the run.
   */
  method ReadRefs(ctx: Context) returns (resolved: Result<Refs, Failure>)
    ensures resolved == ResolveRefs(ctx)
  {
    var base: Option<string>;
    var head: Option<string>;
    var usernameModifier := "";
    var ownerModifier := "";
    if ctx.eventName == "pull_request" {
      if ctx.payload.pullRequest.None? || ctx.payload.pullRequest.value.head.None? {
        return Failure(Crashed);
      }
      var pr := ctx.payload.pullRequest.value;
      var headObj := pr.head.value;
      base := pr.baseRef;
      head := headObj.ref;
      var headOwnerName := HeadOwnerName(headObj.repo.owner);
      if !Truthy(headOwnerName) {
        return Failure(Failed(HeadOwnerNotFound(head)));
      }
      if IsFork(headOwnerName.value, headObj.repo.name, ctx.repo) {
        usernameModifier := headOwnerName.value + ":";
        ownerModifier := ctx.repo.owner + ":";
      }
    } else if ctx.eventName == "push" {
      base := ctx.payload.before;
      head := ctx.payload.after;
    } else {
      return Failure(Failed(UnsupportedEvent(ctx.eventName)));
    }
    resolved := Success(Refs(base, head, ownerModifier, usernameModifier));
  }

  /** The `switch` on the format that serialises the six lists, and the seven outputs set from them. */
  method Emit(format: Format, buckets: Buckets) returns (outputs: map<string, string>)
    ensures outputs == Outputs(format, buckets)
  {
    var all, added, modified, removed, renamed, addedModified :=
      buckets.all, buckets.added, buckets.modified, buckets.removed, buckets.renamed, buckets.addedModified;
    var allFormatted, addedFormatted, modifiedFormatted, removedFormatted, renamedFormatted, addedModifiedFormatted;
    match format {
      case SpaceDelimited =>
        allFormatted := Join(all, " ");
        addedFormatted := Join(added, " ");
        modifiedFormatted := Join(modified, " ");
        removedFormatted := Join(removed, " ");
        renamedFormatted := Join(renamed, " ");
        addedModifiedFormatted := Join(addedModified, " ");
      case Csv =>
        allFormatted := Join(all, ",");
        addedFormatted := Join(added, ",");
        modifiedFormatted := Join(modified, ",");
        removedFormatted := Join(removed, ",");
        renamedFormatted := Join(renamed, ",");
        addedModifiedFormatted := Join(addedModified, ",");
      case Json =>
        allFormatted := JsonText.Stringify(all);
        addedFormatted := JsonText.Stringify(added);
        modifiedFormatted := JsonText.Stringify(modified);
        removedFormatted := JsonText.Stringify(removed);
        renamedFormatted := JsonText.Stringify(renamed);
        addedModifiedFormatted := JsonText.Stringify(addedModified);
    }
    outputs := map["all" := allFormatted, "added" := addedFormatted, "modified" := modifiedFormatted,
                   "removed" := removedFormatted, "renamed" := renamedFormatted,
                   "added_modified" := addedModifiedFormatted, "deleted" := removedFormatted];
  }

  /**
   * `run`: each step in the order the action takes it, each failure ending
   * the run except the one for missing references.
   */
  method Run(ctx: Context, options: RunOptions, response: CompareResponse, glob: (string, string) -> bool)
    returns (report: Report)
    ensures report == Outcome(ctx, options, response, glob)
  {
    var format: Format;
    match ParseFormat(options.format) {
      case None =>
        return Report([Failed(InvalidFormat(options.format))], None, map[]);
      case Some(f) =>
        format := f;
    }

    var resolved := ReadRefs(ctx);
    if resolved.Failure? {
      return Report([resolved.error], None, map[]);
    }
    var refs := resolved.value;
    var base, head := refs.base, refs.head;

    // The failure is reported but the run goes on.
    var failures: seq<Failure> := [];
    if !Truthy(base) || !Truthy(head) {
      failures := failures + [Failed(RefsMissing(ctx.eventName))];
      base := Some("");
      head := Some("");
    }

    assert failures == if MissingRefs(refs) then [Failed(RefsMissing(ctx.eventName))] else [];
    assert base.value == if MissingRefs(refs) then "" else refs.base.value;
    assert head.value == if MissingRefs(refs) then "" else refs.head.value;

    var request := CompareRequest(ctx.repo.owner, ctx.repo.repo,
                                  refs.ownerModifier + base.value + "..." + refs.usernameModifier + head.value,
                                  PerPage, FirstPage);
    assert request == Request(ctx.repo, refs);
    assert Outcome(ctx, options, response, glob) == Compared(ctx.eventName, failures, request, response, options.filter, glob, format);

    if response.status != 200 {
      return Report(failures + [Failed(BadResponseStatus(ctx.eventName, response.status))], Some(request), map[]);
    }
    if response.data.status != Some("ahead") {
      return Report(failures + [Failed(NotAhead(ctx.eventName))], Some(request), map[]);
    }

    var files := response.data.files.GetOr([]);
    assert CheckResponse(ctx.eventName, response) == Success(files);
    if Filters(options.filter) {
      var normalizedFilters := Patterns(options.filter.value);
      files := KeepMatching(files, normalizedFilters, glob);
    }

    var classified := Classify(files, format);
    if classified.Rejected? {
      return Report(failures + [classified.failure], Some(request), map[]);
    }
    var buckets := classified.buckets;
    if format == SpaceDelimited {
      // The formatter's own space check; the loop above has already refused such names.
      AcceptedNamesHaveNoSpace(files);
      var early := failures;
      for i := 0 to |buckets.all|
        invariant failures == early
      {
        if ' ' in buckets.all[i] {
          failures := failures + [Failed(SpaceInOutputs)];
        }
      }
    }
    var outputs := Emit(format, buckets);
    report := Report(failures, Some(request), outputs);
  }
}
