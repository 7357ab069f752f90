# get-changed-files in Dafny

A model of `run`, the core of the GitHub Action *get-changed-files*, and proofs
about it. `run` does the following, in order:

1. It checks the requested output format.
2. It resolves the base and head references of the triggering `pull_request`
   or `push` event. For a pull request from a fork, both references get
   owner prefixes.
3. It sends one compare request and checks the response.
4. It keeps the changed files whose names match one of the comma-separated
   glob patterns of the optional filter.
5. It classifies the files by status into six lists: all, added, modified,
   removed, renamed and added-or-modified.
6. It serialises each list as space-delimited text, csv or a JSON array, and
   sets seven outputs. `deleted` repeats `removed`.

The model takes these as inputs:

- the GitHub context (event name, payload, repository);
- the action's options (`format`, `filter`);
- the compare response;
- the glob matcher, as a function `glob(filename, pattern)`.

A `Report` records what a run produces:

- the failures reported through `core.setFailed`, in order;
- the compare request it sends, if any;
- the outputs set through `core.setOutput`.

`Message` gives the exact text of each failure, including the source's spelling
`'string-delimited'` in the format message.

The modules:

- `Run` holds the data model and the pure specification `Outcome`.
- `Run.Run` is the imperative method that mirrors `run`. It declares its
  `let` variables, switches on the event name, resets missing references,
  loops over the files pushing onto six lists, switches on the format, and
  returns early on each failure. Its contract is `report == Outcome(...)`.
- `Run.Classify` (the classification loop), `Run.ReadRefs` (the event switch)
  and `Run.Emit` (the format switch) are proved against
  `Classification`, `ResolveRefs` and `Outputs`.
- `RunProperties` proves what the action promises about `Outcome`.
- `JsStrings` models the JavaScript string operations the action uses:
  `join`, `split`, `trim`, `toLowerCase` and decimal interpolation.
- `JsonText` models `JSON.stringify` on an array of strings, with a reader
  proving that the text reads back.
- `Sequences` and `Wrappers` are small helpers.

Where the code and its documentation disagree, the model follows the code:

- When the base or head reference is missing (src/run.ts:104-114),
  `core.setFailed` is called but the run does not stop. Both references become
  `""`, the request `ownerModifier...usernameModifier` is still sent, and the
  outputs can still be set beside that failure (`MissingRefsReported`,
  `AllOrNothing`). The comment at src/run.ts:111 calls the reset unreachable,
  as though `core.setFailed` ended the run; it does not. The test at
  src/run.test.ts:87-110 sees no output only because its mocked client returns
  no response, so reading the status at src/run.ts:134 throws. That fault is
  not modelled (see "Left out").
- The formatter's second space check (src/run.ts:214-219) is part of `Run.Run`.
  `Run.AcceptedNamesHaveNoSpace` proves it never reports anything.

## Model

| member | source | states |
|---|---|---|
| Run.Run | src/run.ts:31-266 | the whole run: its failures, its request and its outputs are those of the specification `Outcome` |
| Run.Classify | src/run.ts:163-202 | the loop either stops at the first file with a space (space-delimited) or an unknown status and reports it, or yields the six lists as `Classification` defines them |
| Run.ReadRefs | src/run.ts:55-98 | the event switch gives the base, head and fork prefixes of `ResolveRefs`, or its failure |
| Run.Emit | src/run.ts:204-262 | the format switch sets the seven outputs of `Outputs`, with `deleted` equal to `removed` |
| Run.ParseFormat | src/run.ts:40-46 | a format is accepted exactly when it is `space-delimited`, `csv` or `json`, and its name is the input |
| Run.HeadOwnerName | src/run.ts:70-71 | `login ?? name`: the name is used only when the login is absent |
| Run.StatusOf | src/run.ts:181-201 | each of the four statuses is recognised exactly when the status text is its name |
| Run.Patterns | src/run.ts:156 | one pattern per comma-separated piece, each the trimmed piece |
| Run.AcceptedNamesHaveNoSpace | src/run.ts:214-219 | once the loop has accepted the files under space-delimited output, no name holds a space, so the formatter's check is dead |
| RunProperties.FormatCheckedFirst | src/run.ts:40-46 | an invalid format is the first failure exactly when the format is invalid; then it is the only one, with no request and no output |
| RunProperties.RequestSent | src/run.ts:61-131 | a request is sent exactly for a valid format and a push, or a pull request with a head and a head owner name; it targets the context's repository with 250 per page, page 1 |
| RunProperties.EventFailures | src/run.ts:61-98 | unknown events fail with their name; a pull request payload without `pull_request` or `head` crashes; an absent or empty owner name fails naming the head, and an empty login is not replaced by the name |
| RunProperties.PushRequest | src/run.ts:88-91 | a push with both commits compares `before...after` and reports no missing reference |
| RunProperties.PullRequestRequest | src/run.ts:62-87 | a pull request compares `base...head`, or `owner:base...headOwner:head` when the head's owner or repository differs ignoring case |
| RunProperties.ForkIgnoresCase | src/run.ts:79-82 | a head is not a fork exactly when its owner and repository name equal the base repository's ignoring ASCII case |
| RunProperties.RefsMissingOnlyEarly | src/run.ts:104-114 | the missing-references failure is reported exactly when a reference is absent or empty, and then first |
| RunProperties.MissingRefsReported | src/run.ts:104-124 | a missing reference does not stop the run: the request compares the empty references, and the outputs are still all set when the response and files are accepted |
| RunProperties.ResponseChecked | src/run.ts:133-152 | a non-200 status, or a head that is not ahead, is the last failure and sets no output; outputs need an accepted response; absent files count as none |
| RunProperties.FilteredFiles | src/run.ts:152-162 | without a non-empty filter the files are unchanged; with one, each file is kept as often as it occurs if it matches a pattern and dropped otherwise, in order |
| RunProperties.KeepMatchingSubsequence | src/run.ts:158-160 | filtering keeps the order of the files |
| RunProperties.KeepMatchingCount | src/run.ts:158-160 | a file is kept as often as it occurs when it matches a pattern, never otherwise |
| RunProperties.PatternsOfFilter | src/run.ts:156 | the pieces rejoined give the filter back; each pattern is comma-free and neither starts nor ends with whitespace |
| RunProperties.TwoPatterns | src/run.ts:156 | two comma-free pieces give their two trimmed patterns, in order |
| RunProperties.TrimKeepsOut | src/run.ts:156 | trimming removes characters only at the ends and leaves no whitespace there |
| RunProperties.FirstRejectionSpec | src/run.ts:169-202 | a list is refused exactly when one of its files is, and for the first such file |
| RunProperties.ClassificationOutcome | src/run.ts:169-202 | the loop finishes exactly when every file is acceptable; otherwise it reports the first refused file, with a space taking precedence over its status |
| RunProperties.RejectionIsFileFailure | src/run.ts:173-200 | a refusal is always a space-in-filename or unknown-status failure |
| RunProperties.Partition | src/run.ts:163-202 | `all` is every name in order; the four status lists split it as multisets, each in order; added-or-modified is added plus modified; no name holds a space under space-delimited output |
| RunProperties.BucketContents | src/run.ts:180-195 | a name is in a status list exactly when some file of that status carries it |
| RunProperties.PickSubsequence | src/run.ts:180-195 | each status list keeps the file order |
| RunProperties.PickMember | src/run.ts:180-195 | a name is picked exactly when a file of a wanted status carries it |
| RunProperties.PickPartition | src/run.ts:180-195 | files of known status split the names among the four lists |
| RunProperties.PickUnion | src/run.ts:182-189 | the added-or-modified list holds the added and the modified names |
| RunProperties.NamesAt | src/run.ts:170-180 | the list of all names has each file's name at its position |
| RunProperties.SerializeDecode | src/run.ts:211-242 | a serialised list reads back: JSON always, a join when no name holds the separator and the list is not the single empty name |
| RunProperties.OutputsDecode | src/run.ts:211-262 | each of the seven outputs of an accepted list reads back into its list, for JSON always and for the joins when names are non-empty and, for csv, comma-free |
| RunProperties.OutputsKeys | src/run.ts:253-262 | exactly the seven keys are set, `deleted` equal to `removed` |
| RunProperties.OutputsAt | src/run.ts:253-262 | each key holds the serialised text of its list |
| RunProperties.AllOrNothing | src/run.ts:133-262 | either no output or all seven are set, exactly when there is no failure or only the missing-references one; at most two failures |
| RunProperties.JsonAllOutput | src/run.ts:152-254 | in a JSON run that sets outputs, `all` parses to the names of the filtered files, in order |
| JsStrings.Split | src/run.ts:156 | at least one piece; no piece holds the separator |
| JsStrings.JoinSplit | src/run.ts:156 | joining the pieces of a split with its separator gives the text back |
| JsStrings.SplitJoin | src/run.ts:220-233 | splitting a join of separator-free names gives the names back |
| JsStrings.Trim | src/run.ts:156 | the text is its leading whitespace, the result, then whitespace; the result's ends are not whitespace |
| JsStrings.LeadingWhitespace | src/run.ts:156 | the length of the initial run of whitespace |
| JsStrings.TrailingWhitespace | src/run.ts:156 | the length of the final run of whitespace |
| JsStrings.ToLowerCase | src/run.ts:80-81 | the same length; each ASCII capital becomes its small letter, 32 code points above it; every other character is unchanged |
| JsStrings.LowerCaseIdempotent | src/run.ts:80-81 | lower-casing twice equals lower-casing once |
| JsStrings.LowerCaseEqual | src/run.ts:79-82 | two texts lower-case to the same text exactly when they are equal, character by character, ignoring ASCII case |
| JsStrings.NatToString | src/run.ts:136 | at least one digit and decimal digits only; a text starting with `0` is exactly `"0"`, for zero |
| JsStrings.NatToStringValue | src/run.ts:136 | the decimal text of a natural number reads back as the number |
| JsStrings.IntToStringValue | src/run.ts:136 | the status code in the failure text reads back as the code |
| JsonText.ParseStringify | src/run.ts:235-242 | every `JSON.stringify` of an array of strings parses back to the array |
| JsonText.ReadEscapeBody | src/run.ts:236-241 | a JSON string literal reads back as its string, whatever follows |
| JsonText.ReadQuotedElements | src/run.ts:236-241 | the comma-separated literals of a non-empty array read back as the array |
| JsonText.ReadEscapedChar | src/run.ts:236-241 | each character's escape reads back as that character |
| JsonText.QuoteAll | src/run.ts:236-241 | one literal per element: the element at each position becomes its `JSON.stringify` literal |

## Left out

- The network call: the compare response is an input. The client, the
  `async` suspension and the request's transport are not modelled.
- `core.debug` and `core.info` logging.
- The order of the `core.setOutput` calls: outputs are a map, set at once.
- Thrown errors: only the TypeError raised when a `pull_request` payload lacks
  `pull_request` or `pull_request.head` is modelled, as `Crashed`. The engine's
  message text is not modelled. The response is always a well-formed value, so
  a fault in it (for example an undefined response) is not modelled either.
- The payload's `head.repo`, `head.repo.owner` and `head.repo.name` are
  assumed present. `run` reads them without a guard, and the typed payload
  declares them.
- Run.MatchesAny: micromatch's glob semantics are the parameter `glob`. An
  empty pattern makes micromatch throw (for example the filter `"a,"`); this is
  not modelled.
- JsStrings.ToLowerCase: lowers ASCII letters only; Unicode case mapping is
  not modelled. Account logins and repository names are ASCII. The head owner
  can instead be the owner's `name` (src/run.ts:71), a display name that may
  hold non-ASCII letters. For such a name the model's fork test can differ
  from JavaScript's.
- JsonText.Stringify: Dafny characters are Unicode scalar values, so the lone
  surrogates `JSON.stringify` would escape cannot occur.
- src/action.ts, which reads the inputs and builds the client, is not part of
  this model. Its empty `filter` input arrives as `Some("")`, and `run` treats
  that as no filter.
- The `format` option is typed as one of three names, but any string can
  arrive. The model takes a string and checks it as `run` does.
