# Verification of the platform scripts

The platform repository holds no business service: its logic is in the Node
scripts that start, check and measure the stack, and in the shell script that
prepares the bucket. This project models the parts of them with the most state
and branching, and proves what they promise, for every input, run or reachable
state.

| files | what they model |
|---|---|
| Text, YamlScalars, YamlDocument, YamlReader | the strict YAML reader of `check-kubernetes.mjs`: its character loops and its recursive block reader over one mutable cursor and rows overwritten in place |
| YamlPrinter, YamlTokens, YamlRows, YamlRoundTrip, YamlStream, YamlNewline | a printer of trees in every layout a style chooses (columns, sequences at or right of their key, maps on or below their dash, lists in rows or in brackets, the quotes of every string and key), kustomize's among them, and the round trips of scalars, literal blocks, trees and streams, and what a final newline changes |
| YamlFolding, YamlWrapping, YamlEscapes, YamlComments, YamlKeys, YamlRefusals | scalars wrapped over rows and block scalars of every header, every escape, comments, the lines that are entries, and what the readers refuse instead of misreading it |
| ObservabilityYaml, ObservabilityReader, YamlAgreement | the independent smaller reader of `check-observability.mjs`, and the agreement of the two |
| Provisioning, ProvisioningSafety, ProvisioningExact, ProvisioningRun, ProvisioningDone | the restartable provisioning of `k8s-up.mjs` as a transition system: any number of runs, each stopped anywhere, with deletions from outside, and what a run that ends has brought about |
| Polling, ReadyWait, OneShotPod | the bounded polling loops with a verdict |
| LoadTest, LoadRequests | the concurrent load driver: one state machine a video, every interleaving, every request in its place, and the report |
| Bootstrap | the bucket reconciler `storage/bootstrap.sh`, any call of which may fail |
| RequiredChecks | the rulesets brought to the versioned checks, repository after repository, and what governance reports of them |
| Sorting, Json, CanonicalRules | the rule comparison that judges the bucket: canonical JSON of rules sorted by ID |
| ZipScan, PagedList | the backward scan for an archive's end record, and the paged list reader with its scope check |
| Workflow, WorkflowReader, WorkflowRoundTrip, WorkflowWords, StackRules, StackWorkflow | the workflow step reader of `check-ci-governance.mjs`, its round trip, and the rules of the integration job |

How the models are built. A function of the source that loops or updates state
is a method or a class method with the same loop and the same fields, proved
equal to a function of what is still to be read or of the old state; the
properties are lemmas about those functions. Commands, HTTP answers, clocks,
random draws and failures are parameters: a read is answered or fails, a write
is done, lost, or applied and then reported as failed. Time bounds assume only
what the loops do themselves, that a sleep takes at least its interval.

Where the code and its own comments differ, the code is modelled:

- `check-storage-bootstrap.mjs:56-57` says that two configurations compare equal
  exactly when they hold the same rules. This holds of a list exactly when its
  rules with tied IDs are copies of one rule (`CanonicalRules.ComparisonExactly`).
- A run of `storage/bootstrap.sh` on a bucket that is already right can still
  write: a read that fails inside the correctness test counts as a wrong answer
  (`Bootstrap.NextRunPutsExactly`, `Bootstrap.SecondRunMayPut`).
- `apply-required-checks.mjs` replaces every rule of the kind but judges only the
  first (`RequiredChecks.RunThroughoutExactly`, `RequiredChecks.SecondRuleSurvives`).
- `k8s-up.mjs` keeps the two broker Secrets in agreement exactly in the histories
  in which no command creates one of them beside one with another user
  (`ProvisioningExact.BrokersAgreeExactly`), and the recorded map the cluster's
  own exactly in those in which no command records a run's ports on a cluster
  created with others, whatever happens to Secrets
  (`ProvisioningExact.MapMatchesExactly`). `ProvisioningSafety` shows which runs,
  deletions and downs never lead there, and
  `ProvisioningRun.OverlapWithDeletionBreaks` and
  `ProvisioningRun.DownDuringRunBreaks` are histories that do.
- A newline at the end of a text is one empty row more, which a block scalar that
  keeps its trailing lines reads (`YamlNewline.FinalNewline`).

Run `dafny verify dfyconfig.toml` to verify everything.

## Model

| member | source | states |
|---|---|---|
| `YamlReader.CutComment` | scripts/check-kubernetes.mjs:127-142 | the loop over characters keeps exactly what stands before the first `#` that is outside quotes and follows white space or the line start, a backslash skipping a character inside double quotes |
| `YamlReader.FoldLines` | scripts/check-kubernetes.mjs:148-161 | the loop over lines joins them with a space for one break and one newline for each empty line |
| `YamlReader.SkipBreaks` | scripts/check-kubernetes.mjs:191-196 | the inner loop counts the whole run of line breaks and stops right after it |
| `YamlReader.ReadDoubleQuoted` | scripts/check-kubernetes.mjs:163-204 | the index loop decodes every escape, folds breaks, and fails on an unknown or short escape, an unterminated text, or text after the closing quote, as the unread part says |
| `YamlReader.ReadSingleQuoted` | scripts/check-kubernetes.mjs:206-233 | the index loop undoes doubled quotes, folds breaks, and fails on an unterminated text or text after the closing quote |
| `YamlReader.ReadFlowItems` | scripts/check-kubernetes.mjs:241-258 | the loop over characters cuts a flow list at the commas outside quotes, an empty last item left out |
| `YamlReader.ReadFlowScalars` | scripts/check-kubernetes.mjs:259 | every item of a flow list is read as a scalar of its own, trimmed; the first one refused refuses the list |
| `YamlReader.ReadPlain` | scripts/check-kubernetes.mjs:235-267 | a plain text becomes a collection, a flag, null, a number or itself, or is refused, nested flow collections included |
| `YamlReader.ReadOneLine` | scripts/check-kubernetes.mjs:270-274 | one line is read in the style of its first character |
| `YamlReader.ReadInlineScalar` | scripts/check-kubernetes.mjs:270-277 | several lines are joined and read in the style of the first character, or folded when plain |
| `YamlReader.FoldBlockLines` | scripts/check-kubernetes.mjs:279-296 | the loop folds a `>` block as the code does |
| `YamlReader.PopBlanks` | scripts/check-kubernetes.mjs:366-370 | the loop drops exactly the blank lines at the end and counts them |
| `YamlReader.Document.Next` | scripts/check-kubernetes.mjs:302-312 | moves the cursor to the first row with content, never back, and reports its line; refuses tab indentation |
| `YamlReader.Document.Continue` | scripts/check-kubernetes.mjs:318-339 | takes the continuation rows of a flow scalar, trailing empty lines given back to the cursor, so the cursor moves by exactly the lines returned |
| `YamlReader.Document.CollectBlock` | scripts/check-kubernetes.mjs:341-365 | collects the rows of a block scalar from the first content indentation on, without moving the cursor |
| `YamlReader.Document.ReadBlock` | scripts/check-kubernetes.mjs:341-377 | reads a block scalar with its header, indicator and chomping, and leaves the cursor on its first trailing blank row |
| `YamlReader.Document.ReadValue` | scripts/check-kubernetes.mjs:379-389 | reads the value of a key or an item: a deeper block, a sequence at the key's own column, null, a block scalar or a flow scalar with its continuation |
| `YamlReader.Document.ReadMap` | scripts/check-kubernetes.mjs:391-407 | reads entries until the indentation ends or an item starts; refuses deeper rows and repeated keys |
| `YamlReader.Document.ReadEntry` | scripts/check-kubernetes.mjs:396-404 | reads one `key:` row and its value, the quoted value found where it is written |
| `YamlReader.Document.ReadSequence` | scripts/check-kubernetes.mjs:409-433 | reads items until the indentation ends or a row is no item; refuses deeper rows |
| `YamlReader.Document.Overwrite` | scripts/check-kubernetes.mjs:423-424 | overwrites the row under the cursor with the same row, its dash left out, and no other row |
| `YamlReader.Document.ReadItem` | scripts/check-kubernetes.mjs:415-430 | reads one item; a `- key:` row is overwritten in place and read again as the first row of a map |
| `YamlReader.Document.ReadNode` | scripts/check-kubernetes.mjs:435-438 | reads the sequence or map the row under the cursor starts |
| `YamlReader.Document.Read` | scripts/check-kubernetes.mjs:440-445 | terminates on every input; a successful reading has consumed every row, and what is left over is refused |
| `YamlReader.ReadDocuments` | scripts/check-kubernetes.mjs:449-460 | the loop over lines cuts a stream at its `---` lines, drops carriage returns and refuses other markers |
| `YamlReader.ReadYamlStream` | scripts/check-kubernetes.mjs:449-462 | the documents of a stream in order, the ones without content left out; the first refused document refuses the stream |
| `YamlDocument.RewriteShrinks` | scripts/check-kubernetes.mjs:421-424 | overwriting a `- key:` row in place shortens what follows its indentation: the step of the termination measure that does not move the cursor |
| `YamlTokens.EscapeDecodes` | scripts/check-kubernetes.mjs:163-204 | for every string, reading the escaped string gives it back, whatever blank text or comment follows the quote |
| `YamlTokens.DoublingDecodes` | scripts/check-kubernetes.mjs:206-233 | for every string on one line, reading the quote-doubled string gives it back |
| `YamlTokens.DoublingDecodesExactly` | scripts/check-kubernetes.mjs:206-233 | quote-doubling is undone exactly for the strings without a line break; a break is always folded into something else |
| `YamlTokens.BreaksFold` | scripts/check-kubernetes.mjs:220-227 | a quoted text that starts with n line breaks is read with n - 1 of them |
| `YamlTokens.TokenUncommented` | scripts/check-kubernetes.mjs:127-142 | no printed token is cut as a comment |
| `YamlTokens.IntReads` | scripts/check-kubernetes.mjs:265 | every integer written in decimal is read as that integer |
| `YamlTokens.DecimalReads` | scripts/check-kubernetes.mjs:265 | every text of the decimal pattern is read as that number |
| `YamlTokens.ScalarReads` | scripts/check-kubernetes.mjs:235-277 | every printed scalar is read back as its value |
| `YamlTokens.BracketedReads` | scripts/check-kubernetes.mjs:235-267 | a list in brackets is read as exactly what its tokens are read as, commas inside quotes not cutting |
| `YamlEscapes.FormsRead` | scripts/check-kubernetes.mjs:145-204 | a double-quoted text in any mixture of plain characters, letter escapes, numbers of two, four or eight digits in either case and escaped line breaks is read as the characters they stand for |
| `YamlEscapes.FormsRefused` | scripts/check-kubernetes.mjs:163-204 | after any such text a missing closing quote, text after the quote, and a backslash before a letter that stands for nothing are each refused |
| `YamlEscapes.NumberRefused` | scripts/check-kubernetes.mjs:176-186 | a number escape that is cut short, has a digit that is none, or is beyond the last code point is refused |
| `YamlRefusals.PlainWordExactly` | scripts/check-kubernetes.mjs:235-267 | a plain word is refused, null, a flag, an integer, a decimal or itself, each under an exact condition on its text |
| `YamlRefusals.IntegerTextIs` | scripts/check-kubernetes.mjs:265 | an integer is digits after at most one sign, and nothing else |
| `YamlRefusals.IntegerIs` | scripts/check-kubernetes.mjs:265 | it is read as the number its digits and sign say, leading zeros included |
| `YamlRefusals.DecimalTextIs` | scripts/check-kubernetes.mjs:266 | a decimal is digits around a point, on one side at least, with an optional exponent, and nothing else |
| `YamlRefusals.UnsupportedRefused` | scripts/check-kubernetes.mjs:235-277 | an anchor, alias, tag or other unknown start is refused on one line and on several |
| `YamlRefusals.NestedFlowRefused` | scripts/check-kubernetes.mjs:238-240 | a collection inside a list in brackets is refused |
| `YamlRefusals.HeaderExactly` | scripts/check-kubernetes.mjs:341-343 | a block header is a mark, an indicator from 1 to 9 or none and a chomping or none, in either order, and nothing else is taken |
| `YamlRefusals.TabRefused` | scripts/check-kubernetes.mjs:302-308 | a tab in the indentation of a line with content is refused |
| `YamlRefusals.DeeperRefused` | scripts/check-kubernetes.mjs:391-414 | a line deeper than the entries or items it follows is refused |
| `YamlRefusals.ShapeRefused` | scripts/check-kubernetes.mjs:396-420 | a line among entries that is no key, and a dash right after a dash, are refused |
| `YamlRefusals.RepeatedKeyRefused` | scripts/check-kubernetes.mjs:391-407 | a map in which a key comes twice is refused, wherever it comes again |
| `YamlRefusals.MapReadsExactly` | scripts/check-kubernetes.mjs:391-447 | a printed map is read as its entries exactly when its keys differ, and refused for the repeated key otherwise |
| `YamlRefusals.MarkersExactly` | scripts/check-kubernetes.mjs:449-462 | the documents are refused for a marker exactly when some line is one and no separator |
| `YamlFolding.LineThenRest` | scripts/check-kubernetes.mjs:163-233 | reading raw lines up to the closing quote, in either quote style, folds them as plain lines fold |
| `YamlFolding.StylesAgree` | scripts/check-kubernetes.mjs:148-277 | on lines free of quotes and backslashes, one line or several of which the last is not empty, the single-quoted and double-quoted readings are the folded string; several lines whose first is empty or does not start with an indicator are the same string in the plain reading |
| `YamlWrapping.WrappedReads` | scripts/check-kubernetes.mjs:148-277 | a scalar over several lines, in both quoted styles and in the plain one where it may start so, is its lines with a space for each single break and n newlines for n empty lines |
| `YamlWrapping.LinesJoinBySpaces` | scripts/check-kubernetes.mjs:148-277 | lines none of which is empty are read as the lines joined by single spaces |
| `YamlWrapping.WrappedContinues` | scripts/check-kubernetes.mjs:318-339 | the rows of a wrapped scalar are taken as its lines, empty rows between them kept and those after them given back |
| `YamlWrapping.WrappedPlainReads` | scripts/check-kubernetes.mjs:318-389 | a plain scalar wrapped over rows deeper than its parent is read as its lines folded, and nothing after it is taken |
| `YamlWrapping.WrappedQuotedReads` | scripts/check-kubernetes.mjs:318-389 | the same for a quoted scalar, from its opening quote to its closing one |
| `YamlWrapping.FoldedBlockIs` | scripts/check-kubernetes.mjs:279-296 | a folded block joins its lines with a space for a single break and n newlines for n empty lines, and a more indented line keeps the breaks on both sides |
| `YamlWrapping.FoldedBlockAfterBlanks` | scripts/check-kubernetes.mjs:279-296 | empty lines before the first one of a folded block leave one newline fewer than there are lines, unless the line is more indented |
| `YamlWrapping.BlockReads` | scripts/check-kubernetes.mjs:341-377 | a block scalar with any header is its lines, literal or folded, at the indentation the indicator or the first line gives, and ends as its chomping says |
| `YamlWrapping.EmptyBlockReads` | scripts/check-kubernetes.mjs:341-377 | a block without a line is empty, or its blank rows when kept, and those are left for what follows |
| `YamlRows.KeyMatched` | scripts/check-kubernetes.mjs:298 | a printed `key:` line matches the key pattern with its own key and value |
| `YamlKeys.PlainKeyExactly` | scripts/check-kubernetes.mjs:298 | a line that starts with no quote is an entry exactly when it is a plain key, a colon, perhaps after white space, and nothing or white space and a value |
| `YamlKeys.QuotedKeyLine` | scripts/check-kubernetes.mjs:298 | a key in quotes, with its escapes or its doubled quotes, is matched whole and read as itself |
| `YamlRows.KeyReads` | scripts/check-kubernetes.mjs:399 | every printed key, plain or in either quotes, is read back as the key |
| `YamlRows.FoundAfterKey` | scripts/check-kubernetes.mjs:402 | the value is found again in the raw row, where it is written and not inside the key |
| `YamlRows.EntryReads` | scripts/check-kubernetes.mjs:396-404 | a printed `key:` row with what its value reads below is the entry |
| `YamlRows.ItemReads` | scripts/check-kubernetes.mjs:415-430 | a printed dash row with what its value reads below is the item |
| `YamlRows.DashedMapReads` | scripts/check-kubernetes.mjs:420-425 | a map that begins on the line of its dash, however many blanks after it, is read from its own column |
| `YamlComments.EntryNoted` | scripts/check-kubernetes.mjs:127-142 | a comment after a printed entry, with white space before it, changes nothing of what is read |
| `YamlComments.ItemNoted` | scripts/check-kubernetes.mjs:127-142 | the same after a printed item |
| `YamlComments.CommentSkipped` | scripts/check-kubernetes.mjs:302-312 | a line that holds a comment alone is skipped |
| `YamlRoundTrip.ContinuationStops` | scripts/check-kubernetes.mjs:318-339 | a flow scalar does not go on exactly where the first row that is not blank stands at or left of the parent, or is a comment after a plain scalar |
| `YamlRoundTrip.BlockStartReads` | scripts/check-kubernetes.mjs:346-365 | the first line of a block that is not blank fixes its indentation, empty lines before it included |
| `YamlRoundTrip.LiteralBlockReads` | scripts/check-kubernetes.mjs:341-377 | every text that fits a literal block survives it at any indentation below its parent, under each chomping, whatever row left of the block follows, comments included, and the cursor is left on the first row after it; only keep-chomped blocks (a plus after the bar) sees the blank rows that follow |
| `YamlRoundTrip.BlockTextReads` | scripts/check-kubernetes.mjs:341-377 | a string written as a literal block with the header that fits it is read back as the string |
| `YamlRoundTrip.ScalarRoundTrip` | scripts/check-kubernetes.mjs:379-389 | a printed scalar or block is read back and leaves exactly the rows after it |
| `YamlRoundTrip.ValueRoundTrip` | scripts/check-kubernetes.mjs:379-389 | every printed value is read back, under a key or a dash, and leaves the cursor at the same next content |
| `YamlRoundTrip.MapRoundTrip` | scripts/check-kubernetes.mjs:391-407 | every printed map with distinct keys is read back entry by entry, in order |
| `YamlRoundTrip.SeqRoundTrip` | scripts/check-kubernetes.mjs:409-433 | every printed sequence is read back item by item, in order |
| `YamlRoundTrip.ItemRoundTrip` | scripts/check-kubernetes.mjs:409-433 | every printed item is read back: maps on the line of the dash or below it, bare dashes over nested sequences, scalars and blocks |
| `YamlRoundTrip.DocumentRoundTrip` | scripts/check-kubernetes.mjs:300-446 | for every tree with distinct keys, printing it in any layout (every indentation of each collection, maps on or below their dash, lists in rows or in brackets, either quotes) and reading the rows gives the tree back, blank rows at the end changing nothing |
| `YamlStream.StreamIsHomomorphism` | scripts/check-kubernetes.mjs:449-462 | for all texts, a `---` line between two of them, after a newline, yields the documents of the first and then of the second, and is refused exactly when one of them is: with the error of the first when that is refused, unless the second alone has a marker that is refused before any document is read, and else with the error of the second |
| `YamlNewline.BlockExtends` | scripts/check-kubernetes.mjs:341-377 | an empty row after the rows changes a block scalar exactly when it keeps its trailing lines and takes every row; otherwise the row is only left over |
| `YamlNewline.ValueExtends` | scripts/check-kubernetes.mjs:379-389 | an empty row after the rows changes a value exactly when its last block is kept and runs to the end; what is left is otherwise that row more |
| `YamlNewline.DocumentExtends` | scripts/check-kubernetes.mjs:300-446 | a final empty row changes a document exactly when its last value is a kept block that runs to the end, and never makes or mends an error |
| `YamlNewline.FinalNewline` | scripts/check-kubernetes.mjs:449-462 | for every text, a newline at its end changes the documents read exactly when a kept block ends the text |
| `YamlNewline.TerminatedTextsJoin` | scripts/check-kubernetes.mjs:449-462 | for texts that end in a newline, joining two with a `---` line yields the documents of the first and then of the second exactly when no kept block ends the first; whether anything is refused, and with which error, does not depend on the joining |
| `YamlStream.TextRoundTrip` | scripts/check-kubernetes.mjs:449-462 | the text of one printed document, with or without its last newline, is read as that one tree |
| `YamlStream.StreamRoundTrip` | scripts/check-kubernetes.mjs:449-462 | a printed stream of any number of trees is read back whole |
| `ObservabilityReader.DropComment` | scripts/check-observability.mjs:90-103 | the loop keeps exactly what stands before the first `#` outside quotes after white space or the line start; a backslash means nothing to it |
| `ObservabilityReader.CutFlow` | scripts/check-observability.mjs:105-127 | the loop cuts a flow list at the commas outside quotes and refuses brackets |
| `ObservabilityReader.ReadScalar` | scripts/check-observability.mjs:129-144 | a value becomes a list, a quoted text, a flag, null, a number or itself, or is refused |
| `ObservabilityReader.CollectLines` | scripts/check-observability.mjs:148-158 | the first pass keeps the lines with content, with their indentation, and refuses tabs and document markers |
| `ObservabilityReader.Reader.ReadMap` | scripts/check-observability.mjs:165-185 | reads the entries at one indentation; refuses repeated keys |
| `ObservabilityReader.Reader.ReadEntryValue` | scripts/check-observability.mjs:174-182 | reads a value on the line, a deeper block, a sequence at the key's column, or null |
| `ObservabilityReader.Reader.ReadSequence` | scripts/check-observability.mjs:186-205 | reads the items at one indentation |
| `ObservabilityReader.Reader.ReadItem` | scripts/check-observability.mjs:189-202 | reads one item; a `- key:` line is overwritten in place and read again; an empty item is refused |
| `ObservabilityReader.Reader.Read` | scripts/check-observability.mjs:206-208 | terminates on every input; a successful reading has consumed every line |
| `YamlComments.NotedLine` | scripts/check-observability.mjs:90-103 | a comment after a row is dropped with the white space before it |
| `YamlComments.PrintedSettled` | scripts/check-observability.mjs:90-103 | every printed row of the common dialect is such a row |
| `YamlComments.CommentDropped` | scripts/check-observability.mjs:148-152 | a line that holds a comment alone is dropped |
| `YamlRefusals.SmallWordExactly` | scripts/check-observability.mjs:129-144 | a plain word is refused, null, a flag, a number or itself, each under an exact condition on its text |
| `YamlRefusals.NumberTextIs` | scripts/check-observability.mjs:143 | a number is digits, perhaps after a minus, perhaps with digits after a point, and nothing else |
| `YamlRefusals.SmallQuotedExactly` | scripts/check-observability.mjs:134-137 | text in quotes is taken as it stands, and refused when its quote is not closed |
| `YamlRefusals.SmallRepeatedKey` | scripts/check-observability.mjs:148-209 | a repeated key is refused |
| `YamlRefusals.SmallLinesRefused` | scripts/check-observability.mjs:148-156 | a tab in the indentation and a document marker are refused |
| `YamlRefusals.SmallShapeRefused` | scripts/check-observability.mjs:165-192 | a line among entries that is none, and a dash with nothing on it or below it, are refused |
| `YamlKeys.EntryExactly` | scripts/check-observability.mjs:146 | a line is an entry exactly when it is a word or quoted text, a colon, and nothing or white space and a value on that line |
| `YamlAgreement.BracketedAgrees` | scripts/check-observability.mjs:105-133 | a list in brackets is read as exactly what its tokens are read as |
| `ObservabilityReader.ReadYaml` | scripts/check-observability.mjs:148-209 | null for a text without content, and otherwise its one document |
| `YamlAgreement.ObservabilityRoundTrip` | scripts/check-observability.mjs:148-209 | on every tree of the common dialect the smaller reader gives the tree back from its printed text |
| `YamlAgreement.ReadersAgree` | scripts/check-observability.mjs:148-209 | the two independent readers agree: both return the printed tree, on every tree of the common dialect in any layout: every indentation of each collection, lists in rows or in brackets, single or double quotes or none |
| `Provisioning.UserInfoRecovers` | scripts/k8s-up.mjs:363-366 | the generated user and password are recovered from the URL of Secret fiapx-keda-rabbitmq |
| `Provisioning.NatTextInjective` | scripts/k8s-up.mjs:124-130 | different host ports are recorded differently |
| `ProvisioningSafety.SecretUsers` | scripts/k8s-up.mjs:145-160 | both broker Secrets made for one user give back that user |
| `ProvisioningSafety.SameMapSamePorts` | scripts/k8s-up.mjs:177-190 | a recorded map that does not differ from a run's ports means the cluster publishes them |
| `ProvisioningSafety.AdvanceKeeps` | scripts/k8s-up.mjs:308-393 | one command of one run keeps the promises, rotates nothing and moves on consistently, from any reachable state |
| `ProvisioningSafety.OverlappingRunsAreSafe` | scripts/k8s-up.mjs:358-393 | any number of overlapping runs, each stopped anywhere, with any other Secret deleted at any moment, a broker Secret deleted while no run chooses its broker user, and the cluster taken down while no run counts on it: the two broker Secrets never disagree, a recorded map is the cluster's own, and a run that passed provisioning has its own ports recorded |
| `ProvisioningSafety.NoSecretIsRotated` | scripts/k8s-up.mjs:380-388 | in every history, from any state, a Secret that is not deleted keeps its data to the end, whatever the runs do |
| `ProvisioningSafety.SingleRunsAreSafe` | scripts/k8s-up.mjs:358-393 | the same promises for one run at a time, with Secrets deleted and the cluster taken down at any moment |
| `ProvisioningSafety.UnrecordedClusterIsRefused` | scripts/k8s-up.mjs:177-190 | over any history without a down, of runs begun on a cluster without a recorded map, each run ends before it changes anything: the cluster is refused, never reused, keeps its ports and stays without a map, and loses exactly the Secrets deleted from outside |
| `ProvisioningSafety.ReuseExactly` | scripts/k8s-up.mjs:177-190 | a recorded cluster is reused exactly when its ports are those the run asks for |
| `Provisioning.UrlRecovers` | scripts/k8s-up.mjs:150-154 | generated credentials survive the URL of Secret fiapx-rabbitmq |
| `ProvisioningDone.DoneHasEverySecret` | scripts/k8s-up.mjs:345-395 | over every history without a down, whatever other runs do, a run that has ended finds every Secret the manifests read in the cluster, the registry Secret too when it has a token, but for those deleted since before it began |
| `ProvisioningDone.RunAloneEnds` | scripts/k8s-up.mjs:372-395 | a run alone, on no cluster with its ports free or on a ready one recorded with its own ports, ends after exactly 13 or 14 commands, one more with a token; then its ports are recorded, the Secrets are those there were, as they were, and every required one and no other, and new ones hold what was drawn |
| `ProvisioningDone.RunAloneRefused` | scripts/k8s-up.mjs:177-190 | a run alone that meets a cluster without a map, one of other ports, or no cluster with its ports taken, is refused |
| `ProvisioningRun.KindCluster.CreateSecrets` | scripts/k8s-up.mjs:376-388 | creates exactly the wanted Secrets that were absent when they were listed, in order, and stops at a name that has appeared since |
| `ProvisioningRun.KindCluster.ProvisionNamespace` | scripts/k8s-up.mjs:372-394 | records the map, lists the Secrets, recovers or draws the broker user and creates what is absent, stopped after any number of commands |
| `ProvisioningRun.KindCluster.Provision` | scripts/k8s-up.mjs:472-487 | the whole first part of the command is the transition system's run, stopped after any number of commands |
| `ProvisioningRun.IterateIsSafe` | scripts/k8s-up.mjs:472-487 | a run alone keeps the promises wherever it stops |
| `ProvisioningRun.CommandsIterate` | scripts/k8s-up.mjs:472-487 | a run's commands without another event in between, as events of the world, are the run alone |
| `ProvisioningExact.PerformWrites` | scripts/k8s-up.mjs:358-369 | every broker user, in a Secret or in a run's hands, was drawn by the command, over every history |
| `ProvisioningExact.BrokersStepExactly` | scripts/k8s-up.mjs:380-388 | agreeing broker Secrets still agree after a command exactly when it does not create one of them beside one with another user |
| `ProvisioningExact.BrokersAgreeExactly` | scripts/k8s-up.mjs:358-388 | over every history of runs, deletions and downs, the two broker Secrets agree at every point exactly when no command creates one of them beside one with another user |
| `ProvisioningExact.MapStepExactly` | scripts/k8s-up.mjs:372-374 | a recorded map stays the cluster's own after a command exactly when it does not record a run's ports on a cluster that publishes others; Secrets do not matter |
| `ProvisioningExact.MapMatchesExactly` | scripts/k8s-up.mjs:372-374 | over every history the recorded map is the cluster's own at every point exactly when no command records a run's ports on a cluster created with others |
| `ProvisioningExact.MapStaysOwn` | scripts/k8s-up.mjs:308-320 | with any Secrets deleted at any moment and the cluster taken down whenever no run is about to record its ports, the recorded map is the cluster's own |
| `ProvisioningRun.OverlapWithDeletionBreaks` | scripts/k8s-up.mjs:358-393 | a history that meets the condition for failing: two overlapping runs and a deleted broker Secret end with two different broker users |
| `ProvisioningRun.DownDuringRunBreaks` | scripts/k8s-up.mjs:308-320 | a history that meets the condition for failing: a down in the middle of a run ends with another run's ports recorded |
| `ReadyWait.PendingWorkloads` | scripts/k8s-up.mjs:203-221 | an object is pending exactly when it is a listed workload not rolled out, the bootstrap Job when it is not complete or not listed, or the worker's HPA when it is not there; nothing is pending exactly when all is ready; failed exactly when the Job has failed |
| `ReadyWait.WaitForTopology` | scripts/k8s-up.mjs:431-447 | at most ceil(budget / interval) + 1 polls; returns exactly when the last poll found everything ready, fails for the Job exactly when the last poll found it failed, and times out only past the deadline; every earlier poll had something to wait for, in time |
| `LoadTest.OwnTurnsOnly` | scripts/load-test.mjs:97-143 | a driver is where its own turns have brought it, whatever the other drivers did |
| `LoadTest.FinishedStays` | scripts/load-test.mjs:97-137 | a finished driver sends nothing more and keeps its outcome |
| `LoadTest.InterleavingsAgree` | scripts/load-test.mjs:97-143 | every interleaving that lets all drivers finish ends with the same outcomes, in the order of the videos, and the same requests |
| `LoadRequests.EveryDriverInPlace` | scripts/load-test.mjs:97-143 | at every moment of every interleaving each driver has sent its requests in their places: one upload, each part once at its own URL with its own bytes, the confirmation of its upload, then reads of the id that returned; a finished one reports the one reason its answers give |
| `LoadTest.KeysDiffer` | scripts/load-test.mjs:116-118 | no two videos of a run share an Idempotency-Key |
| `LoadTest.UnnamedExactlyWhenCompleted` | scripts/load-test.mjs:97-137 | a finished video has no problem exactly when one of its reads was answered COMPLETED, and exactly when its upload and confirmation were accepted and a read says COMPLETED after reads that each said to go on in time |
| `LoadRequests.SubarrayIs` | scripts/load-test.mjs:110-114 | a part takes the bytes of the file between its two offsets, as far as the file goes |
| `LoadTest.BodiesAreTheFile` | scripts/load-test.mjs:110-114 | the bodies put for parts numbered from one that cover the file, joined in order, are the file |
| `LoadRequests.UploadedIsTheFile` | scripts/load-test.mjs:110-118 | a driver that has sent its confirmation has put, in order, bodies that joined are the file, when its parts are numbered from one and cover it |
| `LoadRequests.TurnsInPlace` | scripts/load-test.mjs:97-137 | the requests sent and the outcome reported by one driver after any number of turns, place by place, from the answers alone |
| `LoadTest.NamedInOrder` | scripts/load-test.mjs:163-165 | outcomes in the order of their indices are named in that order |
| `LoadTest.TurnsCounted` | scripts/load-test.mjs:126-137 | a driver that is not finished has had as many turns as its place in the pipeline says, and polls within the deadline |
| `LoadTest.EnoughTurnsFinish` | scripts/load-test.mjs:126-143 | when the clock moves by the poll interval, any interleaving that gives each driver its turns finishes all of them |
| `LoadTest.DriveVideo` | scripts/load-test.mjs:97-137 | the pipeline as written, with its two loops, ends with the outcome and the requests of its driver after a bounded number of turns |
| `LoadTest.UnderIs` | scripts/load-test.mjs:154-158 | the count under a status is the number of places whose result carries it |
| `LoadTest.TotalGrows` | scripts/load-test.mjs:154-158 | counting one more result raises the sum of the counts by one |
| `LoadTest.NamedMembers` | scripts/load-test.mjs:163-165 | a video is named exactly when a result of its index has a problem |
| `LoadTest.Summarize` | scripts/load-test.mjs:154-166 | each status is counted as often as it occurs, the counts sum to the number of videos, and the failures are exactly the results with a problem, in order |
| `LoadTest.ReportNamesExactly` | scripts/load-test.mjs:97-167 | whatever the interleaving, the report names exactly the videos that did not complete |
| `Bootstrap.Bucket.Create` | storage/bootstrap.sh:13-18 | creating a bucket that exists changes nothing; a failed call may or may not have created it |
| `Bootstrap.Bucket.Put` | storage/bootstrap.sh:86 | the put replaces the whole configuration, or fails before or after it did |
| `Bootstrap.Bucket.ConfigureRetention` | storage/bootstrap.sh:64-98 | the ownership test, the correctness test, the rewrite and the read-back, stopped at every read that `set -e` stops at |
| `Bootstrap.Bucket.Start` | storage/bootstrap.sh:13-98 | the whole run on the bucket it changes, any call failing |
| `Bootstrap.CountsAreRetention` | storage/bootstrap.sh:47-55 | the four counts are right exactly when the rules are three, one correct rule for each owned ID and nothing else |
| `Bootstrap.RetentionActs` | storage/bootstrap.sh:31-56 | the rules so counted delete an object under either prefix at seven days and no other object ever, discard an unfinished upload at one day, and do nothing else |
| `Bootstrap.OursIsAll` | storage/bootstrap.sh:73-79 | the owned count equals the total exactly when no rule is someone else's |
| `Bootstrap.RunChanges` | storage/bootstrap.sh:13-98 | whatever fails, a run only creates a missing bucket or writes the three rules over rules that are all owned, with no policy set |
| `Bootstrap.ExitZeroMeansRetained` | storage/bootstrap.sh:93-98 | exit 0 implies no policy and exactly one correct rule for each owned ID and nothing else, judged on the fields the queries look at |
| `Bootstrap.CleanRunExact` | storage/bootstrap.sh:13-98 | a run in which no call fails exits 0 exactly when there is no policy and no foreign rule |
| `Bootstrap.NextRunPutsExactly` | storage/bootstrap.sh:81-88 | after exit 0 a run writes again exactly when it reaches the correctness test and one of the test's own reads fails |
| `Bootstrap.NextCleanRunRests` | storage/bootstrap.sh:81-88 | after exit 0 a run in which no call fails changes nothing, writes nothing and exits 0 |
| `Bootstrap.SecondRunMayPut` | storage/bootstrap.sh:81-88 | two runs that both exit 0, the second of which writes: a failed read inside the test counts as a wrong answer |
| `Bootstrap.ForeignRulesSurvive` | storage/bootstrap.sh:73-88 | over any number of runs with any failures, a bucket with a policy or a foreign rule is left exactly as it was |
| `Bootstrap.RunsConverge` | storage/bootstrap.sh:13-98 | after any runs with any failures, the first run in which no call fails exits 0 exactly when the bucket had nothing to refuse from the start |
| `RequiredChecks.LabelDiffers` | scripts/check-ci-governance.mjs:424 | two checks with one label are one check, even with an `@` in a context |
| `RequiredChecks.NothingToChange` | scripts/apply-required-checks.mjs:70-83 | there is nothing to add or remove exactly when the ruleset requires the checks and no others |
| `RequiredChecks.ChangesExactly` | scripts/apply-required-checks.mjs:74-83 | what is to be added are exactly the wanted checks that are not live, what is to be removed exactly the live ones that are not wanted, each once |
| `RequiredChecks.ReplacedExactly` | scripts/apply-required-checks.mjs:50-68 | after the body is put back every rule of the kind lists exactly the checks, and with the lists left out the ruleset is the one read |
| `RequiredChecks.Repositories.Put` | scripts/apply-required-checks.mjs:112-116 | a PUT stores the body, or fails before or after it did |
| `RequiredChecks.Repositories.Apply` | scripts/apply-required-checks.mjs:88-122 | the loop over the repositories, stopped at the first failure, in both modes |
| `RequiredChecks.VisitApplies` | scripts/apply-required-checks.mjs:90-117 | one repository's turn leaves every other repository alone and its own as it was or with exactly its checks |
| `RequiredChecks.StopsOnTheFirstFailure` | scripts/apply-required-checks.mjs:88-122 | in every run, whatever fails: the repositories before the failure require exactly their checks, at most the failed one is changed besides, the later ones and all others are untouched, and everything but the lists is kept |
| `RequiredChecks.SuccessRequiresAll` | scripts/apply-required-checks.mjs:88-122 | a run without an error leaves every repository with exactly its checks |
| `RequiredChecks.NothingLeftToWrite` | scripts/apply-required-checks.mjs:103-107 | where every repository has its checks, a run writes nothing, whatever fails: it says so of each repository up to the first read that fails, and ends with that failure or with none |
| `RequiredChecks.SecondRunWritesNothing` | scripts/apply-required-checks.mjs:88-122 | a further run after one without an error writes nothing and changes nothing, whatever fails in it, and ends without an error exactly when all its reads succeed |
| `RequiredChecks.RunKeepsFixable` | scripts/apply-required-checks.mjs:88-122 | no run, whatever fails in it, changes which repositories can be brought to their checks |
| `RequiredChecks.CleanRunExact` | scripts/apply-required-checks.mjs:88-122 | a run in which nothing fails ends without an error exactly when every repository has one ruleset of the name that has the rule or already requires the checks |
| `RequiredChecks.RunsConverge` | scripts/apply-required-checks.mjs:88-122 | after any runs failing anywhere, the first one in which nothing fails succeeds exactly when every repository could be fixed from the start, and then all require exactly their checks |
| `RequiredChecks.DryRunForetells` | scripts/apply-required-checks.mjs:103-117 | a dry run changes nothing, and the changes it prints are those an applied run then makes |
| `RequiredChecks.NoProblemsExactly` | scripts/check-ci-governance.mjs:456-481 | nothing is reported exactly of one ruleset of the name that is active, on the default branch alone and requires exactly the checks |
| `RequiredChecks.ProblemsExactly` | scripts/check-ci-governance.mjs:456-481 | each problem is reported exactly of what it says: the number of rulesets of the name, and of the one its enforcement, its target, and its missing and unexpected checks |
| `RequiredChecks.NoDifferenceAfterSuccess` | scripts/check-ci-governance.mjs:472-480 | after a run without an error no missing and no unexpected check is reported of any repository |
| `RequiredChecks.ThroughoutExactly` | scripts/apply-required-checks.mjs:56-71 | every rule of the kind holds the checks after a good turn exactly when the first one did not before, or all of them did: only the first is judged, all are replaced |
| `RequiredChecks.RunThroughoutExactly` | scripts/apply-required-checks.mjs:56-122 | after a run without an error some rule of the kind in a repository does not hold exactly the checks if and only if before the run the first one held them and some rule did not |
| `RequiredChecks.SecondRuleSurvives` | scripts/apply-required-checks.mjs:70-83 | a second rule with another check survives a run that reports that exactly the checks are required |
| `Sorting.SortsAgree` | scripts/check-storage-bootstrap.mjs:66 | sorting does not depend on the arrangement or on how the sort is done, when no two elements tie |
| `Sorting.SortedTie` | scripts/check-storage-bootstrap.mjs:66 | two sorted arrangements of the same elements tie place by place |
| `Json.EscapedDiffers` | scripts/check-storage-bootstrap.mjs:66 | no escaped character begins another one |
| `Json.StringifyOneToOne` | scripts/check-storage-bootstrap.mjs:66 | serialization is one to one on all values |
| `Json.CanonicalExactly` | scripts/check-storage-bootstrap.mjs:58-64 | two values have one canonical form exactly when they are the same up to the order of the keys at every depth |
| `CanonicalRules.SameId` | scripts/check-storage-bootstrap.mjs:65-67 | rules that are the same up to key order sort by one ID |
| `CanonicalRules.EqualFormsHoldSame` | scripts/check-storage-bootstrap.mjs:58-67 | equal canonical strings always mean the same rules |
| `CanonicalRules.FormsCompareRules` | scripts/check-storage-bootstrap.mjs:58-67 | where the rules of one list with tied IDs are copies, the canonical strings are equal exactly when the lists are permutations of each other up to key order at every depth |
| `CanonicalRules.TieBreaksComparison` | scripts/smoke-local-integration.mjs:317-326 | whenever two different rules of a list have IDs the collation does not tell apart, the list with the two exchanged holds the same rules and has another string |
| `CanonicalRules.ComparisonExactly` | scripts/check-storage-bootstrap.mjs:56-67 | for every list and collation, the comparison with the list is exact for all lists exactly when its rules with tied IDs are copies of one rule |
| `CanonicalRules.OwnedRulesExactly` | scripts/check-storage-bootstrap.mjs:77-82 | a configuration is accepted exactly when it holds the owned rules, whatever IDs it holds |
| `ZipScan.CountZipEntries` | scripts/smoke-local-integration.mjs:84-93 | for every buffer the backward scan stays in bounds and returns the entry count of the last end record within 22 + 65535 bytes of the end, or fails exactly when there is none |
| `ZipScan.ReadUInt32LE` | scripts/smoke-local-integration.mjs:88 | four bytes read in little-endian order |
| `ZipScan.ReadUInt16LE` | scripts/smoke-local-integration.mjs:89 | two bytes read in little-endian order |
| `ZipScan.RecordReads` | scripts/smoke-local-integration.mjs:75-93 | a record written in the order of section 4.3.16 of APPNOTE is found where it was put, with the count it was given |
| `ZipScan.ReadArchive` | scripts/smoke-local-integration.mjs:84-93 | body, record and comment give the count back exactly when no later offset looks like a record, or the last one that does counts as many |
| `ZipScan.NoCommentIsPlain` | scripts/smoke-local-integration.mjs:84-93 | an archive without a comment always meets that condition |
| `ZipScan.RecordInComment` | scripts/smoke-local-integration.mjs:84-93 | a whole record in the comment is taken for the archive's own |
| `PagedList.ListAll` | scripts/smoke-local-integration.mjs:893-904 | against a server that pages a fixed list: exactly that list in max(1, ceil(n / 100)) requests, or the first page that is not answered 200 |
| `PagedList.AssertListsDisjoint` | scripts/smoke-local-integration.mjs:908-919 | accepted exactly when each list holds its owner's own requests and none is in both; a reported fault is a true one |
| `PagedList.CheckScope` | scripts/smoke-local-integration.mjs:895-919 | lists read to their ends and accepted mean the complete lists are scoped, and scoped lists that can be read are accepted |
| `OneShotPod.Run` | scripts/smoke-local-integration.mjs:222-242 | a created pod is always deleted, once and last; the logs are the result exactly after the phase Succeeded; at most ceil(timeout / 500) + 1 polls |
| `WorkflowReader.ReadJobBlock` | scripts/check-ci-governance.mjs:149-169 | the search for `jobs:` and the job's name among the jobs' column, and the job's lines |
| `WorkflowReader.ReadJobBody` | scripts/check-ci-governance.mjs:161-166 | the lines of a job end at the first that is not indented deeper |
| `WorkflowReader.ReadJobKeys` | scripts/check-ci-governance.mjs:184-228 | the job's own keys and, below `steps:`, its steps |
| `WorkflowReader.ReadStepItems` | scripts/check-ci-governance.mjs:196-226 | the steps at the column of the first dash, numbered in order, up to the end of the block |
| `WorkflowReader.ReadStepBody` | scripts/check-ci-governance.mjs:205-208 | a step's lines end at the first content at or left of its dash |
| `WorkflowReader.ReadStepKeys` | scripts/check-ci-governance.mjs:209-224 | a step's four keys with the lines their values go on with |
| `WorkflowReader.ReadSteps` | scripts/check-ci-governance.mjs:179-229 | all of it for a block, nothing for one without content |
| `WorkflowWords.WordLineExactly` | scripts/check-ci-governance.mjs:151 | a line is a word line exactly when the word has nothing but white space after it |
| `WorkflowWords.ContentExactly` | scripts/check-ci-governance.mjs:140-171 | a line of content has, after its white space, a character that is no comment sign; its indentation is that white space |
| `WorkflowWords.KeyExactly` | scripts/check-ci-governance.mjs:172 | a line is a key exactly when it is a name, a colon, and nothing or white space and a value on that line |
| `WorkflowWords.UnquoteExactly` | scripts/check-ci-governance.mjs:141-144 | a value in a pair of like quotes loses them, any other is trimmed |
| `WorkflowRoundTrip.ValueReads` | scripts/check-ci-governance.mjs:141-144 | every one-line value, quoted where it has to be, is read back as it is |
| `WorkflowRoundTrip.FieldRead` | scripts/check-ci-governance.mjs:209-224 | a key whose value goes on in deeper rows, or is a block of them, is read with the trimmed texts of all its rows that are not blank, and as multi-line exactly when it has one or is a block |
| `WorkflowRoundTrip.StepReads` | scripts/check-ci-governance.mjs:197-226 | one written step, its keys in any order and its values on one line or on many, is taken whole, up to the next dash or the end of the steps, and read as the step it stands for: the pieces of its commands joined by newlines, those of its other values by spaces |
| `WorkflowRoundTrip.StepsRead` | scripts/check-ci-governance.mjs:196-226 | any list of written steps is read as the steps they stand for, in order |
| `WorkflowRoundTrip.JobReads` | scripts/check-ci-governance.mjs:179-229 | a written job is read back: its keys, and the steps it stands for |
| `WorkflowRoundTrip.JobFound` | scripts/check-ci-governance.mjs:149-169 | a job's lines are found whole among those of other jobs |
| `WorkflowRoundTrip.WorkflowRoundTrips` | scripts/check-ci-governance.mjs:149-229 | any written steps put into a job among other jobs are read back as the steps they stand for, with the job's own keys |
| `StackRules.StepRulesExactly` | scripts/check-ci-governance.mjs:275-313 | the conditions, the wrapped commands and the order raise no problem exactly when the steps in which a stack command occurs at all are the required sequence, each that command alone and never skipped, and no other step has a condition but an allowed one |
| `StackRules.BareStepsRunTheStack` | scripts/check-ci-governance.mjs:275-313 | one bare step for each command, in order, is accepted, when no command is part of another |
| `StackWorkflow.StackCommandsApart` | scripts/check-ci-governance.mjs:84-101 | no stack command is part of another one |
| `StackWorkflow.BareWorkflowIsGoverned` | scripts/check-ci-governance.mjs:254-313 | the workflow that runs the stack commands as bare steps of the integration job is accepted |
| `StackRules.BadConditions` | scripts/check-ci-governance.mjs:275-283 | exactly the steps with a condition that is not allowed, or on a stack command, are reported |
| `StackRules.WrappedCommands` | scripts/check-ci-governance.mjs:287-294 | exactly the pairs of a step and a stack command with other shell text around it are reported |
| `StackRules.FirstOutOfOrder` | scripts/check-ci-governance.mjs:305-313 | the first position where the stack commands run differ from the required ones, or none exactly when they are the same |
| `StackRules.TokenLines` | scripts/check-ci-governance.mjs:297-301 | exactly the lines that mention the token are reported |
| `StackRules.ReadDefaults` | scripts/check-ci-governance.mjs:242-249 | the lines of the workflow's own `defaults:` |
| `WorkflowWords.AllowedExactly` | scripts/check-ci-governance.mjs:234-238 | the three conditions that are allowed, each for the step of its name |
| `WorkflowWords.ExpressionReads` | scripts/check-ci-governance.mjs:239 | an expression is taken out of its braces, without the white space in them |
| `WorkflowWords.SetsKeyExactly` | scripts/check-ci-governance.mjs:267-271 | a line sets a key exactly when the key opens it, after white space or after a dash and white space |
| `StackRules.IntegrationProblems` | scripts/check-ci-governance.mjs:254-313 | nothing is reported exactly of a workflow whose integration job always runs the stack |
| `StackRules.WrittenWorkflowExactly` | scripts/check-ci-governance.mjs:254-313 | a written workflow is accepted exactly when the steps it stands for run the stack, nothing conditions the job, and no line sets a shell, continue-on-error or the token |
| `StackRules.MaskedCommandRefused` | scripts/check-ci-governance.mjs:287-294 | a stack command with other shell text in the same value, on its line or on any line the value goes on with, or in a block, is never accepted |

## Left out

- Line numbers and wording of error messages, report lines and log output: an error is named by its kind.
- Numbers: integers are unbounded, a decimal keeps its literal text, so rounding, `-0` and numbers beyond 2^53 are not modelled.
- YamlScalars.KeyText: a decimal key keeps its literal, while the code prints the number, so `1.5:` and `1.50:` are one key in the code and two in the model.
- YamlReader.Document.ReadEntry: decimal keys, for the same reason.
- YamlReader.ReadPlain: the number a decimal denotes is not computed, its literal is kept.
- YamlTokens.DecimalReads: the number a decimal denotes is not computed.
- ObservabilityReader.ReadScalar: the number a decimal denotes is not computed.
- YamlReader.ReadDoubleQuoted: an escape that names a lone surrogate is refused, while the code takes it.
- Strings are sequences of Unicode scalar values: lone surrogates, and an escape that names one, are refused; code-unit order of key sorting differs from code-point order beyond U+FFFF.
- JavaScript objects are lists of entries in insertion order: `__proto__` and the reordering of integer-like keys are not modelled.
- YamlReader.FoldBlockLines: a `>` block does not follow section 8.1.3 of YAML 1.2.2 where empty lines come first; what it is read as is proved, no round trip is claimed.
- YamlAgreement.ReadersAgree: the common dialect has no escapes, inner quotes, literal blocks or `{}`, which the smaller reader does not read.
- ProvisioningRun.KindCluster.Provision: the port syntax check, the tool preflight, the definitions.json entry of fiapx-rabbitmq and the ServiceAccount patch change none of the modelled state.
- Provisioning.UserInfoRecovers: for the alphanumeric values the command generates; percent-decoding of other credentials is not modelled.
- ReadyWait.WaitForTopology: the report read after a failure, and the KEDA and topology steps around the wait.
- LoadTest.DriveVideo: latencies, headers and the text of problems; a status that is no text is absent.
- LoadTest.EnoughTurnsFinish: needs a clock that moves by at least the poll interval in each sleep, as the loop arranges.
- Bootstrap.Bucket.Start: the text of a failed read is assumed not to name the errors that mean "none yet"; other writers at the same time.
- RequiredChecks.Repositories.Apply: a repository is the list of its rulesets named `protect main`, each read with its rules; other fields of a check are dropped as by the script.
- CanonicalRules.FormsCompareRules: an ID that is a list or an object sorts as one fixed text.
- PagedList.ListAll: a list that changes between two pages.
- StackRules.IntegrationProblems: the docs-links, topology and kubernetes jobs, whose rules repeat those of the integration job; the text of each problem.
- The scenario runner around the bootstrap, the self-tests, the manifest, dashboard and broker rule tables, and the document checks: finite checks with one branch each.
- The request lifecycle described in docs/foudation.md: its code is in the four service repositories, which are not part of this model.
