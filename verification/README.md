# Proofs about SmallCLUE's text tools and its awk

These modules model SmallCLUE's own text tools, `diff`, `expr`, `fmt`, `comm`, `cmp`, `base64` and the
Option-key translator of `micro`, and the runtime, lexer and parser of its `awk`, and prove what they promise.
`dafny verify dfyconfig.toml` checks all of it.

| modules | what they model |
|---|---|
| `Diff`, `DiffHunks` | the table, the backtracked edit script, unified hunks, and applying them both ways |
| `AwkValues`, `AwkArray` | awk's values and its chained hash table over linked nodes, against a finite map |
| `AwkFrames` | call frames: arrays passed by reference, arrays a frame owns, who frees what |
| `AwkFields`, `AwkRecords` | `$0`, fields and NF; reading records by every kind of RS |
| `AwkSub`, `AwkRegex` | `sub` and `gsub` over an arbitrary matcher |
| `AwkTokens`, `AwkLexer`, `AwkSpelling` | the lexer: newlines, division or pattern, literals; writing tokens and reading them back |
| `AwkAst`, `AwkGrammar`, `AwkTrees`, `AwkParser` | the parser against a grammar that relates trees to token lists |
| `AwkPrinter`, `AwkDressing`, `AwkListing`, `AwkRoundTrip` | printing expressions, the parentheses they need, printing statements and programs, and parsing the written text back |
| `AwkReadings` | what that grammar says: where `>` may stand, and all the trees of some token lists |
| `AwkArrayParams`, `AwkForwarders` | which parameters are arrays, propagated through calls, and programs it is wrong about |
| `Expr` | the fused parser and evaluator, against a printer |
| `Fmt`, `Lines` | paragraphs, greedy wrapping, its optimality |
| `Comm`, `Strings` | the two-cursor merge over strcmp-sorted lines; isspace, isdigit and strcmp |
| `Cmp` | the buffered comparison against a bytewise one |
| `Base64` | the wrapped codec |
| `OptionKeys` | the byte-at-a-time UTF-8 translator |
| `Wrappers`, `Sequences` | optional values and concatenations, for all of them |

A string is a sequence of characters that stand for non-NUL bytes. A regular expression is an arbitrary function
that answers with a span inside the text or with none. An input stream is a text with a position, the output a
text that grows. A read may return any non-empty part of what is left.

Where the code and its comments differ, the code is modelled. The parser's comment at
`src/awk_parser.c:354-357` speaks of `-2^2` as `-(2^2)`; the code reads `(-2)^2`:
`AwkReadings.SignedPowerIff` says that those four tokens have no other tree. The lexer's header (`src/awk_lexer.h`) counts `$` among the tokens a division may
follow; the code does not. The array-parameter analysis is described as a fixed point and stops after eight
passes: `AwkArrayParams.CompleteIffEveryChainIsShort` says when that is enough, `AwkForwarders.LongChainsAreMissed`
when it is not. A getline that is piped into and also names a file reads over the file name and drops it, and the grammar says so.

## Model

| member | source | states |
|---|---|---|
| Diff.LcsIsLongest | src/diff_app.c:88-103 | no common subsequence of the two files is longer than the table's corner |
| Diff.LongestIsCommon | src/diff_app.c:88-103 | some common subsequence is exactly as long as the corner |
| Diff.LcsAttained | src/diff_app.c:93-103 | every cell is the length of a common subsequence of the two prefixes |
| Diff.LcsBounds | src/diff_app.c:93-103 | no common subsequence of two prefixes is longer than their cell |
| Diff.LcsNeighbours | src/diff_app.c:93-103 | neighbouring cells differ by at most one |
| Diff.ScriptIsOptimal | src/diff_app.c:105-130 | the backtracked script is valid, has exactly DP(n,m) kept lines, fits n+m operations, and no valid script has fewer edits |
| Diff.ScriptSteps | src/diff_app.c:112-130 | from any cell, every step of the script applies at the positions the steps before it leave |
| Diff.EqualsBounded | src/diff_app.c:93-130 | no valid script keeps more lines than the cell at its end |
| Diff.DeletesBeforeInserts | src/diff_app.c:112-130 | an insertion is never followed directly by a deletion |
| Diff.NoEditsIffSame | src/diff_app.c:112-130 | the script has no edit if and only if the files are the same |
| Diff.FillTable | src/diff_app.c:90-103 | the loops fill every cell with the recurrence's value |
| Diff.Backtrack | src/diff_app.c:110-130 | the loop writes the script backwards and never passes the end of a buffer of n+m |
| Diff.ReverseInPlace | src/diff_app.c:134-139 | swapping ends in place reverses the operations |
| Diff.ComputeEditScript | src/diff_app.c:88-142 | the operations returned are a valid script with the fewest edits of all |
| DiffHunks.PrintHunk | src/diff_app.c:144-177 | header positions, counts and lines of a hunk are those of its stretch of the script |
| DiffHunks.SidesOfBody | src/diff_app.c:144-177 | a hunk's old side and new side are the stretches of the two files it covers |
| DiffHunks.ZeroCountOnlyForEmptySide | src/diff_app.c:144-163 | a count of zero in a header occurs only when that whole file is empty |
| DiffHunks.HunkAround | src/diff_app.c:203-231 | a hunk starts with at most three lines of context and ends where it must |
| DiffHunks.EveryChangeInOneHunk | src/diff_app.c:198-234 | every change is in exactly one hunk |
| DiffHunks.RangesInOrder | src/diff_app.c:198-234 | hunks are in order and do not overlap |
| DiffHunks.PrintUnified | src/diff_app.c:181-236 | it reports a difference if and only if there is an edit; its hunks cover every change, in order, separated by kept lines |
| DiffHunks.OneHunkReaches | src/diff_app.c:144-177 | applying one hunk at its header position takes the old file to where the hunk ends in the new one |
| DiffHunks.HunksTurnOldIntoNew | src/diff_app.c:144-236 | applying the hunks at their header positions to the old file gives the new file |
| DiffHunks.MirrorIsValid | src/diff_app.c:144-236 | exchanging insertions and deletions gives a valid script the other way |
| DiffHunks.ReversedHunksTurnNewIntoOld | src/diff_app.c:144-236 | applying the reversed hunks to the new file gives the old file |
| DiffHunks.EveryPatchChanges | src/diff_app.c:88-236 | any hunks that patch one file into the other remove and add at least the lines that the two files do not have in common |
| DiffHunks.FewestChanges | src/diff_app.c:112-236 | the hunks of a shortest script remove and add no more lines than any hunks that turn the one file into the other |
| DiffHunks.HunkIsFramed | src/diff_app.c:203-231 | a hunk has three lines of context before its first change and behind its last, fewer only at an end of the files, and never seven in a row in between |
| DiffHunks.HunksApart | src/diff_app.c:198-234 | between two hunks at least one line of each file is not printed |
| DiffHunks.DiffFiles | src/diff_app.c:238-313 | the status is 0 exactly for equal files; the printed hunks patch both ways, remove and add no more lines than any hunks that patch the one file into the other, have their context cut where it should be, and lie apart |
| AwkArray.HashStr | src/awk_interp.c:35-39 | the loop computes the hash |
| AwkArray.AwkArray.KeyInBucket | src/awk_interp.c:35-89 | a key's entry is in the chain of its hash modulo the bucket count |
| AwkArray.AwkArray.Find | src/awk_interp.c:81-89 | it finds the entry of a key if and only if the map has the key |
| AwkArray.AwkArray.Clear | src/awk_interp.c:48-61 | the table is then the empty map |
| AwkArray.AwkArray.Rehash | src/awk_interp.c:63-79 | the bucket count doubles and no binding, entry or count changes |
| AwkArray.AwkArray.GetOrCreate | src/awk_interp.c:91-103 | an existing binding is left alone, a missing key becomes unset; the load stays within two entries a bucket |
| AwkArray.AwkArray.Delete | src/awk_interp.c:105-121 | exactly the key's binding goes, and the answer says whether there was one |
| AwkArray.AwkArray.Unlink | src/awk_interp.c:105-121 | taking a node out of its chain leaves every other chain and node linked |
| AwkArray.AwkArray.SnapshotKeys | src/awk_interp.c:1563-1573 | the keys copied before a for-in are all the keys, each once |
| AwkArray.KeysOfTable | src/awk_interp.c:1563-1573 | the chains hold every key of the map and no key twice |
| AwkArray.Step | src/awk_interp.c:48-121 | each operation answers as the finite map does |
| AwkArray.Run | src/awk_interp.c:48-121 | any sequence of operations gives the answers and the final state of a finite map |
| AwkFrames.SlotGetsArray | src/awk_interp.c:240-252 | a parameter slot that gets an array owns it, and nothing else does |
| AwkFrames.GlobalGetsArray | src/awk_interp.c:240-257 | a global that gets an array is its one owner |
| AwkFrames.FramePushed | src/awk_interp.c:1028-1070 | pushing a frame with aliased slots adds no owner and keeps the invariant |
| AwkFrames.FramePopped | src/awk_interp.c:1085-1112 | popping a frame keeps the invariant |
| AwkFrames.FreedArraysUnreachable | src/awk_interp.c:1085-1112 | nothing that stays reaches an array that popping frees |
| AwkFrames.CallKeeps | src/awk_interp.c:1022-1112 | a whole call leaves every older array with its owner and the frames as deep as before |
| AwkFrames.NothingLeaked | src/awk_interp.c:1085-1112 | with no frame left the arrays that exist are exactly the globals' |
| AwkFrames.ResolveKept | src/awk_interp.c:232-257 | a name that denotes an array keeps denoting it while arrays and frames come and go above it |
| AwkFrames.ResolveOwned | src/awk_interp.c:232-257 | the array a name denotes exists and is owned by a global or a frame that is still there |
| AwkFrames.ContentsChanged | src/awk_interp.c:48-121 | changing what an array holds changes no owner |
| AwkFrames.ScalarAssigned | src/awk_interp.c:267-278 | assigning a scalar changes no array and no owner |
| AwkFrames.Interp.FrameParamIndex | src/awk_interp.c:232-238 | the index found is the name's first position among the parameters, or -1 |
| AwkFrames.Interp.GetArrayFor | src/awk_interp.c:240-257 | the name then denotes the array returned; an existing one is returned unchanged |
| AwkFrames.Interp.GetScalar | src/awk_interp.c:259-265 | the value the name has; an unknown global is created unset |
| AwkFrames.AssignedSets | src/awk_interp.c:267-278 | an assignment sets the variable its name stands for and no other, of this frame, of the callers' or global |
| AwkFrames.OthersSetNone | src/awk_interp.c:240-265 | reading a name, and anything done with an array, sets no variable |
| AwkFrames.RunTakesOn | src/awk_interp.c:1022-1622 | after any run, with all the calls in it, a variable holds what was assigned to it last, and what it held before if nothing was |
| AwkFrames.Interp.SetScalar | src/awk_interp.c:267-278 | the name then has the value, every other variable what it had, and no array changes |
| AwkFrames.UpdateReads | src/awk_interp.c:48-121 | an assignment sets its own key, a reading adds its own key unset if it is missing, a deletion takes its own key away, clearing takes away all, and no other key changes |
| AwkFrames.UpdateIsStep | src/awk_interp.c:91-121 | each act is the operation of the hash table that the code calls for it, on the finite map the table stands for |
| AwkFrames.UpdatedReads | src/awk_interp.c:1191-1198 | every key of every name's array then reads what the act makes of it, if the name stands for the same array, and what it read before if not |
| AwkFrames.Interp.Update | src/awk_interp.c:1609-1620 | only the contents of the array that the name denotes change: each key of it reads as the act demands, and each key of every other array what it read before |
| AwkFrames.RunKeeps | src/awk_interp.c:1022-1622 | every run, with all the calls in it, keeps the ownership invariant, the frames of the callers as they are, and every array a variable already had |
| AwkFrames.RunGoes | src/awk_interp.c:1022-1622 | a run does to an array exactly what a finite map does under the operations that reach it, whatever names and calls they go through |
| AwkFrames.AssignedElementStays | src/awk_interp.c:1191-1198 | an element keeps what was assigned to it through any run, with all its calls, that does not assign, delete or clear it |
| AwkFrames.RunCallKeeps | src/awk_interp.c:1022-1112 | a call leaves the caller's variables as passing its arguments left them |
| AwkFrames.ArgumentPassed | src/awk_interp.c:1028-1070 | in the finished frame a bare name is an alias of what the caller's name stands for if that is an array, or untyped at a flagged parameter, and else its value; other arguments are values, missing ones unset |
| AwkFrames.CalleeSharesArray | src/awk_interp.c:1022-1112 | after a call the caller's name holds what the parameter held when the body ended |
| AwkFrames.WriteIsSeen | src/awk_interp.c:1022-1112 | an element the callee assigns last is there for the caller to read |
| AwkFrames.FlagDecides | src/awk_interp.c:1035-1070 | a caller's variable that is untyped when it is passed is an array after the call if and only if the parameter is flagged |
| AwkFrames.Interp.BuildFrame | src/awk_interp.c:1028-1070 | the frame and the state are those of passing the arguments from left to right; each slot is an alias or a value as its argument demands |
| AwkFrames.Interp.PassArgument | src/awk_interp.c:1035-1070 | a name that is an array, or untyped at a flagged parameter, gives an alias that owns nothing; any other name gives its value, any other argument its result |
| AwkFrames.Interp.CallUser | src/awk_interp.c:1022-1112 | the state after the call is that of passing, running the body and popping; the invariant and the frame depth are as before |
| AwkFrames.Interp.PopFrame | src/awk_interp.c:1085-1112 | the top frame goes with exactly the arrays it owns |
| AwkFrames.Interp.Exec | src/awk_interp.c:1499-1622 | the state after any run of array uses, assignments and nested calls is that of its acts one after the other, and keeps the ownership invariant; every array there was goes through the operations that reach it, and every variable holds what was assigned to it last |
| AwkArrayParams.UsesIffDirectWithin | src/awk_interp.c:1816-1847 | the walk answers yes if and only if some node of the body uses the name as an array |
| AwkArrayParams.ForwardsIffPasses | src/awk_interp.c:1855-1876 | the walk answers yes if and only if some call in the body passes the name alone for a flagged parameter |
| AwkArrayParams.SweptIffChain | src/awk_interp.c:1887-1899 | t passes flag exactly the parameters with a chain of forwarding calls to a direct use that needs at most t passes |
| AwkArrayParams.QuietPassIsLast | src/awk_interp.c:1887-1899 | after a pass that changes nothing no further pass changes anything |
| AwkArrayParams.FlagsAreSound | src/awk_interp.c:1878-1900 | only array parameters are flagged, and every one at most eight calls from a direct use is |
| AwkArrayParams.ChainStaysInClosed | src/awk_interp.c:1878-1900 | array parameters are in every set that holds the direct uses and is closed under forwarding |
| AwkArrayParams.ArrayParamIsClosed | src/awk_interp.c:1878-1900 | and they are such a set: the least fixed point |
| AwkArrayParams.CompleteIffEveryChainIsShort | src/awk_interp.c:1887-1899 | the analysis finds every array parameter if and only if each has a chain that needs at most eight passes |
| AwkArrayParams.NineParametersAreEnough | src/awk_interp.c:1887-1899 | a program with at most nine parameters is analysed completely |
| AwkForwarders.DefinitionTrees | src/awk_parser.c:819-890 | function f(a) { ff(a) } function ff(a) { fff(a) } and so on is a program of the grammar for any number of functions |
| AwkForwarders.LongChainsAreMissed | src/awk_interp.c:1887-1899 | in that program the first parameter is an array, and is flagged if and only if it is handed on through at most eight calls |
| AwkArrayParams.Analysis.NextIsDecided | src/awk_interp.c:1890-1897 | in the middle of a pass the walk decides what the pass is to decide |
| AwkArrayParams.Analysis.Pass | src/awk_interp.c:1889-1898 | one pass over all parameters takes the flags of t passes to those of t+1, and reports no change only if there is none |
| AwkArrayParams.Analysis.AnalyzeFunctionArrayParams | src/awk_interp.c:1878-1900 | the flags left are those of eight passes, also when it stops early |
| AwkFields.JoinOfCut | src/awk_interp.c:332-350 | joining the pieces between separators restores the line |
| AwkFields.CutOfJoin | src/awk_interp.c:332-350 | cutting a joined list of separator-free fields gives the list back |
| AwkFields.PiecesAreFree | src/awk_interp.c:332-350 | no piece holds a separator |
| AwkFields.BlankEndsWord | src/awk_interp.c:316-331 | with a blank FS a blank, a tab and a newline end a word, make no empty ones, and no other character does |
| AwkFields.MatchEndsField | src/awk_interp.c:363-386 | a match that is not empty ends a field; with none, or an empty one, what is left is one field |
| AwkFields.RegexSplitConserves | src/awk_interp.c:363-386 | splitting by a pattern loses nothing: fields and non-empty matches alternate to give the line |
| AwkFields.NextRun | src/awk_interp.c:316-331 | the next word is found where it starts and ends, as strtok_r finds a line |
| AwkFields.SplitWords | src/awk_interp.c:316-331 | a blank FS gives the pieces between blanks that are not empty |
| AwkFields.SplitAtCharacter | src/awk_interp.c:332-350 | a one-character FS gives the pieces between its occurrences |
| AwkFields.SplitByRegex | src/awk_interp.c:363-386 | a longer FS gives the text before each proper match of the matcher and what is left |
| AwkFields.SplitLineWithFS | src/awk_interp.c:312-388 | the four kinds of FS and a pattern that does not compile |
| AwkFields.CutAtBoth | src/awk_interp.c:396-412 | cutting at newlines and then at FS is cutting at both at once |
| AwkFields.ParagraphSplitsAtEither | src/awk_interp.c:392-420 | in a record read in paragraph mode the newline is one more field separator |
| AwkFields.ReadAfterWrite | src/awk_interp.c:444-481 | what any field reads after an assignment to it, to another field or to NF |
| AwkFields.RunKeepsRecordAndFields | src/awk_interp.c:438-481 | with FS and OFS one character other than the blank, every run keeps the record equal to the joined fields |
| AwkFields.SyncedSplitsBack | src/awk_interp.c:392-436 | re-splitting that record gives the fields back if and only if there is at least one |
| AwkFields.RunKeepsWords | src/awk_interp.c:438-481 | with the default separators every run keeps the record's words equal to the fields that are not empty |
| AwkFields.WordsSplitBack | src/awk_interp.c:392-436 | re-splitting then gives the fields back if and only if none is empty |
| AwkFields.JoinLength | src/awk_interp.c:422-436 | the size set aside for the record is the size written |
| AwkFields.FieldState.ResplitFields | src/awk_interp.c:392-420 | fields and NF are those of the record |
| AwkFields.FieldState.RebuildRecord | src/awk_interp.c:422-436 | the record is the fields joined by OFS |
| AwkFields.FieldState.SetRecord | src/awk_interp.c:438-442 | record, fields and NF after assigning $0 |
| AwkFields.FieldState.SetField | src/awk_interp.c:451-467 | record, fields and NF after assigning a field, also past the last and below zero |
| AwkFields.FieldState.SetNF | src/awk_interp.c:469-481 | record, fields and NF after assigning NF |
| AwkSub.QuotedIsLiteral | src/awk_interp.c:731-746 | every text can be given as a replacement by escaping & and backslash |
| AwkSub.AmpersandIsMatch | src/awk_interp.c:764-765 | an & anywhere between quoted text and whatever follows stands for the match |
| AwkSub.BackslashStays | src/awk_interp.c:766-767 | a backslash before any other character, or at the end, is kept |
| AwkSub.PiecesAroundMatch | src/awk_interp.c:764-768 | quoted pieces with & between them become the pieces with the match between them |
| AwkSub.TextBetweenPieces | src/awk_interp.c:724-781 | replacing by a quoted text puts it between the pieces of the target outside the matches |
| AwkSub.SpansInOrder | src/awk_interp.c:724-773 | the matches replaced are disjoint, from left to right, and sub has at most one |
| AwkSub.NothingIsLeftToMatch | src/awk_interp.c:724-773 | gsub stops only where nothing is left or the matcher finds nothing more |
| AwkSub.EverySpanIsAnAnswer | src/awk_interp.c:724-773 | every match replaced is the matcher's answer on all that is left behind the one before it, so none in between is passed over |
| AwkSub.SubIsFirstOfGsub | src/awk_interp.c:707-781 | sub replaces the first of the matches gsub replaces |
| AwkSub.AmpersandIsIdentity | src/awk_interp.c:764-768 | the replacement & leaves the target as it is |
| AwkSub.LengthIsConserved | src/awk_interp.c:707-781 | outside the matches nothing is lost or added |
| AwkSub.ExpandReplacement | src/awk_interp.c:764-768 | the replacement is expanded, with & for the match and escapes dropped: quoted pieces with & between them come out with the match between them |
| AwkSub.ReplaceNext | src/awk_interp.c:724-773 | one turn of the loop writes what it is to write and moves on, or ends with everything written |
| AwkSub.DoSub | src/awk_interp.c:707-781 | the result is the target with exactly the counted matches replaced; a pattern that does not compile leaves it |
| AwkRecords.BodyIsParagraph | src/awk_interp.c:1652-1682 | a text without blank lines is one record, and the first of what it begins |
| AwkRecords.PiecesConserve | src/awk_interp.c:1685-1701 | ending every record with RS gives the file back, up to a final RS |
| AwkRecords.PatternConserves | src/awk_interp.c:1702-1726 | records and matched separators alternate to give the file |
| AwkRecords.MatchEndsRecord | src/awk_interp.c:1702-1726 | the first place where a match that is not empty ends what is read ends the record; where there is none the record is all that is left |
| AwkRecords.RecordReader.SkipNewlines | src/awk_interp.c:1643-1649 | newlines are passed over and the next character is pushed back |
| AwkRecords.RecordReader.ReadParagraph | src/awk_interp.c:1631-1683 | the next maximal run of non-empty lines, without a newline at either end or doubled |
| AwkRecords.RecordReader.ReadToCharacter | src/awk_interp.c:1685-1701 | the text before the next RS character |
| AwkRecords.RecordReader.ReadToMatch | src/awk_interp.c:1702-1726 | the text before the first proper match that ends where the reading stands |
| AwkRecords.RecordReader.ReadRecord | src/awk_interp.c:1628-1727 | the first record of what is left, by the kind of RS, or none when there is none |
| AwkRecords.RecordReader.ReadAll | src/awk_interp.c:1774-1803 | reading until there is none gives the records of the file in order |
| AwkLexer.LexMovesOn | src/awk_lexer.c:112-397 | the lexer moves on with every token and stands still only at the end; one byte past the end at most |
| AwkLexer.NewlineTokens | src/awk_lexer.c:60-77 | a newline token comes exactly from a newline that context, comment and continuation leave, never inside brackets and never twice in a row |
| AwkLexer.CommentEndsWithLine | src/awk_lexer.c:134-137 | a comment goes on to the end of its line, and the newline there is no part of it |
| AwkLexer.QuotedStringIsRead | src/awk_lexer.c:229-274 | the literal that escapes any NUL-free text lexes to one string token with that text, and lexing stops behind the quote |
| AwkLexer.QuotedCharIsRead | src/awk_lexer.c:233-267 | every character survives being written as itself, a letter escape or three octal digits |
| AwkLexer.Lexer.SkipBlanks | src/awk_lexer.c:116-145 | blanks, comments and continuations are passed over; a significant newline is seen if and only if there is one |
| AwkLexer.Lexer.ScanWord | src/awk_lexer.c:161-190 | keyword, builtin, call or name, with the whole word as text |
| AwkLexer.Lexer.ScanNumber | src/awk_lexer.c:193-226 | the longest number at the position |
| AwkLexer.Lexer.ScanEscape | src/awk_lexer.c:235-264 | one escape, with up to three octal digits |
| AwkLexer.Lexer.ScanString | src/awk_lexer.c:229-274 | the string token of the literal at the position |
| AwkLexer.Lexer.ScanEre | src/awk_lexer.c:278-317 | the pattern token at the position, brackets and escapes kept |
| AwkLexer.Lexer.ScanOperator | src/awk_lexer.c:319-397 | the longest operator, with the depth of parentheses and brackets |
| AwkLexer.Lexer.Next | src/awk_lexer.c:112-397 | one token and the state after it, for every state |
| AwkSpelling.WordIsRead | src/awk_lexer.c:161-190 | a word written alone, or touching a parenthesis, is read as the keyword, builtin, call or name it is |
| AwkSpelling.KeywordIsRead | src/awk_lexer.c:18-33 | every keyword, spelled as the language spells it, is read as its token |
| AwkSpelling.MarkIsRead | src/awk_lexer.c:319-397 | every operator and punctuation mark, spelled as the language spells it, is read as its token, a slash only where it divides |
| AwkSpelling.NumberIsRead | src/awk_lexer.c:193-226 | a number is read up to the blank behind it, wherever it stands |
| AwkSpelling.EreIsRead | src/awk_lexer.c:278-317 | a pattern between slashes is read as it is where a slash does not divide |
| AwkSpelling.TokenIsRead | src/awk_lexer.c:112-397 | every token that can be written is read back as it was, with the state after it |
| AwkSpelling.BlankIsSkipped | src/awk_lexer.c:127-130 | a blank between tokens changes nothing |
| AwkSpelling.LineEndIsRead | src/awk_lexer.c:137-156 | a newline where a line can end is a token of its own, and the line is counted |
| AwkSpelling.RenderIsRead | src/awk_lexer.c:112-397 | every list of tokens that can be written, with line ends among them, is read back as it was, from any place in a text |
| AwkSpelling.WrittenTextIsRead | src/awk_lexer.c:112-397 | lexing a written token list, line ends among them, gives the list |
| AwkReadings.ExprShape | src/awk_parser.c:119-561 | an expression begins with a token that can begin one and ends with one that can end one, its parentheses match, and what is printed holds a > only inside them |
| AwkReadings.GreaterIsSheltered | src/awk_parser.c:415-430 | at any > in a printed expression more parentheses have been opened than closed |
| AwkReadings.PrintedGreaterIff | src/awk_parser.c:565-611 | the tokens print x > y stand for writing x to y and for no other statement |
| AwkReadings.SignedPowerIff | src/awk_parser.c:190-196 | the tokens - x ^ y stand for the power of the negated x and for no other expression |
| AwkTrees.PipeTree | src/awk_parser.c:432-448 | the node of a command piped into getline can be walked and stands for the command, the getline, and a file name that is read over and not kept |
| AwkTrees.InTree | src/awk_parser.c:464-487 | the node of a membership can be walked and stands for its subscripts, with parentheses around a list of them, the keyword and the array |
| AwkParser.Parser.Advance | src/awk_parser.c:39-42 | one token is taken; the measure goes down unless the text has ended, and nothing is lost between taken and ahead |
| AwkParser.Parser.Accept | src/awk_parser.c:53-56 | the token is taken if and only if it is there |
| AwkParser.Parser.Need | src/awk_parser.c:58-66 | the token is taken, or the error is noted and nothing is taken |
| AwkParser.Parser.SkipTerms | src/awk_parser.c:68-70 | newlines and semicolons are passed over |
| AwkParser.Parser.ParseLvalueForGetline | src/awk_parser.c:101-132 | it ends, restores the print context, without an error returns a tree of its level for exactly the tokens it has taken, and of a tree that is printed ahead returns just that tree: what getline reads into |
| AwkParser.Parser.ParseGetline | src/awk_parser.c:134-146 | it ends, restores the print context, without an error returns a tree of its level for exactly the tokens it has taken, and of a tree that is printed ahead returns just that tree: a getline from the input or a file |
| AwkParser.Parser.ParsePrimary | src/awk_parser.c:148-315 | it ends, restores the print context, without an error returns a tree of its level for exactly the tokens it has taken, and of a tree that is printed ahead returns just that tree: a primary |
| AwkParser.Parser.ParsePostfix | src/awk_parser.c:317-339 | it ends, restores the print context, without an error returns a tree of its level for exactly the tokens it has taken, and of a tree that is printed ahead returns just that tree: a primary with increments behind it |
| AwkParser.Parser.ParsePower | src/awk_parser.c:341-351 | it ends, restores the print context, without an error returns a tree of its level for exactly the tokens it has taken, and of a tree that is printed ahead returns just that tree: a power |
| AwkParser.Parser.ParseUnary | src/awk_parser.c:353-359 | it ends, restores the print context, without an error returns a tree of its level for exactly the tokens it has taken, and of a tree that is printed ahead returns just that tree: the same as a power |
| AwkParser.Parser.ParseMultiplicative | src/awk_parser.c:361-374 | it ends, restores the print context, without an error returns a tree of its level for exactly the tokens it has taken, and of a tree that is printed ahead returns just that tree: a product |
| AwkParser.Parser.ParseAdditive | src/awk_parser.c:376-389 | it ends, restores the print context, without an error returns a tree of its level for exactly the tokens it has taken, and of a tree that is printed ahead returns just that tree: a sum |
| AwkParser.Parser.ParseConcat | src/awk_parser.c:404-413 | it ends, restores the print context, without an error returns a tree of its level for exactly the tokens it has taken, and of a tree that is printed ahead returns just that tree: a concatenation |
| AwkParser.Parser.ParseRelational | src/awk_parser.c:415-430 | it ends, restores the print context, without an error returns a tree of its level for exactly the tokens it has taken, and of a tree that is printed ahead returns just that tree: a comparison |
| AwkParser.Parser.ParsePipeGetline | src/awk_parser.c:432-448 | it ends, restores the print context, without an error returns a tree of its level for exactly the tokens it has taken, and of a tree that is printed ahead returns just that tree: commands piped into getline |
| AwkParser.Parser.ParseMatch | src/awk_parser.c:450-462 | it ends, restores the print context, without an error returns a tree of its level for exactly the tokens it has taken, and of a tree that is printed ahead returns just that tree: a match |
| AwkParser.Parser.ParseIn | src/awk_parser.c:464-487 | it ends, restores the print context, without an error returns a tree of its level for exactly the tokens it has taken, and of a tree that is printed ahead returns just that tree: membership |
| AwkParser.Parser.ParseAnd | src/awk_parser.c:489-500 | it ends, restores the print context, without an error returns a tree of its level for exactly the tokens it has taken, and of a tree that is printed ahead returns just that tree: a conjunction |
| AwkParser.Parser.ParseOr | src/awk_parser.c:502-513 | it ends, restores the print context, without an error returns a tree of its level for exactly the tokens it has taken, and of a tree that is printed ahead returns just that tree: a disjunction |
| AwkParser.Parser.ParseTernary | src/awk_parser.c:515-529 | it ends, restores the print context, without an error returns a tree of its level for exactly the tokens it has taken, and of a tree that is printed ahead returns just that tree: a conditional |
| AwkParser.Parser.ParseExpr | src/awk_parser.c:548-561 | it ends, restores the print context, without an error returns a tree of its level for exactly the tokens it has taken, and of a tree that is printed ahead returns just that tree: an expression |
| AwkParser.Parser.ParseExprListPrintCtx | src/awk_parser.c:565-592 | it ends and without an error returns a tree for exactly the tokens it has taken, and where the tokens printed for a tree are ahead returns just that tree: the items of print |
| AwkParser.Parser.ParsePrintLike | src/awk_parser.c:594-611 | it ends and without an error returns a tree for exactly the tokens it has taken, and where the tokens printed for a tree are ahead returns just that tree: print and printf |
| AwkParser.Parser.ParseBlock | src/awk_parser.c:613-622 | it ends and without an error returns a tree for exactly the tokens it has taken, and where the tokens printed for a tree are ahead returns just that tree: a block |
| AwkParser.Parser.ParseSimpleStatement | src/awk_parser.c:624-662 | it ends and without an error returns a tree for exactly the tokens it has taken, and where the tokens printed for a tree are ahead returns just that tree: print, delete or an expression |
| AwkParser.Parser.ParseStatement | src/awk_parser.c:664-784 | it ends and without an error returns a tree for exactly the tokens it has taken, and where the tokens printed for a tree are ahead returns just that tree: a statement |
| AwkParser.Parser.ParseIf | src/awk_parser.c:669-696 | it ends and without an error returns a tree for exactly the tokens it has taken, and where the tokens printed for a tree are ahead returns just that tree: if |
| AwkParser.Parser.ParseWhile | src/awk_parser.c:697-706 | it ends and without an error returns a tree for exactly the tokens it has taken, and where the tokens printed for a tree are ahead returns just that tree: while |
| AwkParser.Parser.ParseDo | src/awk_parser.c:707-719 | it ends and without an error returns a tree for exactly the tokens it has taken, and where the tokens printed for a tree are ahead returns just that tree: do |
| AwkParser.Parser.ParseFor | src/awk_parser.c:720-760 | it ends and without an error returns a tree for exactly the tokens it has taken, and where the tokens printed for a tree are ahead returns just that tree: for and for-in, told apart with a copy of the lexer |
| AwkParser.Parser.ParseForIn | src/awk_parser.c:723-744 | it ends and without an error returns a tree for exactly the tokens it has taken, and where the tokens printed for a tree are ahead returns just that tree: for-in |
| AwkParser.Parser.ParseJump | src/awk_parser.c:761-777 | it ends and without an error returns a tree for exactly the tokens it has taken, and where the tokens printed for a tree are ahead returns just that tree: break, continue, next, nextfile, exit and return |
| AwkParser.Parser.ParseStatementListUntil | src/awk_parser.c:786-798 | it ends and without an error returns a tree for exactly the tokens it has taken, and where the tokens printed for a tree are ahead returns just that tree: statements up to a token |
| AwkParser.Parser.ParseRedirect | src/awk_parser.c:600-609 | where print writes to, and of a printed redirection just that one |
| AwkParser.Parser.ParseElse | src/awk_parser.c:679-690 | an else and its statement, if it is there |
| AwkParser.Parser.ParseValue | src/awk_parser.c:762-777 | the value of exit or return: where the tokens printed for one are ahead it is taken, and where there is none nothing is |
| AwkListing.StatementStarts | src/awk_parser.c:664-784 | the first token of a printed statement tells its kind |
| AwkListing.PrintedBack | src/awk_parser.c:565-592 | the items of print come back from what is read, whether they were written bare or in one pair of parentheses |
| AwkListing.SecondIsNotIn | src/awk_parser.c:723-727 | a name that begins a printed expression has no in behind it, so a loop of three parts is not taken for a for-in |
| AwkParser.Parser.ParsePattern | src/awk_parser.c:802-817 | the pattern of a rule, for exactly the tokens taken; of a printed pattern just that one |
| AwkParser.Parser.ParseRule | src/awk_parser.c:862-880 | a rule, for exactly the tokens taken; of a printed rule just that one |
| AwkParser.Parser.ParseFunctionDef | src/awk_parser.c:819-847 | a function definition, for exactly the tokens taken; of a printed definition just that one |
| AwkParser.Parser.ParseParameters | src/awk_parser.c:829-841 | the names between the parentheses, for exactly the tokens taken; of printed names just those |
| AwkParser.Parser.ParseItems | src/awk_parser.c:849-882 | rules and functions up to the end of the text; of a printed program just its items |
| AwkParser.Parser.LookAhead | src/awk_parser.c:436-439 | a copy of the lexer tells the next token and leaves the parser as it is |
| AwkParser.ParseProgram | src/awk_parser.c:849-890 | parsing ends on every text; a program it accepts stands for exactly the tokens of the text and every node has the parts the interpreter follows; where the tokens are those printed for a program, with semicolons or with line ends, just that program comes out |
| AwkPrinter.SpineLoops | src/awk_parser.c:361-513 | where a left-associative operator was printed the parser's loop goes on, and stops behind the last |
| AwkPrinter.SpineEnd | src/awk_parser.c:361-513 | the loop's first operand is the innermost left one, and what stands behind it is the rest of the printed tree |
| AwkPrinter.ShowStarts | src/awk_parser.c:148-315 | the first token of a printed tree tells which primary begins it |
| AwkDressing.DressedFits | src/awk_parser.c:148-561 | every expression, with parentheses put where its operands need them, is a tree the parser gives back, and is the same but for those parentheses |
| AwkRoundTrip.WrittenIsLexed | src/awk_lexer.c:112-397 | the text written for a program, on one line or with its line ends, is lexed to its tokens, line ends included |
| AwkRoundTrip.ParseWritten | src/awk_parser.c:594-890 | parsing the text written for a program, with its rules, definitions and all their statements, on one line with semicolons or with line ends behind statements, patterns, closing parentheses and assignment signs and before colons, gives that program back |
| AwkRoundTrip.ParseDressed | src/awk_parser.c:849-890 | for every expression whose tokens can be written, writing it with the parentheses it needs and parsing gives it back, the same but for those parentheses |
| AwkParser.LexIsShaped | src/awk_lexer.c:112-397 | names, calls and literals carry their text, numbers their digits, other tokens nothing |
| AwkParser.CollectFunctions | src/awk_interp.c:1902-1917 | the functions of a program in order, with bodies the analysis can walk |
| AwkParser.Parser.ParseNextItem | src/awk_parser.c:857-881 | a rule or a function and the separators behind it; a rule or a definition asked for comes out |
| AwkParser.AnalyzeProgram | src/awk_interp.c:1902-1917 | from any text that parses the analysis runs over just the functions of the program, in order, and leaves the flags of eight passes |
| Expr.FormatRoundTrip | src/expr_app.c:42-69 | reading back a printed 64-bit number gives the number |
| Expr.ParsePrinted | src/expr_app.c:118-323 | reading a printed tree at its level consumes its tokens and gives its value, with an error if and only if evaluation fails |
| Expr.CommandUndoesPrint | src/expr_app.c:325-346 | the command prints the value of every printed tree, with the exit status of that value, and fails if and only if evaluation fails |
| Expr.ArithmeticThroughText | src/expr_app.c:200-256 | evaluation through text agrees with integer arithmetic wherever that stays in range |
| Expr.DivisionTruncates | src/expr_app.c:218-227 | the quotient is cut off toward zero: the remainder is smaller than the divisor and has the sign of the dividend |
| Expr.WrapIsCongruent | src/expr_app.c:200-256 | a result that leaves 64 bits differs by a multiple of the range |
| Expr.FirstOfIs | src/expr_app.c:140-151 | index gives the first position, from 1, of one of the characters, and 0 if and only if there is none |
| Expr.SubstrIs | src/expr_app.c:152-176 | substr gives the characters from the start on, as many as are asked for and there are, and none for a start below 1 or a negative length |
| Expr.MatchGives | src/expr_app.c:75-114 | a match gives its first group or its length, no match an empty text or 0, and a bad pattern is an error, for match and for the colon |
| Expr.IntegersCompare | src/expr_app.c:258-292 | each of the seven comparisons of two integers answers 1 or 0 as the relation of the numbers holds or not |
| Expr.TextsCompare | src/expr_app.c:258-292 | where not both operands are integers, each comparison answers by the first character that differs |
| Expr.CommandCompares | src/expr_app.c:258-346 | the command on two printed numbers and <, <= or = prints 1 with status 0, or 0 with status 1 |
| Expr.FalseTexts | src/expr_app.c:42-59 | false are the empty text and blanks, at most one sign and then zeros only |
| Expr.EitherAndBoth | src/expr_app.c:294-323 | the value of an or is its left operand unless that is false, then the right one; of an and the left one unless either is false, then 0 |
| Expr.StatusOfValue | src/expr_app.c:325-346 | the status of a printed value is 1 if and only if it is false |
| Expr.ExprParser.ParsePrimary | src/expr_app.c:118-185 | cursor, error flag and value are those of the grammar's primary level |
| Expr.ExprParser.ParseColon | src/expr_app.c:187-198 | cursor, error flag and value are those of the grammar's match level |
| Expr.ExprParser.ParseMul | src/expr_app.c:200-233 | cursor, error flag and value are those of the grammar's product level |
| Expr.ExprParser.ParseAdd | src/expr_app.c:235-256 | cursor, error flag and value are those of the grammar's sum level |
| Expr.ExprParser.ParseCompare | src/expr_app.c:258-292 | cursor, error flag and value are those of the grammar's comparison level |
| Expr.ExprParser.ParseAnd | src/expr_app.c:294-308 | cursor, error flag and value are those of the grammar's conjunction level |
| Expr.ExprParser.ParseOr | src/expr_app.c:310-323 | cursor, error flag and value are those of the grammar's disjunction level |
| Expr.RunExpr | src/expr_app.c:325-346 | the command's answer, for every argument list |
| Fmt.GreedyIsLayout | src/fmt_app.c:30-48 | the layout keeps the words in order and passes the width only on lines of one word |
| Fmt.GreedyStaysAhead | src/fmt_app.c:30-48 | after any number of words no layout has fewer lines, or as few with a shorter last one |
| Fmt.GreedyIsOptimal | src/fmt_app.c:30-48 | no layout of the words uses fewer lines |
| Fmt.FormatKeepsWords | src/fmt_app.c:50-98 | the words of the output are the words of the input, in order |
| Fmt.ParagraphsApart | src/fmt_app.c:50-98 | the lines up to a blank one are set as one paragraph, and the blank one stays as an empty line |
| Fmt.IdempotentIffNothingHidden | src/fmt_app.c:50-98 | at a given width, formatting formatted text changes nothing if and only if no line of it looks blank and holds something |
| Fmt.IdempotentIffVisible | src/fmt_app.c:50-98 | formatting formatted text changes nothing at any width if and only if no word of the input is white space to isspace alone |
| Fmt.Formatter.FlushParagraph | src/fmt_app.c:30-48 | the column loop writes the greedy layout |
| Fmt.Formatter.FmtStream | src/fmt_app.c:50-104 | the whole output for the whole input |
| Lines.LinesOfUnlines | src/fmt_app.c:57-66 | cutting newline-terminated lines gives the lines |
| Lines.LineReader.GetLine | src/fmt_app.c:57-66 | the next line without its newline, or none at the end |
| Comm.ColumnsRestoreFiles | src/comm_app.c:70-96 | for any inputs columns 1 and 3 in order are file 1, and 2 and 3 are file 2 |
| Comm.ColumnsAreMultisetDifferences | src/comm_app.c:70-96 | for sorted inputs the columns are the multiset differences and the intersection |
| Comm.MergeIsSorted | src/comm_app.c:70-96 | for sorted inputs the lines come out sorted |
| Comm.OutputTellsColumns | src/comm_app.c:70-96 | the tabs in front of a line tell its column, for lines without leading tabs |
| Comm.MergeStreams | src/comm_app.c:48-96 | the two-cursor loop writes the merge, each suppress flag removing exactly its column |
| Comm.NextLine | src/comm_app.c:18-27 | the next line, or none at the end |
| Strings.StrCmpZero | src/comm_app.c:73-76 | comparison is zero exactly for equal lines |
| Strings.StrCmpAntisymmetric | src/comm_app.c:73-76 | exchanging the lines exchanges the sign |
| Strings.StrCmpTransitive | src/comm_app.c:73-76 | comparison is transitive |
| Strings.StrCmpOrders | src/comm_app.c:73-76 | a line sorts before another if and only if it has the smaller character at the first place where they differ, or ends there |
| Cmp.DifferencesExact | src/cmp_app.c:60-85 | the listed differences are exactly the differing bytes, in order, each once |
| Cmp.FirstDifference | src/cmp_app.c:60-85 | before the first listed offset the files agree, and there they differ |
| Cmp.StatusZeroIffSame | src/cmp_app.c:36-109 | the status is 0 if and only if the files are the same |
| Cmp.OffsetsFit | src/cmp_app.c:19-34 | every offset listed fits the column width computed from the sizes |
| Cmp.OffsetWidth | src/cmp_app.c:19-34 | the width is the number of digits of the smaller known size, or of the largest offset when no size is known |
| Cmp.Compare | src/cmp_app.c:36-109 | the answer is that of a bytewise comparison, however the reads are cut into chunks |
| Cmp.CompareBuffered | src/cmp_app.c:60-85 | the inner loop compares what both buffers hold |
| Cmp.Refill | src/cmp_app.c:48-58 | a buffer is filled again only when it is used up, and is empty only at the end of the file |
| Base64.DecodeUndoesEncode | src/base64_app.c:29-96 | decoding what was encoded gives the bytes back, for every wrap column and with or without ignoring garbage |
| Base64.EncodedShape | src/base64_app.c:29-55 | 4*ceil(n/3) symbols, in lines of exactly the wrap column except a last one that is not empty (section 4 of RFC 4648) |
| Base64.SymbolsDecode | src/base64_app.c:57-96 | unwrapped symbols decode to the bytes |
| Base64.WhitespaceIgnored | src/base64_app.c:57-96 | white space never changes what is decoded |
| Base64.DecoderAccepts | src/base64_app.c:57-96 | the status is 0 if and only if nothing before the padding is outside the alphabet, or garbage is ignored, and the symbols do not leave one over |
| Base64.Encode | src/base64_app.c:29-55 | the loop writes the wrapped encoding |
| Base64.Decode | src/base64_app.c:57-96 | the loop writes the decoding |
| Base64.DecodeCharIff | src/base64_app.c:20-27 | a character has the value v if and only if it is the alphabet's symbol for v |
| Base64.AlphabetIs | src/base64_app.c:17-18 | the alphabet is that of Table 1 of RFC 4648: capitals, small letters and digits in code order, then + and / |
| OptionKeys.MapIsInjective | src/micro_app.c:1492-1528 | no two characters give the same key, and none is ASCII |
| OptionKeys.DecodeUndoesEncode | src/micro_app.c:1530-1563 | decoding undoes the encoding of section 3 of RFC 3629 for every code point |
| OptionKeys.CutConserves | src/micro_app.c:1588-1646 | segments and pending bytes are the input, with at most three bytes pending |
| OptionKeys.CompleteSegmentsDecode | src/micro_app.c:1588-1646 | every completed sequence has the shape of RFC 3629 and decodes |
| OptionKeys.UnmappedIsIdentity | src/micro_app.c:1588-1646 | without a mapped sequence the output is the input |
| OptionKeys.TextIsTranslated | src/micro_app.c:1588-1646 | well-formed text is translated character by character and nothing stays pending |
| OptionKeys.OneMoreByte | src/micro_app.c:1588-1646 | one more byte concerns only the pending bytes |
| OptionKeys.AdvanceIsCut | src/micro_app.c:1588-1646 | the state machine's step is the next cut of the stream |
| OptionKeys.Utf8State.Reset | src/micro_app.c:1580-1586 | nothing is pending |
| OptionKeys.Utf8State.TranslateByte | src/micro_app.c:1588-1646 | pending bytes and output after one byte; never more than four bytes are written |
| OptionKeys.TranslateStream | src/micro_app.c:1764-1794 | the whole output with the final flush, identical to the input when nothing is mapped |

## Left out

- Regular expressions: compiling and matching; every theorem holds for any matcher that answers inside the text.
- AwkParser.ParseProgram: does not say that every sentence of the grammar is accepted. What it accepts is a sentence with that tree, and which tree comes out is said for the printed form of every program.
- AwkRoundTrip.ParseWritten: a program is printed in one of two layouts, with semicolons or with line ends, not in a mixture; a newline right behind a comma, `else` or `do`, or inside parentheses, never reaches the parser. An empty statement is printed as an empty block. A builtin is printed with its parentheses. That the tokens can be written is a condition: a pattern, for one, cannot follow what a division may follow.
- AwkRoundTrip.ParseDressed: parentheses are put in for expressions; a statement is printed as it is, so the expressions in a program, and the branch before an else, are to have the parentheses or braces they need.
- AwkParser.Parser.ParseForIn: a for-in over something that is not a name passes a null text to strdup in C after the error is noted; the model carries the missing text, and no program comes out.
- AwkLexer.Lexer.ScanNumber: keeps the spelling of a number; its value (strtod) is not part of the model. Words are ASCII, as in the C locale.
- AwkLexer.Lexer.Next: an unrecognised character is reported as the end of the text, as in C, so a program may end there; LexAll ends there too.
- AwkSpelling.RenderIsRead: tokens are written with a blank behind each and one newline for a line end, so blank lines, comments, continuations, and marks that touch are not written.
- AwkFrames.Interp.Exec: runs over lists of array uses, assignments and calls, not over the syntax tree; values, loops and conditions are left open; frames and arrays are values with identities, so freeing is modelled as dropping an identity, and a new array gets the first identity not in use.
- AwkArray.AwkArray.Clear: freed nodes are dropped, not handed back to an allocator; running out of memory is not modelled anywhere.
- AwkFields.RunKeepsRecordAndFields: is for fixed FS and OFS; changing them between operations, and setting NF from the command line, are not part of the runs. Values assigned to single fields must not hold the separator.
- AwkFields.SyncedSplitsBack: an empty record under a one-character FS has one empty field, as in the code.
- AwkSub.NothingIsLeftToMatch: an empty pattern is not matched at the end of the target, and nothing is replaced in an empty target, as in the code.
- Expr.CommandUndoesPrint: leaves are not `(`, `length`, `index`, `substr` or `match`; arithmetic outside 64 bits, undefined in C, wraps in the model, and so does the quotient of the least number by -1, which traps.
- DiffHunks.DiffFiles: works on lists of lines; reading files, and whether a last line ends in a newline, which the code records and does not use, are left out. For two empty files the code asks malloc for no bytes and reports a failure if it answers null; the model takes the answer to be a pointer.
- Comm.MergeStreams: the two inputs are different streams, so `comm - -` is left out; a line with a NUL byte is left out.
- Fmt.Formatter.FmtStream: requires the words list to be empty at the start; reading arguments and files is left out.
- Cmp.Compare: messages are data, not text; offsets are below 2^63.
- OptionKeys.TranslateStream: terminals, threads and the environment switch around the translator are left out.
- awk numbers: floating point, printf formats, mathematics and random numbers, and comparison of mixed values.
- awk subscripts past 512 bytes, streams, pipes, redirection, and exit or next inside a user function.
- Easy neighbours of the above: `fold`, `dd`, awk's substr, option parsing.
- `git`, `gzip`, checksums, `chown`, `chroot`, `dvtm` and the integration code: mostly other libraries or system calls.
