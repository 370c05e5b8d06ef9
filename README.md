# LINE transcript parser, modelled in Dafny

This project models the core of a LINE chat-history converter. The converter turns a LINE
"talk history" text export into line-delimited JSON records. The core is the `LineParser`
class in `main.py`. Its state machine reads one line at a time and keeps the current date
header and at most one message that is still collecting continuation lines ("in flight").
When the next message start, the next date header or the end of input arrives, it writes the
in-flight message, or counts it as excluded when its body is only the image placeholder
`画像` ("image").

Modules:

- `Wrappers` (`wrappers.dfy`): the `Option` type.
- `PyStr` (`pystr.dfy`): the Python string built-ins the parser relies on.
  - `str.isspace` uses CPython's exact whitespace set, which is also what `\s`, `strip()`
    and `split()` test.
  - `\d` is also modelled here.
  - `strip()` and `split(None, 1)` are index-based scanners, and each scanner has a
    characterisation lemma.
  - `find` is a recursive search whose contract pins the first occurrence. `in` and
    `startswith` are predicates.
- `Patterns` (`patterns.dfy`): `DATE_PATTERN` and `MESSAGE_PATTERN`, written out as
  functions. Each function gives the match condition and the exact group boundaries that the
  greedy `\s+` settles on.
- `Rules` (`rules.dfy`): the record, the constants `SYSTEM_ACTIONS`, `NON_USERNAME_KEYWORDS`
  and `画像`, and the three per-line decisions:
  - `_is_valid_message_line`
  - `_should_exclude_message`
  - `_split_user_message`
- `Parser` (`parser.dfy`): the state machine.
  - The pure function `Step` says what one line does, `Run` what the loop does, and `Parse`
    what `parse_file` does on a fresh parser.
  - The class `LineParser` has the source's four fields plus `written`, every record the
    object has written, over all its calls of `parse_file`. Each call opens its output
    with mode `"w"` (`main.py:124-126`), so for a reused object the file holds only the
    records of the last call, which are the tail of `written`. Its methods `Feed` (one loop iteration) and `ParseFile` (the loop
    plus the end-of-input flush) are proved to change the object exactly as `Step` and
    `Run` say.
- `ParserProperties` (`properties.dfy`): whole-transcript guarantees.
  - Conservation of message starts.
  - No written record is a placeholder.
  - Blank lines are irrelevant.
  - Continuation lines fold into the body.
  - Records inherit the date of the last header.
  - The flush leaves the record in its slot.
- `Scenarios` (`scenarios.dfy`): concrete lines and a short transcript worked through the
  model.
- `Driver` (`driver.dfy`): what `main` does with one file: a fresh parser, `parse_file`,
  then the two counts.

Two behaviours of `main.py` are worth knowing before reading the model:

- **Date headers.** `DATE_PATTERN` (`main.py:17`) accepts only headers that end in `曜日`.
  - `Scenarios.EnglishWeekdayIsNoHeader` proves that `2030.01.01 Wednesday` is an ordinary
    continuation line.
  - `Scenarios.ShortTranscript` proves the outcome of a transcript whose header is
    `2030.01.01 水曜日`.
  - The day group is not a single token: it is everything after the whitespace run, up to
    and including `曜日`.
- **Clearing the slot.** Only a date header clears the in-flight slot (`main.py:147`). A
  message start overwrites it (`main.py:175`). The end-of-input flush (`main.py:199-206`)
  leaves the record in place.

  The model keeps this distinction: `Settle` flushes without clearing and `Finalize`
  flushes and clears. `ParserProperties.FlushRetainsRecord` shows the consequence: a parser
  reused for a second input writes the last record again. `main.py:241` creates a fresh
  parser per file, which `Driver.ParseTranscript` models.

## Model

| member | source | states |
|---|---|---|
| PyStr.IsSpace | main.py:17-20 | the characters `\s`, `str.isspace`, `strip()` and `split()` treat as whitespace: CPython's whitespace set, written out range by range |
| PyStr.IsDigit | main.py:17-20 | the characters `\d` accepts, narrowed to ASCII and full-width decimal digits |
| PyStr.SkipSpace | main.py:107 | the end of the whitespace run from an index: every skipped character is whitespace, and the next one is not |
| PyStr.SkipToken | main.py:64 | the end of the token from an index: no skipped character is whitespace, and the next one is |
| PyStr.SkipSpaceBack | main.py:85 | the start of the trailing whitespace run before an index |
| PyStr.Strip | main.py:85 | `strip()` is empty exactly when the text is all whitespace; otherwise it is the slice between the leading and trailing whitespace, and both its ends are non-whitespace |
| PyStr.StripBetween | main.py:85 | any slice with whitespace on both sides and non-whitespace ends is what `strip()` returns |
| PyStr.SplitOnce | main.py:107-114 | `split(None, 1)`: at most two parts; none exactly when the text is all whitespace; otherwise the first token and, when anything follows the gap, a non-empty remainder starting with non-whitespace |
| PyStr.SplitOnceAt | main.py:107-114 | given where the token starts and ends and where the remainder starts, `split(None, 1)` is the token alone when only whitespace follows, and the token and the remainder otherwise |
| PyStr.FirstGapSplitIsSplitOnce | main.py:107 | the token/remainder decomposition is unique, and it is what `split(None, 1)` returns |
| PyStr.FindFrom | main.py:101 | `find` from an index: the first occurrence at or after it, or none at all |
| PyStr.Find | main.py:99-101 | `find` succeeds exactly when `in` holds, and returns the first occurrence |
| PyStr.SkipSpaceIs | main.py:107 | a whitespace run that ends at non-whitespace is the one the scanner finds |
| PyStr.SkipTokenIs | main.py:64 | a token that ends at whitespace is the one the scanner finds |
| PyStr.SkipSpaceBackIs | main.py:85 | a trailing whitespace run is the one the backward scanner finds |
| PyStr.StartsWith | main.py:68 | `word.startswith(prefix)`: the prefix fits and the word begins with it |
| PyStr.Occurs | main.py:99 | `action in text`: the phrase occurs at some index; `PyStr.Find` proves it holds exactly when `find` succeeds |
| Patterns.MatchDate | main.py:17 | `DATE_PATTERN` matches exactly when the line is ten date characters, whitespace, at least one more character, then `曜日`; group 1 is the date and group 2 is what follows the greedy whitespace run, which keeps at least three characters and ends in `曜日` |
| Patterns.GroupStart | main.py:17-20 | where a greedy `\s+` stops: past at least one whitespace character, only over whitespace, and at the first non-whitespace character unless the characters the rest of the pattern needs would run out |
| Patterns.GroupStartIsGreedy | main.py:17-20 | the group that starts there is the one the greedy whitespace run leaves: everything after a maximal whitespace run that still leaves enough characters for the rest of the pattern |
| Patterns.MatchMessage | main.py:20 | `MESSAGE_PATTERN` matches exactly when the line is a clock time, whitespace, then at least one character; group 1 is the time and group 2 is what follows the greedy whitespace run |
| Rules.ActionsStartWithParticle | main.py:23-30 | `SYSTEM_ACTIONS` has six phrases, each at least two characters long and each starting with the particle `が` |
| Rules.KeywordsNonEmpty | main.py:33-42 | `NON_USERNAME_KEYWORDS` has eight keywords, none empty, and `終` is a prefix of `終了`, so the later keyword never decides anything |
| Rules.StartsWithAnyFrom | main.py:67-69 | the keyword loop finds a keyword exactly when some remaining keyword is a prefix of the word |
| Rules.IsValidMessageLine | main.py:50-72 | whitespace-only text is never a message start; otherwise the text starts a message exactly when no keyword is a prefix of its first token |
| Rules.ShouldExclude | main.py:74-85 | a record is dropped exactly when its body is whitespace, `画像`, whitespace; a body that merely contains `画像` is kept |
| Rules.FirstActionFrom | main.py:98-99 | the action loop returns the first action, in list order, that occurs in the text, or none when no remaining action occurs |
| Rules.OccurrenceStarts | main.py:100-103 | the text before an occurrence of the action, followed by the action, is a prefix of the text |
| Rules.SplitUserMessage | main.py:87-114 | with a system action in the text, the body is the first such action and the sender is the text before its first occurrence; without one, the sender is the first token and the body is the rest after the gap; whitespace-only text stays whole as the sender |
| Parser.Classify | main.py:131-160 | blank exactly when the line is all whitespace; a message start carries the line's own clock time |
| Parser.Settle | main.py:139-146 | the flush writes the in-flight record or counts it as excluded, exactly one of the two, and leaves date, day and slot unchanged |
| Parser.Finalize | main.py:139-147 | the flush at a date header also clears the slot, and loses no record |
| Parser.AppendLine | main.py:186-189 | how a continuation line joins a body: after a line break when the body is non-empty, alone otherwise; `ParserProperties.FoldedBodyAppend` relates it to joining with line breaks |
| Parser.Continue | main.py:184-197 | a continuation line changes the body of the in-flight record and nothing else; with nothing in flight it is dropped |
| Parser.Apply | main.py:128-197 | one line: only a message start adds a record; written output and the excluded count only grow; a header sets date and day and empties the slot; a start opens a record with the current date and day and its own time |
| Parser.StepBlank | main.py:131-133 | a blank line leaves the state as it is |
| Parser.StepDate | main.py:135-151 | a date header settles and clears the slot, then sets date and day from the match |
| Parser.StepStart | main.py:153-181 | an accepted message start settles the previous record, then opens one from the split text |
| Parser.StepContinue | main.py:182-197 | a rejected timestamped line or a plain line is appended whole |
| Parser.Step | main.py:130-197 | one iteration of the loop body: the line is classified, then that case is applied; `Parser.LineParser.Feed` is proved to change the object exactly so |
| Parser.Run | main.py:128 | the `for line in infile` loop: the state after each line is one step from the state after the lines before it |
| Parser.Parse | main.py:116-206 | `parse_file` on a fresh parser: the loop from the initial state, then the end-of-input flush |
| Parser.LineParser.constructor | main.py:44-48 | a new parser has no date, no day, no record in flight, no exclusions and has written nothing |
| Parser.LineParser.SettleCurrent | main.py:199-206 | the object afterwards is `Settle` of the object before |
| Parser.LineParser.AppendToCurrent | main.py:192-197 | the object afterwards is `Continue` of the object before |
| Parser.LineParser.OpenDay | main.py:137-151 | the object afterwards is `Finalize` of the object before, with the header's date and day |
| Parser.LineParser.OpenMessage | main.py:160-181 | the object afterwards is `Settle` of the object before, holding a new record with the current date and day, the time and the split of the text |
| Parser.LineParser.Feed | main.py:128-197 | one loop iteration changes the object exactly as `Step` says |
| Parser.LineParser.ParseFile | main.py:116-206 | `parse_file` changes the object exactly as the loop `Run` followed by the flush `Settle` |
| ParserProperties.RunConcat | main.py:128 | processing two inputs one after the other is processing their concatenation |
| ParserProperties.ApplyEmits | main.py:139-146 | one line writes nothing, or writes exactly the in-flight record, and only when it is not excluded |
| ParserProperties.RunAccounts | main.py:128-197 | during the loop, written + excluded + in-flight grows by one per message start and by nothing else |
| ParserProperties.Conservation | main.py:116-206 | after `parse_file`, records written + records excluded = message starts in the input |
| ParserProperties.RunKeeps | main.py:139-146 | the output only grows, the exclusion count never falls, and no placeholder-only record is ever written |
| ParserProperties.SettleKeeps | main.py:199-206 | the end-of-input flush keeps what was written and adds no placeholder-only record |
| ParserProperties.ParseEmitsOnlyKept | main.py:199-206 | nothing `parse_file` writes is placeholder-only, and what the loop wrote stays a prefix of the final output |
| ParserProperties.BlankLinesIgnored | main.py:131-133 | dropping blank lines from the input gives the same state |
| ParserProperties.FoldedBodyAppend | main.py:194-197 | one more continuation extends the joined body by a line break and the line |
| ParserProperties.StepContinuation | main.py:182-197 | a continuation line is appended whole and is never empty |
| ParserProperties.ContinuationsFold | main.py:182-197 | a run of continuation lines makes the in-flight body the old body and the lines joined by line breaks (the lines alone when the body was empty); nothing else changes; with nothing in flight the run is dropped |
| ParserProperties.DatesCarry | main.py:175-181 | with no date header, date and day stay put, and every record written or in flight carries them |
| ParserProperties.ApplyKeepsDate | main.py:175-181 | a line other than a date header keeps the date and the day, and the record in flight keeps carrying them |
| ParserProperties.SettleDated | main.py:199-206 | the flush writes only a record carrying the current date and day |
| ParserProperties.DateInheritance | main.py:149-150 | after a date header, every record up to the next header, including the one flushed at the end, gets that header's date and day |
| ParserProperties.StartOpensRecord | main.py:160-181 | a message start writes or excludes the previous record as the flush does, then holds a record with the current date and day, the line's time and the split of its text |
| ParserProperties.FlushRetainsRecord | main.py:199-206 | the end-of-input flush leaves the record in the slot; a reused parser fed an empty input writes it a second time |
| Scenarios.SplitAt | main.py:107-109 | a token, a whitespace run and non-whitespace text form the first-token split |
| Scenarios.WholeToken | main.py:64 | text without whitespace is a single token |
| Scenarios.AbsentFirstChar | main.py:99 | a phrase whose first character is absent does not occur |
| Scenarios.PairFreeNoOccurrence | main.py:99 | a phrase whose first two characters never appear side by side does not occur |
| Scenarios.NoticeFreeSplit | main.py:98-109 | text without the particle `が` contains no system action and splits at its first whitespace run |
| Scenarios.NoKeywordStarts | main.py:67-72 | a first token starting with no keyword's first character makes the text a message start |
| Scenarios.DifferentFirst | main.py:67-69 | a word does not start with a keyword whose first character differs from its own |
| Scenarios.NoKeywordPrefix | main.py:67-69 | a word starting with no keyword's first character starts with no keyword |
| Scenarios.AbsentBefore | main.py:99-101 | a phrase whose first character is missing from the first characters of the text does not occur there |
| Scenarios.NoticeSplit | main.py:98-104 | when an action is the first in list order to occur, the sender is the text before its first occurrence and the body is the action |
| Scenarios.TimestampedLine | main.py:153-160 | a time, one space and text not ending in `日` is a message start exactly when the text is valid, and otherwise a continuation |
| Scenarios.TimedStart | main.py:153-160 | a time, one space and an accepted text that does not end in `日` form a message start with that time and text |
| Scenarios.SystemNoticeSplits | main.py:98-104 | `Aliceが退出しました` is Alice's notice `が退出しました` |
| Scenarios.PlainTextSplits | main.py:106-109 | `Bob  hello world ` splits into `Bob` and `hello world `, trailing space kept |
| Scenarios.DateHeaderRecognised | main.py:17 | `2030.01.01 水曜日` is a header with date `2030.01.01` and day `水曜日` |
| Scenarios.EnglishWeekdayIsNoHeader | main.py:17 | `2030.01.01 Wednesday` is neither a header nor a message start |
| Scenarios.KeywordLineContinues | main.py:50-72 | `09:10 開始します` ("starting") continues the previous message |
| Scenarios.PlaceholderOnlyExcluded | main.py:85 | body ` 画像` followed by an ideographic space is dropped; `画像です` is kept |
| Scenarios.GreetingSplits | main.py:106-109 | `Bob hello` is Bob's message `hello` |
| Scenarios.GreetingStarts | main.py:153-160 | `09:00 Bob hello` starts a message |
| Scenarios.PictureSplits | main.py:106-109 | `Bob 画像` is Bob's message `画像` |
| Scenarios.PictureStarts | main.py:153-160 | `09:05 Bob 画像` starts a message |
| Scenarios.PlainLineContinues | main.py:190-197 | `there` is a continuation line |
| Scenarios.RunPrefix | main.py:128 | the loop over one more line is one more step |
| Scenarios.StepDated | main.py:135-151 | a header with nothing in flight only sets date and day |
| Scenarios.StepOpens | main.py:160-181 | a start with nothing in flight only opens the record |
| Scenarios.StepReplaces | main.py:160-181 | a start with a record in flight flushes it and opens the new record |
| Scenarios.StepExtends | main.py:184-197 | a continuation extends the in-flight body |
| Scenarios.RunFour | main.py:128 | four lines whose steps are known, one by one, end in the last of those states |
| Scenarios.HeaderStartLineStart | main.py:128-197 | header, start, plain line, start: the plain line joins the first body, and the second start settles the first record and opens the second |
| Scenarios.GreetingKept | main.py:74-85 | a record whose body is `hello\nthere` is written |
| Scenarios.PictureExcluded | main.py:74-85 | a record whose body is `画像` is dropped |
| Scenarios.KeptThenExcluded | main.py:199-206 | a kept record settled by a start whose record is excluded, then the flush: one record written, one excluded, and the excluded one left in the slot |
| Scenarios.ShortTranscript | main.py:116-206 | header `水曜日`, `09:00 Bob hello`, `there`, `09:05 Bob 画像`: one record (`hello\nthere`, dated) is written, the placeholder record is excluded, and the excluded count is 1 |
| Driver.ParseTranscript | main.py:241-248 | a fresh parser on one file writes the records and reaches the exclusion count of `Parse`; together they account for every message start, and no written record is a placeholder |

## Left out

- File handling is not modelled:
  - opening the files with UTF-8 encoding;
  - iterating lines and `rstrip("\n\r")`.

  The model takes the already-stripped lines as a sequence of strings. Such lines hold no
  `\n`, so `.` is modelled as any character and `$` as the end of the line. Nothing in
  the model enforces this. The theorems about `Run` and `Parse` range over every sequence
  of strings, a larger set of inputs than the source can see. On a string holding `\n`,
  `Patterns.MatchMessage` and `Patterns.MatchDate` can accept what the Python patterns
  reject: `MatchMessage` accepts `09:00 a\nb`.
- JSON serialisation (`json.dumps`) is not modelled: `written` holds the records
  themselves. The round trip of the serialised form is a property of the JSON library,
  which is not part of this model.
- Most of `main()` is not modelled: the directory scan, the output directory, counting the
  lines of the output file, printing, exit codes and per-file exception handling.
  `Driver.ParseTranscript` covers the fresh parser, the `parse_file` call and the two counts.
- `debug_parse.py`, `check_all.py` and `check_images.py` are not part of this model.
- Patterns.MatchDate, Patterns.MatchMessage: `\d` matches every Unicode decimal digit.
  `IsDigit` only accepts ASCII digits and full-width digits.
- `if self.current_message:` tests the truthiness of a five-key dictionary, which is always
  true, so it is modelled as "a record is in flight". `message.get("message", "")` always
  finds its key.
- `str.find` returning -1 is modelled as `None`. `Rules.FirstActionFrom` decides `in` by
  `Find` succeeding, which `PyStr.Find` proves is the same test.
